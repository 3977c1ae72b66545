/** What a rewritten header block is as a whole, cut at every line feed, its request line included. */
module GatewayBlock {
  import opened Prelude
  import opened TextLines
  import opened HeaderRewrite
  import opened Gateway

  /** How many lines are an authorization, a connection, blank. */
  function Totals(lines: seq<string>, kind: string -> (bool, bool, bool)): (nat, nat, nat) {
    if lines == [] then (0, 0, 0)
    else
      var k, t := kind(lines[0]), Totals(lines[1..], kind);
      (t.0 + (if k.0 then 1 else 0), t.1 + (if k.1 then 1 else 0), t.2 + (if k.2 then 1 else 0))
  }

  lemma {:induction false} TotalsConcat(a: seq<string>, b: seq<string>, kind: string -> (bool, bool, bool))
    ensures var s, t, u := Totals(a, kind), Totals(b, kind), Totals(a + b, kind);
            u == (s.0 + t.0, s.1 + t.1, s.2 + t.2)
  {
    if a == [] {
      assert a + b == b;
    } else {
      assert (a + b)[1..] == a[1..] + b;
      TotalsConcat(a[1..], b, kind);
    }
  }

  predicate NoneOfThem(lines: seq<string>, kind: string -> (bool, bool, bool)) {
    forall i :: 0 <= i < |lines| ==> kind(lines[i]) == (false, false, false)
  }

  lemma {:induction false} TotalsZeroIff(lines: seq<string>, kind: string -> (bool, bool, bool))
    ensures Totals(lines, kind) == (0, 0, 0) <==> NoneOfThem(lines, kind)
  {
    if lines != [] {
      TotalsZeroIff(lines[1..], kind);
      assert lines == [lines[0]] + lines[1..];
    }
  }

  lemma TotalsOfNew(kind: string -> (bool, bool, bool), a: string, b: string, kept: seq<string>, last: string)
    requires kind(a) == (true, false, false) && kind(b) == (false, true, false) && kind(last) == (false, false, true)
    requires NoneOfThem(kept, kind)
    ensures Totals([a, b] + kept + [last], kind) == (1, 1, 1)
  {
    TotalsConcat([a, b] + kept, [last], kind);
    TotalsConcat([a, b], kept, kind);
    TotalsZeroIff(kept, kind);
    assert [a, b][1..] == [b] && [b][1..] == [] && [last][1..] == [];
    assert Totals([b], kind) == (0, 1, 0);
  }

  /** No line of the text, cut at bare line feeds too, is an authorization, a connection or blank. */
  predicate PlainLine(line: string) {
    NoneOfThem(Split(line, '\n'), KindOf)
  }

  lemma SplitAtLineEnd(h: string, p: nat, out: string)
    requires 0 < p <= |h| && p <= |out| && out[..p] == h[..p] && h[p - 1] == '\n'
    ensures Split(out, '\n') == Split(h[..p - 1], '\n') + Split(out[p..], '\n')
  {
    SharedHead(h, p, out);
    SplitBoth(h[..p - 1], '\n', out[p..]);
  }

  lemma SharedHead(h: string, p: nat, out: string)
    requires 0 < p <= |h| && p <= |out| && out[..p] == h[..p]
    ensures out == h[..p - 1] + [h[p - 1]] + out[p..]
  {
    assert h[..p] == h[..p - 1] + [h[p - 1]];
    assert out == out[..p] + out[p..];
  }

  /** `out` has the first `p` bytes of `h`, which end a line, and then these lines and the blank one. */
  predicate Follows(h: string, p: nat, out: string, added: seq<string>) {
    && 0 < p <= |h| && p <= |out| && out[..p] == h[..p] && h[p - 1] == '\n'
    && Split(out[p..], '\n') == added + ["\r", ""]
  }

  lemma RewriteByFollows(h: string, rules: Rules, out: string)
    requires Sound(rules) && RewriteBy(h, rules) == Ok(out)
    ensures FirstLineEnd(h) + 4 <= |h| && Follows(h, FirstLineEnd(h) + 2, out, NewLines(h, FirstLineEnd(h) + 2, rules))
  {
    RewriteByRequestLine(h, rules, out);
    RewriteByLines(h, rules, out);
    LineEndThere(h);
  }

  lemma WholeLines(h: string, p: nat, out: string, added: seq<string>)
    requires Follows(h, p, out, added)
    ensures Split(out, '\n') == Split(h[..p - 1], '\n') + (added + ["\r"]) + [""]
  {
    SplitAtLineEnd(h, p, out);
    MoveBracket(Split(h[..p - 1], '\n'), added, "\r", "");
  }

  lemma MoveBracket(a: seq<string>, b: seq<string>, c: string, d: string)
    ensures a + (b + [c, d]) == a + (b + [c]) + [d]
  {
  }

  lemma {:induction false} LineEndThere(h: string)
    requires FirstLineEnd(h) + 2 <= |h|
    ensures h[FirstLineEnd(h)] == '\r' && h[FirstLineEnd(h) + 1] == '\n'
  {
    if !(h[0] == '\r' && h[1] == '\n') {
      LineEndThere(h[1..]);
    }
  }

  lemma NewTotals(bearer: string, utf8: Utf8, kept: seq<string>)
    requires ValidBearer(bearer) && forall k :: 0 <= k < |kept| ==> RulesFor(bearer, utf8).keeps(kept[k])
    ensures Totals([AuthorizationLine(bearer), CONNECTION_LINE] + kept + ["\r"], KindOf) == (1, 1, 1)
  {
    AddedKinds(bearer);
    BlankKind();
    forall k | 0 <= k < |kept|
      ensures KindOf(kept[k]) == (false, false, false)
    {
      KeptKind(bearer, utf8, kept[k]);
    }
    TotalsOfNew(KindOf, AuthorizationLine(bearer), CONNECTION_LINE, kept, "\r");
  }

  /**
   * Cut at every line feed, the whole rewritten block has exactly one authorization, one
   * connection and one blank line, the last, exactly when the request line has none of
   * them between bare line feeds of its own.
   */
  lemma WholeBlockIff(h: string, bearer: string, utf8: Utf8, out: string)
    requires Rewrite(h, bearer, utf8) == Ok(out)
    ensures var lines := Split(out, '\n'); var n := |lines| - 1;
            && n > 0 && lines[n] == "" && lines[n - 1] == "\r"
            && (Totals(lines[..n], KindOf) == (1, 1, 1) <==> PlainLine(h[..FirstLineEnd(h) + 1]))
  {
    var rules, p := RulesFor(bearer, utf8), FirstLineEnd(h) + 2;
    GatewayRulesSound(bearer, utf8);
    RewriteByFollows(h, rules, out);
    WholeLines(h, p, out, NewLines(h, p, rules));
    KeptAre(InnerLines(h, p), rules.keeps, '\n');
    NewTotals(bearer, utf8, Kept(InnerLines(h, p), rules.keeps));
    WholeTotals(KindOf, Split(h[..p - 1], '\n'), NewLines(h, p, rules) + ["\r"], Split(out, '\n'));
  }

  lemma WholeTotals(kind: string -> (bool, bool, bool), head: seq<string>, added: seq<string>, lines: seq<string>)
    requires lines == head + added + [""] && added != [] && Totals(added, kind) == (1, 1, 1)
    ensures Totals(lines[..|lines| - 1], kind) == (1, 1, 1) <==> NoneOfThem(head, kind)
    ensures lines[|lines| - 2] == added[|added| - 1] && lines[|lines| - 1] == ""
  {
    LastOff(head, added, lines);
    TotalsConcat(head, added, kind);
    TotalsZeroIff(head, kind);
  }

  lemma LastOff(head: seq<string>, added: seq<string>, lines: seq<string>)
    requires lines == head + added + [""] && added != []
    ensures lines[..|lines| - 1] == head + added && lines[|lines| - 2] == added[|added| - 1] && lines[|lines| - 1] == ""
  {
  }

  lemma SpacedNameDiffers(piece: string, name: string, i: nat)
    requires i < |piece| && piece[i] == ' ' && ' ' !in name
    ensures !EqualIgnoringCase(piece, name)
  {
    if |piece| == |name| {
      assert name[i] != ' ';
      assert LowerChar(piece[i]) != LowerChar(name[i]);
    }
  }

  /** A method without a colon and no line feed in the request line: such requests meet the condition. */
  lemma PlainRequests(verb: string, target: string)
    requires IsWord(verb) && IsWord(target) && ':' !in verb && '\n' !in verb && '\n' !in target
    ensures PlainLine(verb + " " + (target + " " + "HTTP/1.1") + "\r")
  {
    var rest := target + " " + "HTTP/1.1" + "\r";
    var line := verb + " " + rest;
    assert verb + " " + (target + " " + "HTTP/1.1") + "\r" == line;
    assert '\n' !in line;
    SplitNone(line, '\n');
    assert line == (verb + " ") + rest;
    FirstPieceStarts(verb + " ", ':', rest);
    var piece := Split(line, ':')[0];
    assert piece[|verb|] == (verb + " ")[|verb|] == ' ';
    SpacedNameDiffers(piece, "authorization", |verb|);
    SpacedNameDiffers(piece, "connection", |verb|);
    assert |line| > 1;
  }

  lemma {:induction false} FirstLineEndFree(a: string, rest: string)
    requires '\r' !in a
    ensures FirstLineEnd(a + "\r\n" + rest) == |a|
  {
    var s := a + "\r\n" + rest;
    if a != "" {
      assert s[1..] == a[1..] + "\r\n" + rest;
      FirstLineEndFree(a[1..], rest);
    }
  }

  /** A request line with a line of its own between bare line feeds. */
  function LineWithin(inner: string): string {
    "A\n" + inner + "\nGET" + " " + ("/" + " " + "HTTP/1.1")
  }

  lemma EndsOnce(a: string)
    requires '\r' !in a
    ensures var h := a + "\r\n" + "\r\n";
            EndsAt(h, |h|) && forall j :: 0 <= j < |h| ==> !EndsAt(h, j)
  {
    var h := a + "\r\n" + "\r\n";
    forall j | 0 <= j < |h|
      ensures !EndsAt(h, j)
    {
      if j >= 4 {
        assert j - 4 < |a| && h[j - 4] == a[j - 4];
      }
    }
  }

  /** The reader returns such a block, and the rewrite accepts it if it is UTF-8. */
  lemma LineWithinAccepted(inner: string, bearer: string, utf8: Utf8)
    requires ' ' !in inner && '\r' !in inner && |inner| <= 60000 && ValidBearer(bearer)
    requires utf8(LineWithin(inner) + "\r\n")
    ensures var h := LineWithin(inner) + "\r\n" + "\r\n";
            && ReadHeaders(h, false) == Ok(Some(h))
            && FirstLineEnd(h) == |LineWithin(inner)|
            && Rewrite(h, bearer, utf8).Ok?
  {
    var a := LineWithin(inner);
    var h := a + "\r\n" + "\r\n";
    assert '\r' !in a;
    FirstLineEndFree(a, "\r\n");
    EndsOnce(a);
    assert h[..|h|] == h;
    ReadHeadersIff(h, false, h);
    assert h[..|a| + 2] == a + "\r\n";
    RequestLineAccepted("A\n" + inner + "\nGET", "/", utf8);
    assert RequestLine("A\n" + inner + "\nGET", "/") == a + "\r\n";
  }

  /** Its own line comes out as a line of the rewritten block: an authorization or connection there is a second one. */
  lemma LineWithinKept(inner: string, bearer: string, utf8: Utf8, out: string)
    requires ' ' !in inner && '\r' !in inner && '\n' !in inner && |inner| <= 60000 && ValidBearer(bearer)
    requires utf8(LineWithin(inner) + "\r\n")
    requires Rewrite(LineWithin(inner) + "\r\n" + "\r\n", bearer, utf8) == Ok(out)
    ensures |Split(out, '\n')| > 1 && Split(out, '\n')[1] == inner
    ensures KindOf(inner) != (false, false, false) ==>
              Totals(Split(out, '\n')[..|Split(out, '\n')| - 1], KindOf) != (1, 1, 1)
  {
    var h := LineWithin(inner) + "\r\n" + "\r\n";
    LineWithinAccepted(inner, bearer, utf8);
    WithinSplit(inner, h);
    GatewayRulesSound(bearer, utf8);
    RewriteByFollows(h, RulesFor(bearer, utf8), out);
    WholeLines(h, FirstLineEnd(h) + 2, out, NewLines(h, FirstLineEnd(h) + 2, RulesFor(bearer, utf8)));
    WholeBlockIff(h, bearer, utf8, out);
    assert Split(h[..FirstLineEnd(h) + 1], '\n')[1] == inner;
  }

  lemma WithinSplit(inner: string, h: string)
    requires '\n' !in inner && h == LineWithin(inner) + "\r\n" + "\r\n"
    ensures |Split(h[..|LineWithin(inner)| + 1], '\n')| > 1 && Split(h[..|LineWithin(inner)| + 1], '\n')[1] == inner
  {
    var rest := "GET" + " " + ("/" + " " + "HTTP/1.1") + "\r";
    var line := h[..|LineWithin(inner)| + 1];
    assert line == LineWithin(inner) + "\r";
    assert line == "A" + ['\n'] + (inner + ['\n'] + rest);
    SplitCons("A", '\n', inner + ['\n'] + rest);
    SplitCons(inner, '\n', rest);
  }
}
