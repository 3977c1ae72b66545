/**
 * Rewriting a header block by rules: the request line stays, some lines are added, some
 * of the others are kept, and a blank line ends the block.
 */
module HeaderRewrite {
  import opened Prelude
  import opened TextLines

  datatype RewriteError = NoRequestLine | BadRequestLine | BadBearer | SliceOutOfRange

  /** What a rewrite asks of the request line, whether it has a bearer to add, the lines it adds and those it keeps. */
  datatype Rules = Rules(validLine: string -> bool, validBearer: bool, added: seq<string>, keeps: string -> bool)

  /** The lines that pass through, in order. */
  function Kept(lines: seq<string>, keeps: string -> bool): seq<string> {
    if lines == [] then [] else (if keeps(lines[0]) then [lines[0]] else []) + Kept(lines[1..], keeps)
  }

  /** The index of the first line end, or the length. */
  function FirstLineEnd(h: string): nat {
    if |h| < 2 then |h| else if h[0] == '\r' && h[1] == '\n' then 0 else 1 + FirstLineEnd(h[1..])
  }

  /** A header block of a request line and header lines, with the blank line. */
  function Block(requestLine: string, lines: seq<string>): string {
    requestLine + (Terminated(lines, '\n') + "\r\n")
  }

  /** The lines between the request line and the blank line. */
  function InnerLines(h: string, p: nat): seq<string>
    requires p + 2 <= |h|
  {
    Split(h[p..|h| - 2], '\n')
  }

  /** Slicing out the lines between the request line and the blank line fails when the two overlap. */
  function RewriteBy(h: string, rules: Rules): Result<string, RewriteError> {
    var p := FirstLineEnd(h) + 2;
    if p > |h| then Err(NoRequestLine)
    else if !rules.validLine(h[..p]) then Err(BadRequestLine)
    else if !rules.validBearer then Err(BadBearer)
    else if p + 2 > |h| then Err(SliceOutOfRange)
    else Ok(Block(h[..p], rules.added + Kept(InnerLines(h, p), rules.keeps)))
  }

  // ---------- The rewrite as code ----------

  lemma {:induction false} KeptSnoc(lines: seq<string>, line: string, keeps: string -> bool)
    ensures Kept(lines + [line], keeps) == if keeps(line) then Kept(lines, keeps) + [line] else Kept(lines, keeps)
  {
    if lines == [] {
      assert lines + [line] == [line];
    } else {
      assert (lines + [line])[1..] == lines[1..] + [line];
      KeptSnoc(lines[1..], line, keeps);
      var first := if keeps(lines[0]) then [lines[0]] else [];
      assert first + Kept(lines[1..], keeps) + [line] == first + (Kept(lines[1..], keeps) + [line]);
    }
  }

  lemma {:induction false} TerminatedSnoc(lines: seq<string>, line: string, c: char)
    ensures Terminated(lines + [line], c) == Terminated(lines, c) + (line + [c])
  {
    if lines == [] {
      assert lines + [line] == [line];
      assert Terminated([line], c) == line + [c];
    } else {
      assert (lines + [line])[1..] == lines[1..] + [line];
      TerminatedSnoc(lines[1..], line, c);
    }
  }

  method KeepLines(lines: seq<string>, keeps: string -> bool) returns (kept: string)
    ensures kept == Terminated(Kept(lines, keeps), '\n')
  {
    kept := "";
    for i := 0 to |lines|
      invariant kept == Terminated(Kept(lines[..i], keeps), '\n')
    {
      assert lines[..i + 1] == lines[..i] + [lines[i]];
      KeptSnoc(lines[..i], lines[i], keeps);
      if keeps(lines[i]) {
        TerminatedSnoc(Kept(lines[..i], keeps), lines[i], '\n');
        kept := kept + (lines[i] + ['\n']);
      }
    }
    assert lines[..|lines|] == lines;
  }

  lemma {:induction false} TerminatedBoth(a: seq<string>, b: seq<string>, c: char)
    ensures Terminated(a + b, c) == Terminated(a, c) + Terminated(b, c)
  {
    if a == [] {
      assert a + b == b;
    } else {
      assert (a + b)[1..] == a[1..] + b;
      TerminatedBoth(a[1..], b, c);
    }
  }

  method RewriteRequestHeaders(h: string, rules: Rules) returns (r: Result<string, RewriteError>)
    ensures r == RewriteBy(h, rules)
  {
    var p := FirstLineEnd(h) + 2;
    if p > |h| {
      return Err(NoRequestLine);
    }
    if !rules.validLine(h[..p]) {
      return Err(BadRequestLine);
    }
    if !rules.validBearer {
      return Err(BadBearer);
    }
    if p + 2 > |h| {
      return Err(SliceOutOfRange);
    }
    var kept := KeepLines(InnerLines(h, p), rules.keeps);
    var rewritten := h[..p] + (Terminated(rules.added, '\n') + kept + "\r\n");
    TerminatedBoth(rules.added, Kept(InnerLines(h, p), rules.keeps), '\n');
    r := Ok(rewritten);
  }

  // ---------- What the rewrite means ----------

  lemma BlockLines(requestLine: string, lines: seq<string>)
    requires Free(lines, '\n')
    ensures var b := Block(requestLine, lines);
            && b[..|requestLine|] == requestLine
            && Split(b[|requestLine|..], '\n') == lines + ["\r", ""]
            && Split(b[|requestLine|..|b| - 2], '\n') == lines + [""]
  {
    var b, text := Block(requestLine, lines), Terminated(lines, '\n');
    assert b[|requestLine|..] == text + "\r\n";
    assert b[|requestLine|..|b| - 2] == text + "";
    SplitTerminated(lines, '\n', "\r\n");
    SplitTerminated(lines, '\n', "");
    SplitCons("\r", '\n', "");
    assert "\r" + ['\n'] + "" == "\r\n";
  }

  lemma {:induction false} KeptAre(lines: seq<string>, keeps: string -> bool, c: char)
    ensures forall i :: 0 <= i < |Kept(lines, keeps)| ==> keeps(Kept(lines, keeps)[i])
    ensures Free(lines, c) ==> Free(Kept(lines, keeps), c)
  {
    if lines != [] {
      KeptAre(lines[1..], keeps, c);
      assert Free(lines, c) ==> Free(lines[1..], c);
    }
  }

  lemma {:induction false} KeptAll(lines: seq<string>, keeps: string -> bool)
    requires forall i :: 0 <= i < |lines| ==> keeps(lines[i])
    ensures Kept(lines, keeps) == lines
  {
    if lines != [] {
      KeptAll(lines[1..], keeps);
    }
  }

  lemma {:induction false} KeptNone(lines: seq<string>, rest: seq<string>, keeps: string -> bool)
    requires forall i :: 0 <= i < |lines| ==> !keeps(lines[i])
    ensures Kept(lines + rest, keeps) == Kept(rest, keeps)
  {
    if lines == [] {
      assert lines + rest == rest;
    } else {
      assert (lines + rest)[1..] == lines[1..] + rest;
      KeptNone(lines[1..], rest, keeps);
    }
  }

  lemma {:induction false} FirstLineEndStays(h: string, g: string)
    requires FirstLineEnd(h) + 2 <= |h| && FirstLineEnd(h) + 2 <= |g|
    requires g[..FirstLineEnd(h) + 2] == h[..FirstLineEnd(h) + 2]
    ensures FirstLineEnd(g) == FirstLineEnd(h)
  {
    var n := FirstLineEnd(h);
    assert g[0] == g[..n + 2][0] == h[0] && g[1] == g[..n + 2][1] == h[1];
    if n > 0 {
      assert g[1..][..n + 1] == g[..n + 2][1..] == h[1..][..n + 1];
      FirstLineEndStays(h[1..], g[1..]);
    }
  }

  /** The added lines are single lines that would not be kept, and neither is an empty line. */
  predicate Sound(rules: Rules) {
    && Free(rules.added, '\n') && !rules.keeps("")
    && forall i :: 0 <= i < |rules.added| ==> !rules.keeps(rules.added[i])
  }

  lemma BlockLinesAt(requestLine: string, p: nat, lines: seq<string>, out: string)
    requires Free(lines, '\n') && |requestLine| == p && out == Block(requestLine, lines)
    ensures p + 2 <= |out| && Split(out[p..], '\n') == lines + ["\r", ""] && InnerLines(out, p) == lines + [""]
  {
    BlockLines(requestLine, lines);
  }

  /** The header lines a rewrite writes. */
  function NewLines(h: string, p: nat, rules: Rules): seq<string>
    requires p + 2 <= |h|
  {
    rules.added + Kept(InnerLines(h, p), rules.keeps)
  }

  lemma NewLinesFree(h: string, p: nat, rules: Rules)
    requires p + 2 <= |h| && Sound(rules)
    ensures Free(NewLines(h, p, rules), '\n')
  {
    SplitFree(h[p..|h| - 2], '\n');
    KeptAre(InnerLines(h, p), rules.keeps, '\n');
  }

  /** The request line of a rewritten block is that of the block. */
  lemma RewriteByRequestLine(h: string, rules: Rules, out: string)
    requires RewriteBy(h, rules) == Ok(out)
    ensures var p := FirstLineEnd(h) + 2;
            p + 2 <= |h| && p + 2 <= |out| && FirstLineEnd(out) + 2 == p && out[..p] == h[..p]
            && out == Block(h[..p], NewLines(h, p, rules))
  {
    var p := FirstLineEnd(h) + 2;
    RequestLineKept(h, p, NewLines(h, p, rules), out);
  }

  lemma RequestLineKept(h: string, p: nat, lines: seq<string>, out: string)
    requires p == FirstLineEnd(h) + 2 <= |h| && out == Block(h[..p], lines)
    ensures p + 2 <= |out| && FirstLineEnd(out) + 2 == p && out[..p] == h[..p]
  {
    BlockStarts(h[..p], lines);
    FirstLineEndStays(h, out);
  }

  lemma BlockStarts(requestLine: string, lines: seq<string>)
    ensures |requestLine| + 2 <= |Block(requestLine, lines)| && Block(requestLine, lines)[..|requestLine|] == requestLine
  {
  }

  /**
   * The lines after the request line of a rewritten block: the added ones, then the other
   * lines of the block, byte for byte and in order, then the blank line.
   */
  lemma RewriteByLines(h: string, rules: Rules, out: string)
    requires Sound(rules) && RewriteBy(h, rules) == Ok(out)
    ensures var p := FirstLineEnd(h) + 2;
            && p + 2 <= |h| && p + 2 <= |out|
            && Split(out[p..], '\n') == NewLines(h, p, rules) + ["\r", ""]
            && InnerLines(out, p) == NewLines(h, p, rules) + [""]
  {
    var p := FirstLineEnd(h) + 2;
    RewriteByRequestLine(h, rules, out);
    NewLinesFree(h, p, rules);
    BlockLinesAt(h[..p], p, NewLines(h, p, rules), out);
  }

  lemma KeptOfNew(rules: Rules, kept: seq<string>)
    requires Sound(rules) && forall i :: 0 <= i < |kept| ==> rules.keeps(kept[i])
    ensures Kept(rules.added + kept + [""], rules.keeps) == kept
  {
    KeptSnoc(rules.added + kept, "", rules.keeps);
    KeptNone(rules.added, kept, rules.keeps);
    KeptAll(kept, rules.keeps);
  }

  lemma RewriteByIdempotent(h: string, rules: Rules, out: string)
    requires Sound(rules) && RewriteBy(h, rules) == Ok(out)
    ensures RewriteBy(out, rules) == Ok(out)
  {
    var p := FirstLineEnd(h) + 2;
    RewriteByRequestLine(h, rules, out);
    RewriteByLines(h, rules, out);
    KeptAre(InnerLines(h, p), rules.keeps, '\n');
    KeptOfNew(rules, Kept(InnerLines(h, p), rules.keeps));
  }

  lemma {:induction false} FirstLineEndBefore(h: string, n: nat)
    requires n + 2 <= |h| && h[n] == '\r' && h[n + 1] == '\n'
    ensures FirstLineEnd(h) <= n
  {
    if n > 0 && !(h[0] == '\r' && h[1] == '\n') {
      FirstLineEndBefore(h[1..], n - 1);
    }
  }
}
