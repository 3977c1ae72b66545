/**
 * The gateway's header rewrite: the request line and every other header line pass
 * through, the caller's bearer is the only authorization and the connection closes.
 * Bytes are characters here, one for each byte; header blocks follow sections 3 and
 * 5 of RFC 9112.
 */
module Gateway {
  import opened Prelude
  import opened TextLines
  import opened HeaderRewrite

  const MAX_HTTP_HEADER_BYTES: nat := 65536

  type Utf8 = string -> bool

  // ---------- Reading the header block ----------

  datatype ReadError = HeadersTooLong | Truncated | ReadFailed

  /** The first `n` bytes end with a blank line. */
  predicate EndsAt(data: string, n: nat)
    requires n <= |data|
  {
    n >= 4 && data[n - 4] == '\r' && data[n - 3] == '\n' && data[n - 2] == '\r' && data[n - 1] == '\n'
  }

  /** The least length, from `n` on, whose prefix ends with a blank line; past the data if there is none. */
  function BlockEnd(data: string, n: nat): nat
    decreases |data| - n
  {
    if n > |data| then |data| + 1 else if EndsAt(data, n) then n else BlockEnd(data, n + 1)
  }

  lemma {:induction false} BlockEndIsFirst(data: string, n: nat, k: nat)
    requires n <= k
    ensures BlockEnd(data, n) == k && k <= |data| <==>
            k <= |data| && EndsAt(data, k) && forall j :: n <= j < k ==> !EndsAt(data, j)
    decreases |data| - n
  {
    if n <= |data| && !EndsAt(data, n) {
      BlockEndFrom(data, n + 1);
      if n < k {
        BlockEndIsFirst(data, n + 1, k);
      }
    }
  }

  /** What is read from the data of a stream that then ends, or fails if `failing`. */
  function ReadHeaders(data: string, failing: bool): Result<Option<string>, ReadError> {
    var k := BlockEnd(data, 0);
    if k <= |data| && k <= MAX_HTTP_HEADER_BYTES then Ok(Some(data[..k]))
    else if |data| > MAX_HTTP_HEADER_BYTES then Err(HeadersTooLong)
    else if failing then Err(ReadFailed)
    else if data == "" then Ok(None)
    else Err(Truncated)
  }

  method ReadInitialHeaders(data: string, failing: bool) returns (r: Result<Option<string>, ReadError>)
    ensures r == ReadHeaders(data, failing)
  {
    var bytes := "";
    while true
      invariant |bytes| <= |data| && |bytes| <= MAX_HTTP_HEADER_BYTES && bytes == data[..|bytes|]
      invariant BlockEnd(data, 0) == BlockEnd(data, |bytes| + 1)
      decreases |data| - |bytes|
    {
      if |bytes| == |data| {
        return if failing then Err(ReadFailed) else if bytes == "" then Ok(None) else Err(Truncated);
      }
      bytes := bytes + [data[|bytes|]];
      assert bytes == data[..|bytes|];
      if |bytes| > MAX_HTTP_HEADER_BYTES {
        BlockEndFrom(data, |bytes|);
        return Err(HeadersTooLong);
      }
      assert EndsAt(bytes, |bytes|) <==> EndsAt(data, |bytes|);
      if EndsAt(bytes, |bytes|) {
        return Ok(Some(bytes));
      }
    }
  }

  lemma {:induction false} BlockEndFrom(data: string, n: nat)
    ensures BlockEnd(data, n) >= n || BlockEnd(data, n) == |data| + 1
    decreases |data| - n
  {
    if n <= |data| && !EndsAt(data, n) {
      BlockEndFrom(data, n + 1);
    }
  }

  /** The reader returns exactly the shortest prefix that ends with a blank line, if it is short enough. */
  lemma ReadHeadersIff(data: string, failing: bool, h: string)
    ensures ReadHeaders(data, failing) == Ok(Some(h)) <==>
            && |h| <= |data| && |h| <= MAX_HTTP_HEADER_BYTES && h == data[..|h|]
            && EndsAt(data, |h|) && forall j :: 0 <= j < |h| ==> !EndsAt(data, j)
  {
    BlockEndIsFirst(data, 0, |h|);
    BlockEndFrom(data, 0);
  }

  // ---------- The request line ----------

  /** Every line end at the end is taken off. */
  function TrimLineEnds(s: string): string {
    if EndsWith(s, "\r\n") then TrimLineEnds(s[..|s| - 2]) else s
  }

  predicate ValidRequestLine(line: string, utf8: Utf8) {
    && utf8(line) && EndsWith(line, " HTTP/1.1\r\n")
    && var parts := Split(TrimLineEnds(line), ' ');
    |parts| == 3 && parts[0] != "" && parts[1] != "" && parts[2] == "HTTP/1.1"
  }

  /** A word of a request line. */
  predicate IsWord(s: string) {
    s != "" && ' ' !in s
  }

  function RequestLine(verb: string, target: string): string {
    verb + " " + (target + " " + "HTTP/1.1") + "\r\n"
  }

  lemma TrimOnce(s: string)
    requires EndsWith(s, "HTTP/1.1")
    ensures TrimLineEnds(s + "\r\n") == s
  {
    assert (s + "\r\n")[..|s|] == s;
    assert s[|s| - 2..][1] == s[|s| - 8..][7] == '1';
  }

  lemma SuffixEnds(s: string, suffix: string)
    ensures EndsWith(s + suffix, suffix)
  {
  }

  lemma Regroup(a: string, sp: string, b: string, d: string, e: string)
    ensures a + sp + (b + sp + d) == a + sp + b + sp + d
    ensures a + sp + (b + sp + d) + e == a + sp + b + (sp + d + e)
  {
  }

  lemma ThreeWords(a: string, b: string, d: string)
    requires ' ' !in a && ' ' !in b && ' ' !in d
    ensures Split(a + " " + (b + " " + d), ' ') == [a, b, d]
  {
    SplitCons(a, ' ', b + " " + d);
    SplitCons(b, ' ', d);
    SplitNone(d, ' ');
  }

  lemma RequestLineEnds(verb: string, target: string)
    ensures EndsWith(RequestLine(verb, target), " HTTP/1.1\r\n")
  {
    Regroup(verb, " ", target, "HTTP/1.1", "\r\n");
    assert " " + "HTTP/1.1" + "\r\n" == " HTTP/1.1\r\n";
    SuffixEnds(verb + " " + target, " HTTP/1.1\r\n");
  }

  lemma RequestLineTrimmed(verb: string, target: string)
    ensures TrimLineEnds(RequestLine(verb, target)) == verb + " " + (target + " " + "HTTP/1.1")
  {
    Regroup(verb, " ", target, "HTTP/1.1", "\r\n");
    SuffixEnds(verb + " " + target + " ", "HTTP/1.1");
    TrimOnce(verb + " " + (target + " " + "HTTP/1.1"));
  }

  lemma RequestLineAccepted(verb: string, target: string, utf8: Utf8)
    requires IsWord(verb) && IsWord(target) && utf8(RequestLine(verb, target))
    ensures ValidRequestLine(RequestLine(verb, target), utf8)
  {
    RequestLineEnds(verb, target);
    RequestLineTrimmed(verb, target);
    ThreeWords(verb, target, "HTTP/1.1");
  }

  lemma ThreeParts(s: string, a: string, b: string, d: string)
    requires Split(s, ' ') == [a, b, d]
    ensures s == a + " " + (b + " " + d) && ' ' !in a && ' ' !in b
  {
    SplitIsText(s, ' ');
    SplitFree(s, ' ');
    var pieces := Split(s, ' ');
    assert ' ' !in pieces[0] && ' ' !in pieces[1];
    assert pieces[..2] == [a] + [b];
    TerminatedCons(a, [b], ' ', d);
    TerminatedCons(b, [], ' ', d);
    assert [b] + [] == [b];
    assert Terminated([], ' ') + d == d;
  }

  /** A request line passes exactly when it is a method, a target and the version, one space apart. */
  lemma RequestLineIff(line: string, utf8: Utf8)
    ensures ValidRequestLine(line, utf8) <==>
            utf8(line) && exists verb, target :: IsWord(verb) && IsWord(target) && line == RequestLine(verb, target)
  {
    if ValidRequestLine(line, utf8) {
      var s := line[..|line| - 2];
      assert line == s + "\r\n" by {
        assert line[|line| - 2..] == line[|line| - 11..][9..] == "\r\n";
      }
      assert s[|s| - 8..] == line[|line| - 11..][1..9] == "HTTP/1.1";
      TrimOnce(s);
      var parts := Split(s, ' ');
      assert parts == [parts[0], parts[1], parts[2]];
      ThreeParts(s, parts[0], parts[1], parts[2]);
      assert line == RequestLine(parts[0], parts[1]);
    }
    if verb, target :| utf8(line) && IsWord(verb) && IsWord(target) && line == RequestLine(verb, target) {
      RequestLineAccepted(verb, target, utf8);
    }
  }

  // ---------- The rewrite ----------

  predicate ValidBearer(bearer: string) {
    bearer != "" && forall i :: 0 <= i < |bearer| ==> 0x21 <= bearer[i] as int <= 0x7e
  }

  function LowerChar(c: char): char {
    if 'A' <= c <= 'Z' then (c as int + 32) as char else c
  }

  predicate EqualIgnoringCase(a: string, b: string) {
    |a| == |b| && forall i :: 0 <= i < |a| ==> LowerChar(a[i]) == LowerChar(b[i])
  }

  predicate IsNamed(line: string, name: string) {
    EqualIgnoringCase(Split(line, ':')[0], name)
  }

  predicate IsBlank(line: string) {
    line == "" || line == "\r"
  }

  predicate IsKept(line: string) {
    !IsBlank(line) && !IsNamed(line, "authorization") && !IsNamed(line, "connection")
  }

  function AuthorizationLine(bearer: string): string {
    "Authorization" + ":" + (" Bearer " + bearer + "\r")
  }

  const CONNECTION_LINE: string := "Connection" + ":" + " close\r"

  function RulesFor(bearer: string, utf8: Utf8): Rules {
    Rules(line => ValidRequestLine(line, utf8), ValidBearer(bearer),
          [AuthorizationLine(bearer), CONNECTION_LINE], line => IsKept(line))
  }

  function Rewrite(h: string, bearer: string, utf8: Utf8): Result<string, RewriteError> {
    RewriteBy(h, RulesFor(bearer, utf8))
  }

  // ---------- The gateway's own rules ----------

  lemma AuthorizationNamed(bearer: string)
    ensures IsNamed(AuthorizationLine(bearer), "authorization") && !IsNamed(AuthorizationLine(bearer), "connection")
  {
    SplitCons("Authorization", ':', " Bearer " + bearer + "\r");
    SameName("Authorization", "authorization");
  }

  lemma ConnectionNamed()
    ensures IsNamed(CONNECTION_LINE, "connection") && !IsNamed(CONNECTION_LINE, "authorization")
  {
    SplitCons("Connection", ':', " close\r");
    SameName("Connection", "connection");
  }

  lemma SameName(a: string, b: string)
    requires |a| == |b| > 0 && LowerChar(a[0]) == LowerChar(b[0]) && a[1..] == b[1..]
    ensures EqualIgnoringCase(a, b)
  {
    forall i | 0 <= i < |a|
      ensures LowerChar(a[i]) == LowerChar(b[i])
    {
      if i > 0 {
        assert a[i] == a[1..][i - 1] == b[1..][i - 1] == b[i];
      }
    }
  }

  lemma AddedFree(bearer: string)
    requires ValidBearer(bearer)
    ensures '\n' !in AuthorizationLine(bearer) && '\n' !in CONNECTION_LINE
    ensures !IsBlank(AuthorizationLine(bearer)) && !IsBlank(CONNECTION_LINE)
  {
    assert '\n' !in bearer;
    assert AuthorizationLine(bearer)[0] == 'A' && CONNECTION_LINE[0] == 'C';
  }

  lemma KeepsAre(bearer: string, utf8: Utf8, line: string)
    ensures RulesFor(bearer, utf8).keeps(line) <==>
            !IsBlank(line) && !IsNamed(line, "authorization") && !IsNamed(line, "connection")
  {
  }

  lemma GatewayRulesSound(bearer: string, utf8: Utf8)
    requires ValidBearer(bearer)
    ensures Sound(RulesFor(bearer, utf8))
  {
    var rules := RulesFor(bearer, utf8);
    AddedFree(bearer);
    AuthorizationNamed(bearer);
    ConnectionNamed();
    KeepsAre(bearer, utf8, "");
    KeepsAre(bearer, utf8, AuthorizationLine(bearer));
    KeepsAre(bearer, utf8, CONNECTION_LINE);
    SoundBy(rules, AuthorizationLine(bearer), CONNECTION_LINE);
  }

  lemma SoundBy(rules: Rules, a: string, b: string)
    requires rules.added == [a, b] && '\n' !in a && '\n' !in b
    requires !rules.keeps(a) && !rules.keeps(b) && !rules.keeps("")
    ensures Sound(rules)
  {
  }

  /** Whether a line is an authorization, a connection, blank. */
  function KindOf(line: string): (bool, bool, bool) {
    (IsNamed(line, "authorization"), IsNamed(line, "connection"), IsBlank(line))
  }

  lemma KindsAlong(kind: string -> (bool, bool, bool), a: string, b: string, kept: seq<string>, last: string, i: nat)
    requires kind(a) == (true, false, false) && kind(b) == (false, true, false) && kind(last) == (false, false, true)
    requires forall k :: 0 <= k < |kept| ==> kind(kept[k]) == (false, false, false)
    ensures var lines := [a, b] + kept + [last];
            i < |lines| ==> kind(lines[i]) == (i == 0, i == 1, i == |lines| - 1)
  {
  }

  lemma BlankKind()
    ensures KindOf("\r") == (false, false, true)
  {
    SplitNone("\r", ':');
  }

  lemma AddedKinds(bearer: string)
    requires ValidBearer(bearer)
    ensures KindOf(AuthorizationLine(bearer)) == (true, false, false) && KindOf(CONNECTION_LINE) == (false, true, false)
  {
    AddedFree(bearer);
    AuthorizationNamed(bearer);
    ConnectionNamed();
  }

  lemma KeptKind(bearer: string, utf8: Utf8, line: string)
    requires RulesFor(bearer, utf8).keeps(line)
    ensures KindOf(line) == (false, false, false)
  {
    KeepsAre(bearer, utf8, line);
  }

  lemma KindsOfNew(bearer: string, utf8: Utf8, kept: seq<string>, i: nat)
    requires ValidBearer(bearer) && forall k :: 0 <= k < |kept| ==> RulesFor(bearer, utf8).keeps(kept[k])
    ensures var lines := [AuthorizationLine(bearer), CONNECTION_LINE] + kept + ["\r"];
            i < |lines| ==> KindOf(lines[i]) == (i == 0, i == 1, i == |lines| - 1)
  {
    AddedKinds(bearer);
    BlankKind();
    forall k | 0 <= k < |kept|
      ensures KindOf(kept[k]) == (false, false, false)
    {
      KeptKind(bearer, utf8, kept[k]);
    }
    KindsAlong(KindOf, AuthorizationLine(bearer), CONNECTION_LINE, kept, "\r", i);
  }

  /**
   * The lines after the request line of a rewritten block: exactly the first is an
   * authorization, exactly the second a connection, and only the last is blank; between
   * them are the block's other lines that are not blank, byte for byte and in order.
   */
  lemma RewriteMeaning(h: string, bearer: string, utf8: Utf8, out: string, i: nat)
    requires Rewrite(h, bearer, utf8) == Ok(out)
    ensures var p := FirstLineEnd(h) + 2;
            && p + 2 <= |h| && p <= |out| && out[..p] == h[..p]
            && var kept := Kept(InnerLines(h, p), RulesFor(bearer, utf8).keeps);
               var lines := [AuthorizationLine(bearer), CONNECTION_LINE] + kept + ["\r"];
            && Split(out[p..], '\n') == lines + [""]
            && (i < |lines| ==> KindOf(lines[i]) == (i == 0, i == 1, i == |lines| - 1))
  {
    var rules, p := RulesFor(bearer, utf8), FirstLineEnd(h) + 2;
    GatewayRulesSound(bearer, utf8);
    RewriteByRequestLine(h, rules, out);
    RewriteByLines(h, rules, out);
    KeptAre(InnerLines(h, p), rules.keeps, '\n');
    KindsOfNew(bearer, utf8, Kept(InnerLines(h, p), rules.keeps), i);
  }

  /** Rewriting a rewritten block with the same bearer changes nothing. */
  lemma RewriteIdempotent(h: string, bearer: string, utf8: Utf8, out: string)
    requires Rewrite(h, bearer, utf8) == Ok(out)
    ensures Rewrite(out, bearer, utf8) == Ok(out)
  {
    GatewayRulesSound(bearer, utf8);
    RewriteByIdempotent(h, RulesFor(bearer, utf8), out);
  }

  /** A block that the reader returns is rewritten exactly when its request line and the bearer are valid. */
  lemma ReadBlocksRewrite(data: string, failing: bool, h: string, rules: Rules)
    requires ReadHeaders(data, failing) == Ok(Some(h))
    ensures FirstLineEnd(h) + 4 <= |h|
    ensures RewriteBy(h, rules).Ok? <==> rules.validLine(h[..FirstLineEnd(h) + 2]) && rules.validBearer
    ensures RewriteBy(h, rules) != Err(SliceOutOfRange) && RewriteBy(h, rules) != Err(NoRequestLine)
  {
    ReadHeadersIff(data, failing, h);
    FirstLineEndBefore(h, |h| - 4);
  }
}
