/**
 * The filter on terminal input that deletes capability responses, passes
 * bracketed pastes untouched and can release a lone ESC on a timeout. Runs of
 * feed, flush_timeout and finish are proved equal to a stateless tokenizer.
 */
module QueryResponseFilter {
  import opened Prelude
  import opened ControlSequences

  /** ESC [ 2 0 0 ~ */
  predicate IsPasteBegin(s: seq<byte>) {
    |s| == 6 && s[0] == ESC && s[1] == LBRACKET && s[2] == 0x32 && s[3] == 0x30 && s[4] == 0x30 && s[5] == 0x7e
  }

  /** Byte k of the end marker ESC [ 2 0 1 ~ */
  function Marker(k: nat): byte
    requires k < 6
  {
    if k == 0 then ESC else if k == 1 then LBRACKET else if k == 2 then 0x32
    else if k == 3 then 0x30 else if k == 4 then 0x31 else 0x7e
  }

  // ---------- Which control sequences are responses ----------

  predicate ParamsMatch(params: seq<byte>, separators: seq<byte>) {
    && (forall i :: 0 <= i < |params| ==> IsDigit(params[i]) || params[i] in separators)
    && exists i :: 0 <= i < |params| && IsDigit(params[i])
  }

  predicate IsResponse(s: seq<byte>) {
    |s| >= 3 && StartsCsi(s, 0) &&
    var last := s[|s| - 1];
    var params := s[2..|s| - 1];
    var first := if params == [] then 0 else params[0];
    if first == 0x3f && last == 0x75 then ParamsMatch(params[1..], [0x3b, 0x3a])
    else if (first == 0x3f || first == 0x3e) && last == 0x63 then ParamsMatch(params[1..], [0x3b])
    else if first == 0x3f && last == 0x52 then ParamsMatch(params[1..], [0x3b])
    else if last == 0x52 then ParamsMatch(params, [0x3b])
    else false
  }

  // ---------- The stateless tokenizer ----------
  //
  // T is the set of offsets after which a timeout fired before the next byte
  // arrived.

  /** The j bytes before offset n, all at p or later, are the first j bytes of the end marker. */
  predicate MarkerAt(s: seq<byte>, p: nat, n: nat, j: nat)
    requires p <= n <= |s| && j <= 6
    decreases j
  {
    j == 0 || (n > p && s[n - 1] == Marker(j - 1) && MarkerAt(s, p, n - 1, j - 1))
  }

  /** Where a paste begun at p ends: after its first end marker, looked for from n on, or never. */
  function PasteEnd(s: seq<byte>, p: nat, n: nat): (e: nat)
    requires p <= n <= |s|
    ensures n <= e <= |s|
    decreases |s| - n
  {
    if n == |s| || MarkerAt(s, p, n, 6) then n else PasteEnd(s, p, n + 1)
  }

  /** A control sequence, which carries its paste with it when it begins one. */
  function CsiOrPaste(s: seq<byte>, i: nat): (t: Token)
    requires StartsCsi(s, i)
    ensures t.from == i && i < t.to <= |s|
    ensures t.kind == Unfinished ==> t.to == |s|
  {
    var t := CsiToken(s, i);
    if t.kind == Sequence && IsPasteBegin(s[i..t.to]) then Token(Literal, i, PasteEnd(s, t.to, t.to)) else t
  }

  function NextToken(s: seq<byte>, i: nat, T: set<nat>): (t: Token)
    requires i < |s|
    ensures t.from == i && i < t.to <= |s|
    ensures t.kind == Unfinished ==> t.to == |s|
  {
    if s[i] != ESC || i in T then Token(Literal, i, i + 1)
    else if i + 1 == |s| then Token(Unfinished, i, i + 1)
    else if s[i + 1] == LBRACKET then CsiOrPaste(s, i)
    else if s[i + 1] == ESC then Token(Literal, i, i + 1)
    else Token(Literal, i, i + 2)
  }

  function Tokenize(s: seq<byte>, i: nat, T: set<nat>): seq<Token>
    requires i <= |s|
    decreases |s| - i
  {
    if i == |s| then [] else
    var t := NextToken(s, i, T);
    [t] + Tokenize(s, t.to, T)
  }

  /** The tokens cut the stream without loss. */
  lemma {:induction false} TokenizeCuts(s: seq<byte>, i: nat, T: set<nat>)
    requires i <= |s|
    ensures Cuts(Tokenize(s, i, T), i, |s|)
    decreases |s| - i
  {
    if i < |s| {
      var t := NextToken(s, i, T);
      TokenizeCuts(s, t.to, T);
      assert Tokenize(s, i, T)[1..] == Tokenize(s, t.to, T);
    }
  }

  /** Every token that can be judged is a whole control sequence of at most 32 bytes. */
  lemma {:induction false} TokenizeSequences(s: seq<byte>, i: nat, T: set<nat>, t: Token)
    requires i <= |s| && t in Tokenize(s, i, T) && t.kind == Sequence
    ensures CompleteCsi(s, t.from, t.to)
    decreases |s| - i
  {
    var first := NextToken(s, i, T);
    if t == first {
      CsiEndIsFirst(s, i, i + 2);
    } else {
      TokenizeSequences(s, first.to, T, t);
    }
  }

  // ---------- The byte-at-a-time machine ----------

  datatype Mode = Ground | Escape | Csi

  type Match = k: nat | k < 6

  datatype Machine = Machine(mode: Mode, pending: seq<byte>, inPaste: bool, pasteMatch: Match)

  const INIT := Machine(Ground, [], false, 0)
  const ESCAPED := Machine(Escape, [ESC], false, 0)
  const PASTING := Machine(Ground, [], true, 0)

  function InCsi(p: seq<byte>): Machine {
    Machine(Csi, p, false, 0)
  }

  predicate Shaped(m: Machine) {
    && (m.inPaste ==> m.mode == Ground)
    && (!m.inPaste ==> m.pasteMatch == 0)
    && match m.mode
       case Ground => m.pending == []
       case Escape => m.pending == [ESC]
       case Csi => OpenCsi(m.pending, 0, |m.pending|)
  }

  datatype Emit = Emit(m: Machine, out: seq<byte>)

  function Push(pending: seq<byte>, b: byte): (seq<byte>, seq<byte>) {
    if |pending| == MAX_BUFFERED then ([b], pending) else (pending + [b], [])
  }

  /** `track_bracketed_paste_end`. */
  function TrackPasteEnd(m: Machine, b: byte): Machine {
    if b == Marker(m.pasteMatch) then
      if m.pasteMatch == 5 then m.(inPaste := false, pasteMatch := 0)
      else m.(pasteMatch := m.pasteMatch + 1)
    else m.(pasteMatch := if b == Marker(0) then 1 else 0)
  }

  function FeedCsi(m: Machine, b: byte): Emit {
    if b == ESC then Emit(m.(mode := Escape, pending := [ESC]), m.pending)
    else if |m.pending| == MAX_BUFFERED then Emit(m.(mode := Ground, pending := []), m.pending + [b])
    else
      var (pushed, spilled) := Push(m.pending, b);
      if !IsCsiFinal(b) then Emit(m.(pending := pushed), spilled)
      else if IsPasteBegin(pushed) then Emit(Machine(Ground, [], true, 0), spilled + pushed)
      else Emit(m.(mode := Ground, pending := []), spilled + (if IsResponse(pushed) then [] else pushed))
  }

  function FeedEscape(m: Machine, b: byte): Emit {
    var (pushed, spilled) := Push(m.pending, b);
    if b == LBRACKET then Emit(m.(mode := Csi, pending := pushed), spilled)
    else if b == ESC then Emit(m.(mode := Escape, pending := [ESC]), m.pending)
    else Emit(m.(mode := Ground, pending := []), spilled + pushed)
  }

  function Step(m: Machine, b: byte): Emit {
    if m.inPaste then Emit(TrackPasteEnd(m, b), [b])
    else match m.mode
         case Ground => if b == ESC then Emit(m.(mode := Escape, pending := [ESC]), []) else Emit(m, [b])
         case Escape => FeedEscape(m, b)
         case Csi => FeedCsi(m, b)
  }

  /** `flush_timeout`. */
  function Timeout(m: Machine): Emit {
    if m.mode == Escape && |m.pending| == 1 then Emit(m.(mode := Ground, pending := []), m.pending)
    else Emit(m, [])
  }

  function Finish(m: Machine): Emit {
    Emit(INIT, m.pending)
  }

  lemma StepShaped(m: Machine, b: byte)
    requires Shaped(m)
    ensures Shaped(Step(m, b).m) && Shaped(Timeout(Step(m, b).m).m)
  {
  }

  /** The machine calls `push_pending` on this byte. */
  predicate Pushes(m: Machine, b: byte) {
    && !m.inPaste && b != ESC
    && (m.mode == Escape || (m.mode == Csi && |m.pending| != MAX_BUFFERED))
  }

  /** One byte, then a timeout if one fired before the next byte. */
  function StepFlag(m: Machine, b: byte, pause: bool): Emit {
    var e := Step(m, b);
    if pause then
      var t := Timeout(e.m);
      Emit(t.m, e.out + t.out)
    else e
  }

  /** The run over offsets i to j of s, with the timeouts that fire there. */
  function Run(m: Machine, s: seq<byte>, i: nat, j: nat, T: set<nat>): Emit
    requires i <= j <= |s|
    decreases j - i
  {
    if i == j then Emit(m, []) else
    var e := StepFlag(m, s[i], i in T);
    var r := Run(e.m, s, i + 1, j, T);
    Emit(r.m, e.out + r.out)
  }

  lemma {:induction false} RunShaped(m: Machine, s: seq<byte>, i: nat, j: nat, T: set<nat>)
    requires i <= j <= |s| && Shaped(m)
    ensures Shaped(Run(m, s, i, j, T).m)
    decreases j - i
  {
    if i < j {
      StepShaped(m, s[i]);
      RunShaped(StepFlag(m, s[i], i in T).m, s, i + 1, j, T);
    }
  }

  lemma {:induction false} RunSplit(m: Machine, s: seq<byte>, i: nat, k: nat, j: nat, T: set<nat>)
    requires i <= k <= j <= |s|
    ensures var a := Run(m, s, i, k, T);
            var b := Run(a.m, s, k, j, T);
            Run(m, s, i, j, T) == Emit(b.m, a.out + b.out)
    decreases k - i
  {
    if i < k {
      var e := StepFlag(m, s[i], i in T);
      RunSplit(e.m, s, i + 1, k, j, T);
      var a := Run(e.m, s, i + 1, k, T);
      ConcatAssociative(e.out, a.out, Run(a.m, s, k, j, T).out);
    }
  }

  lemma RunSnoc(m: Machine, s: seq<byte>, i: nat, j: nat, T: set<nat>)
    requires i <= j < |s|
    ensures var a := Run(m, s, i, j, T);
            var e := StepFlag(a.m, s[j], j in T);
            Run(m, s, i, j + 1, T) == Emit(e.m, a.out + e.out)
  {
    RunSplit(m, s, i, j, j + 1, T);
    var e := StepFlag(Run(m, s, i, j, T).m, s[j], j in T);
    assert Run(e.m, s, j + 1, j + 1, T) == Emit(e.m, []);
  }

  // ---------- Bracketed paste ----------

  /** k is the length of the longest proper prefix of the end marker that ends at offset n. */
  predicate LongestMatch(s: seq<byte>, p: nat, n: nat, k: Match)
    requires p <= n <= |s|
  {
    MarkerAt(s, p, n, k) && forall j: nat :: k < j <= 6 ==> !MarkerAt(s, p, n, j)
  }

  /** ESC occurs in the marker only at its start, so two nonempty matches have the same length. */
  lemma OneMatch(s: seq<byte>, p: nat, n: nat, k: nat, j: nat)
    requires p <= n <= |s| && 0 < j <= k <= 6
    requires MarkerAt(s, p, n, k) && MarkerAt(s, p, n, j)
    ensures j == k
    decreases j
  {
    if j > 1 {
      OneMatch(s, p, n - 1, k - 1, j - 1);
    }
  }

  /** The counter update keeps the longest match, and reports the end marker exactly when it is complete. */
  lemma TrackLongestMatch(s: seq<byte>, p: nat, n: nat, m: Machine)
    requires p <= n < |s| && LongestMatch(s, p, n, m.pasteMatch) && m.inPaste
    ensures var m' := TrackPasteEnd(m, s[n]);
            && (!m'.inPaste <==> MarkerAt(s, p, n + 1, 6))
            && (m'.inPaste ==> LongestMatch(s, p, n + 1, m'.pasteMatch))
  {
    var k: int := m.pasteMatch;
    var k': nat := if s[n] == Marker(k) then k + 1 else if s[n] == Marker(0) then 1 else 0;
    var n' := n + 1;
    forall j: nat | k' < j <= 6
      ensures !MarkerAt(s, p, n', j)
    {
      if MarkerAt(s, p, n', j) {
        MatchShrinks(s, p, n, k, j);
      }
    }
    assert MarkerAt(s, p, n + 1, k');
  }

  lemma MatchShrinks(s: seq<byte>, p: nat, n: nat, k: nat, j: nat)
    requires p <= n < |s| && k < 6 && 0 < j <= 6 && LongestMatch(s, p, n, k)
    requires MarkerAt(s, p, n + 1, j)
    ensures j == 1 || j == k + 1
    ensures s[n] == Marker(j - 1)
  {
    assert MarkerAt(s, p, n, j - 1);
    if 0 < j - 1 <= k {
      OneMatch(s, p, n, k, j - 1);
    }
  }

  predicate Pasting(m: Machine) {
    m == PASTING.(pasteMatch := m.pasteMatch)
  }

  /**
   * While a paste begun at p goes on, every byte is forwarded, and the counter
   * is always the longest marker prefix that the bytes since p end with.
   */
  lemma {:induction false} PasteInvariant(s: seq<byte>, p: nat, n: nat, T: set<nat>)
    requires p <= n <= |s| && forall j :: p <= j <= n ==> !MarkerAt(s, p, j, 6)
    ensures var r := Run(PASTING, s, p, n, T);
            r.out == s[p..n] && Pasting(r.m) && LongestMatch(s, p, n, r.m.pasteMatch)
    decreases n
  {
    if n > p {
      PasteInvariant(s, p, n - 1, T);
      PasteByte(s, p, n - 1, T);
    }
  }

  lemma PasteByte(s: seq<byte>, p: nat, n: nat, T: set<nat>)
    requires p <= n < |s|
    requires var r := Run(PASTING, s, p, n, T);
             r.out == s[p..n] && Pasting(r.m) && LongestMatch(s, p, n, r.m.pasteMatch)
    ensures var r := Run(PASTING, s, p, n + 1, T);
            && r.out == s[p..n + 1]
            && if MarkerAt(s, p, n + 1, 6) then r.m == INIT
               else Pasting(r.m) && LongestMatch(s, p, n + 1, r.m.pasteMatch)
  {
    var m := Run(PASTING, s, p, n, T).m;
    TrackLongestMatch(s, p, n, m);
    RunSnoc(PASTING, s, p, n, T);
    assert StepFlag(m, s[n], n in T) == Emit(TrackPasteEnd(m, s[n]), [s[n]]);
    SliceSnoc(s, p, n);
  }

  /** Paste mode ends exactly at the first end marker. */
  lemma {:induction false} PasteEnds(s: seq<byte>, p: nat, n: nat, T: set<nat>)
    requires p <= n <= |s| && forall j :: p <= j < n ==> !MarkerAt(s, p, j, 6)
    ensures var e := PasteEnd(s, p, n);
            var r := Run(PASTING, s, p, e, T);
            && r.out == s[p..e]
            && r.m.pending == []
            && (e < |s| ==> r.m == INIT)
    decreases |s| - n
  {
    if MarkerAt(s, p, n, 6) {
      PasteInvariant(s, p, n - 1, T);
      PasteByte(s, p, n - 1, T);
    } else if n == |s| {
      PasteInvariant(s, p, n, T);
    } else {
      PasteEnds(s, p, n + 1, T);
    }
  }

  // ---------- The machine equals the tokenizer ----------

  /** What becomes of a control sequence that has just been ended or has outgrown the buffer. */
  function Judged(q: seq<byte>): Emit {
    if |q| > MAX_BUFFERED then Emit(INIT, q)
    else if IsPasteBegin(q) then Emit(PASTING, q)
    else if IsResponse(q) then Emit(INIT, [])
    else Emit(INIT, q)
  }

  lemma CsiBodyByte(p: seq<byte>, b: byte, pause: bool)
    requires |p| < MAX_BUFFERED && IsCsiBody(b)
    ensures StepFlag(InCsi(p), b, pause) == Emit(InCsi(p + [b]), [])
  {
  }

  lemma CsiLastByte(p: seq<byte>, b: byte, pause: bool)
    requires |p| <= MAX_BUFFERED && b != ESC && (|p| < MAX_BUFFERED ==> IsCsiFinal(b))
    ensures StepFlag(InCsi(p), b, pause) == Judged(p + [b])
  {
    var e := Step(InCsi(p), b);
    assert e == Judged(p + [b]);
    assert Timeout(e.m) == Emit(e.m, []);
    assert e.out + [] == e.out;
  }

  lemma {:induction false} RunCsiBody(s: seq<byte>, i: nat, j: nat, T: set<nat>)
    requires OpenCsi(s, i, j) && i !in T
    ensures Run(INIT, s, i, j, T) == Emit(InCsi(s[i..j]), [])
    decreases j
  {
    if j == i + 2 {
      RunSnoc(INIT, s, i, i, T);
      RunSnoc(INIT, s, i, i + 1, T);
      assert s[i..i + 2] == [ESC, LBRACKET];
    } else {
      RunCsiBody(s, i, j - 1, T);
      RunOpenThen(s, i, j - 1, T);
      CsiBodyByte(s[i..j - 1], s[j - 1], j - 1 in T);
      SliceSnoc(s, i, j - 1);
    }
  }

  /** The byte at j that ends an open control sequence. */
  lemma RunCsiEnd(s: seq<byte>, i: nat, j: nat, T: set<nat>)
    requires OpenCsi(s, i, j) && i !in T && j < |s| && s[j] != ESC && (j - i < MAX_BUFFERED ==> IsCsiFinal(s[j]))
    ensures Run(INIT, s, i, j + 1, T) == Judged(s[i..j + 1])
  {
    RunCsiBody(s, i, j, T);
    RunOpenThen(s, i, j, T);
    CsiLastByte(s[i..j], s[j], j in T);
    SliceSnoc(s, i, j);
  }

  lemma RunOpenThen(s: seq<byte>, i: nat, j: nat, T: set<nat>)
    requires i <= j < |s| && Run(INIT, s, i, j, T) == Emit(InCsi(s[i..j]), [])
    ensures Run(INIT, s, i, j + 1, T) == StepFlag(InCsi(s[i..j]), s[j], j in T)
  {
    RunSnoc(INIT, s, i, j, T);
    var e := StepFlag(InCsi(s[i..j]), s[j], j in T);
    assert [] + e.out == e.out;
  }

  /** An ESC releases whatever is pending and then acts as it does on its own. */
  lemma EscByte(m: Machine, pause: bool)
    requires (m.mode == Csi || m.mode == Escape) && !m.inPaste && m.pasteMatch == 0
    ensures StepFlag(m, ESC, pause).m == StepFlag(INIT, ESC, pause).m
    ensures StepFlag(m, ESC, pause).out == m.pending + StepFlag(INIT, ESC, pause).out
  {
  }

  lemma RunInterrupted(m: Machine, s: seq<byte>, i: nat, T: set<nat>)
    requires i < |s| && s[i] == ESC
    requires (m.mode == Csi || m.mode == Escape) && !m.inPaste && m.pasteMatch == 0
    ensures Run(m, s, i, |s|, T).m == Run(INIT, s, i, |s|, T).m
    ensures Run(m, s, i, |s|, T).out == m.pending + Run(INIT, s, i, |s|, T).out
  {
    EscByte(m, i in T);
    SameStep(m, INIT, m.pending, s, i, T);
  }

  lemma SameStep(m: Machine, m': Machine, p: seq<byte>, s: seq<byte>, i: nat, T: set<nat>)
    requires i < |s|
    requires StepFlag(m, s[i], i in T).m == StepFlag(m', s[i], i in T).m
    requires StepFlag(m, s[i], i in T).out == p + StepFlag(m', s[i], i in T).out
    ensures Run(m, s, i, |s|, T).m == Run(m', s, i, |s|, T).m
    ensures Run(m, s, i, |s|, T).out == p + Run(m', s, i, |s|, T).out
  {
    var e := StepFlag(m', s[i], i in T);
    var r := Run(e.m, s, i + 1, |s|, T);
    ConcatAssociative(p, e.out, r.out);
  }

  /** From i on the run emits `out` up to j and then goes on as if started afresh. */
  predicate RunsAs(s: seq<byte>, i: nat, j: nat, T: set<nat>, out: seq<byte>)
    requires i <= j <= |s|
  {
    && Run(INIT, s, i, |s|, T).out == out + Run(INIT, s, j, |s|, T).out
    && Run(INIT, s, i, |s|, T).m.pending == Run(INIT, s, j, |s|, T).m.pending
  }

  lemma RunCsiOpen(s: seq<byte>, i: nat, j: nat, T: set<nat>)
    requires OpenCsi(s, i, j) && i !in T && (j == |s| || s[j] == ESC)
    ensures if j == |s| then Run(INIT, s, i, |s|, T) == Emit(InCsi(s[i..j]), [])
            else RunsAs(s, i, j, T, s[i..j])
  {
    RunCsiBody(s, i, j, T);
    if j < |s| {
      RunSplit(INIT, s, i, j, |s|, T);
      RunInterrupted(InCsi(s[i..j]), s, j, T);
    }
  }

  lemma RunCsiClosed(s: seq<byte>, i: nat, j: nat, T: set<nat>)
    requires OpenCsi(s, i, j) && i !in T && j < |s| && s[j] != ESC && (j - i < MAX_BUFFERED ==> IsCsiFinal(s[j]))
    requires !(j - i < MAX_BUFFERED && IsPasteBegin(s[i..j + 1]))
    ensures RunsAs(s, i, j + 1, T, if j - i < MAX_BUFFERED && IsResponse(s[i..j + 1]) then [] else s[i..j + 1])
  {
    RunCsiEnd(s, i, j, T);
    RunSplit(INIT, s, i, j + 1, |s|, T);
  }

  lemma RunPaste(s: seq<byte>, i: nat, j: nat, T: set<nat>)
    requires OpenCsi(s, i, j) && i !in T && j < |s| && IsCsiFinal(s[j]) && IsPasteBegin(s[i..j + 1])
    ensures var e := PasteEnd(s, j + 1, j + 1);
            RunsAs(s, i, e, T, s[i..e])
  {
    RunCsiEnd(s, i, j, T);
    RunPasted(s, i, j + 1, T);
  }

  lemma RunPasted(s: seq<byte>, i: nat, p: nat, T: set<nat>)
    requires i <= p <= |s| && Run(INIT, s, i, p, T) == Emit(PASTING, s[i..p])
    ensures var e := PasteEnd(s, p, p);
            RunsAs(s, i, e, T, s[i..e])
  {
    var e := PasteEnd(s, p, p);
    PasteEnds(s, p, p, T);
    RunSplit(INIT, s, i, p, e, T);
    assert s[i..e] == s[i..p] + s[p..e];
    RunSplit(INIT, s, i, e, |s|, T);
  }

  /** The pending ESC is released by a second ESC, or with the byte it precedes. */
  lemma RunEscaped(s: seq<byte>, i: nat, T: set<nat>)
    requires i + 2 <= |s| && s[i] == ESC && i !in T && s[i + 1] != LBRACKET
    ensures var j := if s[i + 1] == ESC then i + 1 else i + 2;
            RunsAs(s, i, j, T, s[i..j])
  {
    assert StepFlag(INIT, s[i], i in T) == Emit(ESCAPED, []);
    if s[i + 1] == ESC {
      RunInterrupted(ESCAPED, s, i + 1, T);
      assert s[i..i + 1] == [ESC];
    } else {
      var e := StepFlag(ESCAPED, s[i + 1], i + 1 in T);
      assert e.m == INIT && e.out == [ESC, s[i + 1]];
      assert s[i..i + 2] == [ESC, s[i + 1]];
    }
  }

  /** From i on the run treats token t as the tokenizer says. */
  predicate RunsToken(s: seq<byte>, i: nat, T: set<nat>, t: Token)
    requires i < t.to <= |s|
  {
    if t.kind == Unfinished then Run(INIT, s, i, |s|, T).out == [] && Run(INIT, s, i, |s|, T).m.pending == s[i..t.to]
    else RunsAs(s, i, t.to, T, if t.kind == Sequence && IsResponse(s[i..t.to]) then [] else s[i..t.to])
  }

  lemma RunNextToken(s: seq<byte>, i: nat, T: set<nat>)
    requires i < |s|
    ensures RunsToken(s, i, T, NextToken(s, i, T))
  {
    if s[i] != ESC || i in T || i + 1 == |s| {
      RunLoneByte(s, i, T);
    } else if s[i + 1] == LBRACKET {
      RunCsiHead(s, i, T);
    } else {
      RunEscaped(s, i, T);
    }
  }

  lemma RunLoneByte(s: seq<byte>, i: nat, T: set<nat>)
    requires i < |s| && (s[i] != ESC || i in T || i + 1 == |s|)
    ensures RunsToken(s, i, T, NextToken(s, i, T))
  {
    var e := StepFlag(INIT, s[i], i in T);
    assert s[i..i + 1] == [s[i]];
  }

  lemma RunCsiHead(s: seq<byte>, i: nat, T: set<nat>)
    requires StartsCsi(s, i) && i !in T
    ensures RunsToken(s, i, T, CsiOrPaste(s, i))
  {
    var n := CsiEnd(s, i, i + 2);
    CsiEndIsFirst(s, i, i + 2);
    if n == |s| || s[n] == ESC {
      RunCsiOpen(s, i, n, T);
    } else if n - i < MAX_BUFFERED && IsPasteBegin(s[i..n + 1]) {
      RunPaste(s, i, n, T);
    } else {
      RunCsiClosed(s, i, n, T);
    }
  }

  lemma {:induction false} RunIsTokenizer(s: seq<byte>, i: nat, T: set<nat>)
    requires i <= |s|
    ensures Run(INIT, s, i, |s|, T).out == Kept(s, Tokenize(s, i, T), IsResponse)
    ensures Run(INIT, s, i, |s|, T).m.pending == Held(s, Tokenize(s, i, T))
    decreases |s| - i
  {
    if i < |s| {
      var t := NextToken(s, i, T);
      RunNextToken(s, i, T);
      assert Tokenize(s, i, T)[1..] == Tokenize(s, t.to, T);
      if t.kind != Unfinished {
        RunIsTokenizer(s, t.to, T);
      }
    }
  }

  // ---------- Whole runs ----------

  datatype Event = Feed(bytes: seq<byte>) | FlushTimeout | FinishStream

  function Apply(m: Machine, ev: Event): Emit {
    match ev
    case Feed(bytes) => Run(m, bytes, 0, |bytes|, {})
    case FlushTimeout => Timeout(m)
    case FinishStream => Finish(m)
  }

  /** The machine and everything it has emitted after a run of calls. */
  function RunEvents(evs: seq<Event>): Emit {
    if evs == [] then Emit(INIT, []) else
    var before := RunEvents(evs[..|evs| - 1]);
    var e := Apply(before.m, evs[|evs| - 1]);
    Emit(e.m, before.out + e.out)
  }

  /**
   * The same run as data: what the streams ended by `finish` have become, then
   * the bytes s fed since and the offsets T after which a timeout fired.
   */
  datatype History = History(done: seq<byte>, s: seq<byte>, T: set<nat>)

  function Filtered(h: History): seq<byte> {
    Kept(h.s, Tokenize(h.s, 0, h.T), IsResponse)
  }

  function Waiting(h: History): seq<byte> {
    Held(h.s, Tokenize(h.s, 0, h.T))
  }

  function HistoryOf(evs: seq<Event>): History {
    if evs == [] then History([], [], {}) else
    var h := HistoryOf(evs[..|evs| - 1]);
    match evs[|evs| - 1]
    case Feed(bytes) => h.(s := h.s + bytes)
    case FlushTimeout => if h.s == [] then h else h.(T := h.T + {|h.s| - 1})
    case FinishStream => History(h.done + Filtered(h) + Waiting(h), [], {})
  }

  ghost predicate Below(T: set<nat>, n: nat) {
    forall k :: k in T ==> k < n
  }

  lemma {:induction false} RunPrefix(m: Machine, s: seq<byte>, b: seq<byte>, i: nat, j: nat, T: set<nat>)
    requires i <= j <= |s|
    ensures Run(m, s + b, i, j, T) == Run(m, s, i, j, T)
    decreases j - i
  {
    if i < j {
      RunPrefix(StepFlag(m, s[i], i in T).m, s, b, i + 1, j, T);
    }
  }

  lemma {:induction false} RunShift(m: Machine, s: seq<byte>, b: seq<byte>, i: nat, T: set<nat>)
    requires i <= |b| && Below(T, |s|)
    ensures Run(m, s + b, |s| + i, |s| + |b|, T) == Run(m, b, i, |b|, {})
    decreases |b| - i
  {
    if i < |b| {
      assert (s + b)[|s| + i] == b[i];
      assert |s| + i !in T;
      RunShift(Step(m, b[i]).m, s, b, i + 1, T);
    }
  }

  lemma {:induction false} RunSameTimeouts(m: Machine, s: seq<byte>, i: nat, j: nat, T: set<nat>, k: nat)
    requires i <= j <= k && j <= |s|
    ensures Run(m, s, i, j, T + {k}) == Run(m, s, i, j, T)
    decreases j - i
  {
    if i < j {
      RunSameTimeouts(StepFlag(m, s[i], i in T).m, s, i + 1, j, T, k);
    }
  }

  lemma FeedExtends(s: seq<byte>, b: seq<byte>, T: set<nat>)
    requires Below(T, |s|)
    ensures var r := Run(INIT, s, 0, |s|, T);
            var e := Run(r.m, b, 0, |b|, {});
            Run(INIT, s + b, 0, |s + b|, T) == Emit(e.m, r.out + e.out)
  {
    RunSplit(INIT, s + b, 0, |s|, |s + b|, T);
    RunPrefix(INIT, s, b, 0, |s|, T);
    RunShift(Run(INIT, s, 0, |s|, T).m, s, b, 0, T);
  }

  /** A timeout with nothing fed since the last one changes nothing. */
  lemma TimeoutAgain(m: Machine, b: byte, pause: bool)
    ensures var e := StepFlag(m, b, pause);
            var t := Timeout(e.m);
            StepFlag(m, b, true) == Emit(t.m, e.out + t.out)
  {
    var t := Timeout(Step(m, b).m);
    assert Timeout(t.m) == Emit(t.m, []);
    assert (Step(m, b).out + t.out) + [] == Step(m, b).out + t.out;
  }

  lemma TimeoutExtends(s: seq<byte>, T: set<nat>)
    requires s != []
    ensures var r := Run(INIT, s, 0, |s|, T);
            var t := Timeout(r.m);
            Run(INIT, s, 0, |s|, T + {|s| - 1}) == Emit(t.m, r.out + t.out)
  {
    var n := |s| - 1;
    RunSnoc(INIT, s, 0, n, T);
    RunSnoc(INIT, s, 0, n, T + {n});
    RunSameTimeouts(INIT, s, 0, n, T, n);
    var a := Run(INIT, s, 0, n, T);
    TimeoutAgain(a.m, s[n], n in T);
    var e := StepFlag(a.m, s[n], n in T);
    var t := Timeout(e.m);
    assert a.out + (e.out + t.out) == (a.out + e.out) + t.out;
  }

  lemma {:induction false} RunOfHistory(evs: seq<Event>)
    ensures var h, e := HistoryOf(evs), RunEvents(evs);
            var r := Run(INIT, h.s, 0, |h.s|, h.T);
            Below(h.T, |h.s|) && e.m == r.m && e.out == h.done + r.out
    decreases |evs|
  {
    if evs != [] {
      var before := evs[..|evs| - 1];
      RunOfHistory(before);
      var h := HistoryOf(before);
      var r := Run(INIT, h.s, 0, |h.s|, h.T);
      var e := Apply(r.m, evs[|evs| - 1]);
      assert (h.done + r.out) + e.out == h.done + (r.out + e.out);
      match evs[|evs| - 1]
      case Feed(bytes) => FeedExtends(h.s, bytes, h.T);
      case FlushTimeout => if h.s != [] { TimeoutExtends(h.s, h.T); }
      case FinishStream => RunIsTokenizer(h.s, 0, h.T);
    }
  }

  /**
   * Over any run of feed, flush_timeout and finish with any chunking, what has
   * been emitted is the input with exactly the tokenizer's response sequences
   * deleted, and what is buffered is the unfinished last token.
   */
  lemma FilterMeaning(evs: seq<Event>)
    ensures var h, e := HistoryOf(evs), RunEvents(evs);
            && e.out == h.done + Filtered(h)
            && e.m.pending == Waiting(h)
            && Cuts(Tokenize(h.s, 0, h.T), 0, |h.s|)
  {
    var h := HistoryOf(evs);
    RunOfHistory(evs);
    RunIsTokenizer(h.s, 0, h.T);
    TokenizeCuts(h.s, 0, h.T);
  }

  /** In every reachable state the buffer has the shape of its mode, and `push_pending` finds room. */
  lemma ReachableShaped(evs: seq<Event>, b: byte)
    ensures Shaped(RunEvents(evs).m)
    ensures Pushes(RunEvents(evs).m, b) ==> |RunEvents(evs).m.pending| < MAX_BUFFERED
  {
    var h := HistoryOf(evs);
    RunOfHistory(evs);
    RunShaped(INIT, h.s, 0, |h.s|, h.T);
  }

  // ---------- The object of the original ----------

  method ResponseParamsMatch(params: seq<byte>, separators: seq<byte>) returns (r: bool)
    ensures r == ParamsMatch(params, separators)
  {
    var sawDigit := false;
    for i := 0 to |params|
      invariant forall k :: 0 <= k < i ==> IsDigit(params[k]) || params[k] in separators
      invariant sawDigit <==> exists k :: 0 <= k < i && IsDigit(params[k])
    {
      if IsDigit(params[i]) {
        sawDigit := true;
      } else if params[i] !in separators {
        return false;
      }
    }
    return sawDigit;
  }

  method JudgeResponse(s: seq<byte>) returns (r: bool)
    ensures r == IsResponse(s)
  {
    if |s| < 3 || s[0] != ESC || s[1] != LBRACKET {
      return false;
    }
    var last, params := s[|s| - 1], s[2..|s| - 1];
    var first := if params == [] then 0 else params[0];
    if first == 0x3f && last == 0x75 {
      r := ResponseParamsMatch(params[1..], [0x3b, 0x3a]);
    } else if ((first == 0x3f || first == 0x3e) && last == 0x63) || (first == 0x3f && last == 0x52) {
      r := ResponseParamsMatch(params[1..], [0x3b]);
    } else if last == 0x52 {
      r := ResponseParamsMatch(params, [0x3b]);
    } else {
      r := false;
    }
  }

  class Filter {
    var mode: Mode
    const pending: array<byte>
    var pendingLen: nat
    var inPaste: bool
    var pasteMatch: Match

    ghost predicate Valid()
      reads this, pending
    {
      pending.Length == MAX_BUFFERED && pendingLen <= MAX_BUFFERED && Shaped(State())
    }

    ghost function State(): Machine
      requires pendingLen <= pending.Length
      reads this, pending
    {
      Machine(mode, pending[..pendingLen], inPaste, pasteMatch)
    }

    constructor ()
      ensures Valid() && State() == INIT && fresh(pending)
    {
      mode := Ground;
      pending := new byte[MAX_BUFFERED];
      pendingLen := 0;
      inPaste := false;
      pasteMatch := 0;
    }

    method FeedBytes(bytes: seq<byte>) returns (out: seq<byte>)
      requires Valid()
      modifies this, pending
      ensures Valid() && Emit(State(), out) == Apply(old(State()), Feed(bytes))
    {
      out := [];
      ghost var m0 := State();
      for i := 0 to |bytes|
        invariant Valid()
        invariant Emit(State(), out) == Run(m0, bytes, 0, i, {})
      {
        RunSnoc(m0, bytes, 0, i, {});
        var emitted := FeedByte(bytes[i]);
        out := out + emitted;
      }
    }

    method FlushAfterTimeout() returns (out: seq<byte>)
      requires Valid()
      modifies this
      ensures Valid() && Emit(State(), out) == Apply(old(State()), FlushTimeout)
    {
      if mode == Escape && pendingLen == 1 {
        out := FlushPending();
        mode := Ground;
      } else {
        out := [];
      }
    }

    method FinishInput() returns (out: seq<byte>)
      requires Valid()
      modifies this
      ensures Valid() && Emit(State(), out) == Apply(old(State()), FinishStream)
    {
      out := FlushPending();
      mode := Ground;
      inPaste := false;
      pasteMatch := 0;
    }

    method FeedByte(b: byte) returns (out: seq<byte>)
      requires Valid()
      modifies this, pending
      ensures Valid() && Emit(State(), out) == Step(old(State()), b)
    {
      StepShaped(State(), b);
      if inPaste {
        out := [b];
        TrackBracketedPasteEnd(b);
        return;
      }
      match mode {
        case Ground =>
          if b == ESC {
            StartPendingEscape();
            out := [];
          } else {
            out := [b];
          }
        case Escape => out := FeedAfterEscape(b);
        case Csi => out := FeedInCsi(b);
      }
    }

    method FeedAfterEscape(b: byte) returns (out: seq<byte>)
      requires Valid() && mode == Escape
      modifies this, pending
      ensures pendingLen <= MAX_BUFFERED && Emit(State(), out) == FeedEscape(old(State()), b)
    {
      if b == LBRACKET {
        out := PushPending(b);
        mode := Csi;
      } else if b == ESC {
        out := FlushPending();
        StartPendingEscape();
      } else {
        var spilled := PushPending(b);
        var flushed := FlushPending();
        out := spilled + flushed;
        mode := Ground;
      }
    }

    method FeedInCsi(b: byte) returns (out: seq<byte>)
      requires Valid() && mode == Csi
      modifies this, pending
      ensures pendingLen <= MAX_BUFFERED && Emit(State(), out) == FeedCsi(old(State()), b)
    {
      if b == ESC {
        out := FlushPending();
        StartPendingEscape();
      } else if pendingLen == MAX_BUFFERED {
        var flushed := FlushPending();
        out := flushed + [b];
        mode := Ground;
      } else {
        out := PushPending(b);
        if IsCsiFinal(b) {
          var flushed := EndCsi();
          out := out + flushed;
        }
      }
    }

    method EndCsi() returns (out: seq<byte>)
      requires pendingLen <= pending.Length
      modifies this
      ensures pendingLen == 0 && mode == Ground
      ensures var p := old(pending[..pendingLen]);
              && out == (if !IsPasteBegin(p) && IsResponse(p) then [] else p)
              && inPaste == (old(inPaste) || IsPasteBegin(p))
              && pasteMatch == (if IsPasteBegin(p) then 0 else old(pasteMatch))
    {
      if IsPasteBegin(pending[..pendingLen]) {
        out := FlushPending();
        inPaste := true;
        pasteMatch := 0;
      } else {
        var response := JudgeResponse(pending[..pendingLen]);
        if response {
          pendingLen := 0;
          out := [];
        } else {
          out := FlushPending();
        }
      }
      mode := Ground;
    }

    method StartPendingEscape()
      requires pending.Length == MAX_BUFFERED
      modifies this`mode, this`pendingLen, pending
      ensures pendingLen == 1 && mode == Escape && pending[..1] == [ESC]
    {
      pending[0] := ESC;
      pendingLen := 1;
      mode := Escape;
    }

    method PushPending(b: byte) returns (out: seq<byte>)
      requires pending.Length == MAX_BUFFERED && pendingLen <= MAX_BUFFERED
      modifies this`pendingLen, pending
      ensures pendingLen <= MAX_BUFFERED
      ensures (pending[..pendingLen], out) == Push(old(pending[..pendingLen]), b)
    {
      ghost var before := pending[..pendingLen];
      out := [];
      if pendingLen == MAX_BUFFERED {
        out := FlushPending();
      }
      pending[pendingLen] := b;
      pendingLen := pendingLen + 1;
      assert pending[..pendingLen] == (if |before| == MAX_BUFFERED then [b] else before + [b]);
    }

    method FlushPending() returns (out: seq<byte>)
      requires pendingLen <= pending.Length
      modifies this`pendingLen
      ensures pendingLen == 0 && out == old(pending[..pendingLen])
    {
      out := pending[..pendingLen];
      pendingLen := 0;
    }

    method TrackBracketedPasteEnd(b: byte)
      requires pendingLen <= pending.Length
      modifies this`inPaste, this`pasteMatch
      ensures State() == TrackPasteEnd(old(State()), b)
    {
      if b == Marker(pasteMatch) {
        if pasteMatch == 5 {
          inPaste := false;
          pasteMatch := 0;
        } else {
          pasteMatch := pasteMatch + 1;
        }
        return;
      }
      pasteMatch := if b == Marker(0) then 1 else 0;
    }
  }
}
