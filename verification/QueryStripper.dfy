/**
 * The filter on terminal output that deletes capability queries. A class works
 * byte by byte with a 32-byte buffer; it is proved equal, for every stream and
 * every chunking, to a tokenizer of the whole stream.
 */
module QueryStripper {
  import opened Prelude
  import opened ControlSequences

  const BEL: byte := 0x07
  const BACKSLASH: byte := 0x5c
  const RBRACKET: byte := 0x5d
  const UPPER_P: byte := 0x50

  // ---------- Which control sequences are queries ----------

  predicate IsKittyNumericQuery(s: seq<byte>, marker: byte) {
    && |s| > 4
    && s[..3] == [ESC, LBRACKET, marker]
    && s[|s| - 1] == 0x75
    && forall i :: 3 <= i < |s| - 1 ==> IsDigit(s[i]) || s[i] == 0x3b
  }

  predicate IsQuery(s: seq<byte>) {
    || s == [ESC, LBRACKET, 0x63]
    || s == [ESC, LBRACKET, 0x3e, 0x63]
    || s == [ESC, LBRACKET, 0x36, 0x6e]
    || s == [ESC, LBRACKET, 0x3f, 0x75]
    || s == [ESC, LBRACKET, 0x3c, 0x75]
    || IsKittyNumericQuery(s, 0x3e)
    || IsKittyNumericQuery(s, 0x3d)
  }

  // ---------- The stateless tokenizer ----------

  /** The string whose body begins at p ends with byte i: BEL (OSC only), or a backslash right after an ESC of the body. */
  predicate StringEndsAt(s: seq<byte>, p: nat, i: nat, osc: bool)
    requires p <= i < |s|
  {
    (osc && s[i] == BEL) || (i > p && s[i - 1] == ESC && s[i] == BACKSLASH)
  }

  /** Where a string whose body begins at p ends: after its first terminator, looked for from i on, or never. */
  function StringEnd(s: seq<byte>, p: nat, i: nat, osc: bool): (n: nat)
    requires p <= i <= |s|
    ensures i <= n <= |s|
    decreases |s| - i
  {
    if i == |s| then i
    else if StringEndsAt(s, p, i, osc) then i + 1
    else StringEnd(s, p, i + 1, osc)
  }

  function NextToken(s: seq<byte>, i: nat): (t: Token)
    requires i < |s|
    ensures t.from == i && i < t.to <= |s|
    ensures t.kind == Unfinished ==> t.to == |s|
  {
    if s[i] != ESC then Token(Literal, i, i + 1)
    else if i + 1 == |s| then Token(Unfinished, i, i + 1)
    else if s[i + 1] == LBRACKET then CsiToken(s, i)
    else if s[i + 1] == RBRACKET || s[i + 1] == UPPER_P then
      Token(Literal, i, StringEnd(s, i + 2, i + 2, s[i + 1] == RBRACKET))
    else if s[i + 1] == ESC then Token(Literal, i, i + 1)
    else Token(Literal, i, i + 2)
  }

  function Tokenize(s: seq<byte>, i: nat): seq<Token>
    requires i <= |s|
    decreases |s| - i
  {
    if i == |s| then [] else
    var t := NextToken(s, i);
    [t] + Tokenize(s, t.to)
  }

  /** The tokens cut the stream without loss. */
  lemma {:induction false} TokenizeCuts(s: seq<byte>, i: nat)
    requires i <= |s|
    ensures Cuts(Tokenize(s, i), i, |s|)
    decreases |s| - i
  {
    if i < |s| {
      var t := NextToken(s, i);
      TokenizeCuts(s, t.to);
      assert Tokenize(s, i)[1..] == Tokenize(s, t.to);
    }
  }

  /** Every token that can be judged is a whole control sequence of at most 32 bytes. */
  lemma {:induction false} TokenizeSequences(s: seq<byte>, i: nat, t: Token)
    requires i <= |s| && t in Tokenize(s, i) && t.kind == Sequence
    ensures CompleteCsi(s, t.from, t.to)
    decreases |s| - i
  {
    var first := NextToken(s, i);
    if t == first {
      CsiEndIsFirst(s, i, i + 2);
    } else {
      TokenizeSequences(s, first.to, t);
    }
  }

  // ---------- The byte-at-a-time machine ----------

  datatype Mode = Ground | EscapeIntermediate | CsiParam | OscString | DcsString

  datatype Machine = Machine(mode: Mode, pending: seq<byte>, stringEscape: bool)

  const INIT := Machine(Ground, [], false)

  /** The buffer shape that each mode allows. */
  predicate Shaped(m: Machine) {
    match m.mode
    case Ground => m.pending == [] && !m.stringEscape
    case EscapeIntermediate => m.pending == [ESC] && !m.stringEscape
    case CsiParam => OpenCsi(m.pending, 0, |m.pending|) && !m.stringEscape
    case OscString => m.pending == []
    case DcsString => m.pending == []
  }

  datatype Emit = Emit(m: Machine, out: seq<byte>)

  function Push(pending: seq<byte>, b: byte): (seq<byte>, seq<byte>) {
    if |pending| == MAX_BUFFERED then ([b], pending) else (pending + [b], [])
  }

  function FeedEscape(m: Machine, b: byte): Emit {
    var (pushed, spilled) := Push(m.pending, b);
    if b == LBRACKET then Emit(m.(mode := CsiParam, pending := pushed), spilled)
    else if b == RBRACKET then Emit(Machine(OscString, [], false), spilled + pushed)
    else if b == UPPER_P then Emit(Machine(DcsString, [], false), spilled + pushed)
    else if b == ESC then Emit(m.(mode := EscapeIntermediate, pending := [ESC]), m.pending)
    else Emit(m.(mode := Ground, pending := []), spilled + pushed)
  }

  function FeedCsi(m: Machine, b: byte): Emit {
    if b == ESC then Emit(m.(mode := EscapeIntermediate, pending := [ESC]), m.pending)
    else if |m.pending| == MAX_BUFFERED then Emit(m.(mode := Ground, pending := []), m.pending + [b])
    else
      var (pushed, spilled) := Push(m.pending, b);
      if !IsCsiFinal(b) then Emit(m.(pending := pushed), spilled)
      else Emit(m.(mode := Ground, pending := []), spilled + (if IsQuery(pushed) then [] else pushed))
  }

  function FeedString(m: Machine, b: byte, osc: bool): Emit {
    if (osc && b == BEL) || (m.stringEscape && b == BACKSLASH)
    then Emit(m.(mode := Ground, stringEscape := false), [b])
    else Emit(m.(stringEscape := b == ESC), [b])
  }

  function Step(m: Machine, b: byte): Emit {
    match m.mode
    case Ground => if b == ESC then Emit(m.(mode := EscapeIntermediate, pending := [ESC]), []) else Emit(m, [b])
    case EscapeIntermediate => FeedEscape(m, b)
    case CsiParam => FeedCsi(m, b)
    case OscString => FeedString(m, b, true)
    case DcsString => FeedString(m, b, false)
  }

  /** The run over offsets i to j of s. */
  function Run(m: Machine, s: seq<byte>, i: nat, j: nat): Emit
    requires i <= j <= |s|
    decreases j - i
  {
    if i == j then Emit(m, []) else
    var e := Step(m, s[i]);
    var r := Run(e.m, s, i + 1, j);
    Emit(r.m, e.out + r.out)
  }

  lemma {:induction false} RunSplit(m: Machine, s: seq<byte>, i: nat, k: nat, j: nat)
    requires i <= k <= j <= |s|
    ensures var a := Run(m, s, i, k);
            var b := Run(a.m, s, k, j);
            Run(m, s, i, j) == Emit(b.m, a.out + b.out)
    decreases k - i
  {
    if i < k {
      var e := Step(m, s[i]);
      RunSplit(e.m, s, i + 1, k, j);
      var a := Run(e.m, s, i + 1, k);
      ConcatAssociative(e.out, a.out, Run(a.m, s, k, j).out);
    }
  }

  lemma RunSnoc(m: Machine, s: seq<byte>, i: nat, j: nat)
    requires i <= j < |s|
    ensures var a := Run(m, s, i, j);
            var e := Step(a.m, s[j]);
            Run(m, s, i, j + 1) == Emit(e.m, a.out + e.out)
  {
    RunSplit(m, s, i, j, j + 1);
    var e := Step(Run(m, s, i, j).m, s[j]);
    assert Run(e.m, s, j + 1, j + 1) == Emit(e.m, []);
  }

  /** Every step keeps the buffer in the shape of its mode. */
  lemma StepShaped(m: Machine, b: byte)
    requires Shaped(m)
    ensures Shaped(Step(m, b).m)
  {
  }

  /** The machine calls `push_pending` on this byte. */
  predicate Pushes(m: Machine, b: byte) {
    || (m.mode == EscapeIntermediate && b != ESC)
    || (m.mode == CsiParam && b != ESC && |m.pending| != MAX_BUFFERED)
  }

  lemma {:induction false} RunShaped(m: Machine, s: seq<byte>, i: nat, j: nat)
    requires i <= j <= |s| && Shaped(m)
    ensures Shaped(Run(m, s, i, j).m)
    decreases j - i
  {
    if i < j {
      StepShaped(m, s[i]);
      RunShaped(Step(m, s[i]).m, s, i + 1, j);
    }
  }

  // ---------- The machine equals the tokenizer ----------

  function InCsi(p: seq<byte>): Machine {
    Machine(CsiParam, p, false)
  }

  const ESCAPED := Machine(EscapeIntermediate, [ESC], false)

  /** What becomes of a control sequence that has just been ended or has outgrown the buffer. */
  function Judged(q: seq<byte>): Emit {
    Emit(INIT, if |q| <= MAX_BUFFERED && IsQuery(q) then [] else q)
  }

  lemma CsiLastByte(p: seq<byte>, b: byte)
    requires |p| <= MAX_BUFFERED && b != ESC && (|p| < MAX_BUFFERED ==> IsCsiFinal(b))
    ensures Step(InCsi(p), b) == Judged(p + [b])
  {
  }

  lemma RunOpenThen(s: seq<byte>, i: nat, j: nat)
    requires i <= j < |s| && Run(INIT, s, i, j) == Emit(InCsi(s[i..j]), [])
    ensures Run(INIT, s, i, j + 1) == Step(InCsi(s[i..j]), s[j])
  {
    RunSnoc(INIT, s, i, j);
    var e := Step(InCsi(s[i..j]), s[j]);
    assert [] + e.out == e.out;
  }

  /** Inside a control sequence the machine only buffers. */
  lemma {:induction false} RunCsiBody(s: seq<byte>, i: nat, j: nat)
    requires OpenCsi(s, i, j)
    ensures Run(INIT, s, i, j) == Emit(InCsi(s[i..j]), [])
    decreases j
  {
    if j == i + 2 {
      RunSnoc(INIT, s, i, i);
      RunSnoc(INIT, s, i, i + 1);
      assert s[i..i + 2] == [ESC, LBRACKET];
    } else {
      RunCsiBody(s, i, j - 1);
      RunOpenThen(s, i, j - 1);
      SliceSnoc(s, i, j - 1);
    }
  }

  /** Whatever is pending is released when an ESC arrives. */
  lemma RunInterrupted(m: Machine, s: seq<byte>, i: nat)
    requires i < |s| && s[i] == ESC
    requires (m.mode == CsiParam || m.mode == EscapeIntermediate) && !m.stringEscape
    ensures Run(m, s, i, |s|).m == Run(INIT, s, i, |s|).m
    ensures Run(m, s, i, |s|).out == m.pending + Run(INIT, s, i, |s|).out
  {
    EscByte(m);
    SameStep(m, INIT, m.pending, s, i);
  }

  lemma EscByte(m: Machine)
    requires (m.mode == CsiParam || m.mode == EscapeIntermediate) && !m.stringEscape
    ensures Step(m, ESC) == Emit(ESCAPED, m.pending)
    ensures Step(INIT, ESC) == Emit(ESCAPED, [])
  {
  }

  lemma SameStep(m: Machine, m': Machine, p: seq<byte>, s: seq<byte>, i: nat)
    requires i < |s| && Step(m, s[i]).m == Step(m', s[i]).m
    requires Step(m, s[i]).out == p + Step(m', s[i]).out
    ensures Run(m, s, i, |s|).m == Run(m', s, i, |s|).m
    ensures Run(m, s, i, |s|).out == p + Run(m', s, i, |s|).out
  {
    var e := Step(m', s[i]);
    var r := Run(e.m, s, i + 1, |s|);
    ConcatAssociative(p, e.out, r.out);
  }

  /** From i on the run emits `out` up to j and then goes on as if started afresh. */
  predicate RunsAs(s: seq<byte>, i: nat, j: nat, out: seq<byte>)
    requires i <= j <= |s|
  {
    && Run(INIT, s, i, |s|).out == out + Run(INIT, s, j, |s|).out
    && Run(INIT, s, i, |s|).m.pending == Run(INIT, s, j, |s|).m.pending
  }

  /** From i on the run treats token t as the tokenizer says. */
  predicate RunsToken(s: seq<byte>, i: nat, t: Token)
    requires i < t.to <= |s|
  {
    if t.kind == Unfinished then Run(INIT, s, i, |s|).out == [] && Run(INIT, s, i, |s|).m.pending == s[i..t.to]
    else RunsAs(s, i, t.to, if t.kind == Sequence && IsQuery(s[i..t.to]) then [] else s[i..t.to])
  }

  lemma RunCsiOpen(s: seq<byte>, i: nat, j: nat)
    requires OpenCsi(s, i, j) && (j == |s| || s[j] == ESC)
    ensures if j == |s| then Run(INIT, s, i, |s|) == Emit(InCsi(s[i..j]), [])
            else RunsAs(s, i, j, s[i..j])
  {
    RunCsiBody(s, i, j);
    if j < |s| {
      RunSplit(INIT, s, i, j, |s|);
      RunInterrupted(InCsi(s[i..j]), s, j);
    }
  }

  lemma RunCsiClosed(s: seq<byte>, i: nat, j: nat)
    requires OpenCsi(s, i, j) && j < |s| && s[j] != ESC && (j - i < MAX_BUFFERED ==> IsCsiFinal(s[j]))
    ensures RunsAs(s, i, j + 1, if j - i < MAX_BUFFERED && IsQuery(s[i..j + 1]) then [] else s[i..j + 1])
  {
    RunCsiBody(s, i, j);
    RunOpenThen(s, i, j);
    CsiLastByte(s[i..j], s[j]);
    SliceSnoc(s, i, j);
    RunSplit(INIT, s, i, j + 1, |s|);
  }

  lemma RunCsiHead(s: seq<byte>, i: nat)
    requires StartsCsi(s, i)
    ensures RunsToken(s, i, CsiToken(s, i))
  {
    var n := CsiEnd(s, i, i + 2);
    CsiEndIsFirst(s, i, i + 2);
    if n == |s| || s[n] == ESC {
      RunCsiOpen(s, i, n);
    } else {
      RunCsiClosed(s, i, n);
    }
  }

  function StringMode(osc: bool): Mode {
    if osc then OscString else DcsString
  }

  /** Within a string the machine remembers only whether the last byte of the body was an ESC. */
  function InString(s: seq<byte>, p: nat, i: nat, osc: bool): Machine
    requires p <= i <= |s|
  {
    Machine(StringMode(osc), [], i > p && s[i - 1] == ESC)
  }

  lemma StringByte(s: seq<byte>, p: nat, i: nat, osc: bool)
    requires p <= i < |s|
    ensures Step(InString(s, p, i, osc), s[i])
         == Emit(if StringEndsAt(s, p, i, osc) then INIT else InString(s, p, i + 1, osc), [s[i]])
  {
  }

  /** The machine forwards a string up to its terminator and no further. */
  lemma {:induction false} RunString(s: seq<byte>, p: nat, i: nat, osc: bool)
    requires p <= i <= |s|
    ensures var n := StringEnd(s, p, i, osc);
            var r := Run(InString(s, p, i, osc), s, i, n);
            r.out == s[i..n] && r.m.pending == [] && (n < |s| ==> r.m == INIT)
    decreases |s| - i
  {
    if i < |s| {
      var n := StringEnd(s, p, i, osc);
      StringByte(s, p, i, osc);
      assert s[i..n] == [s[i]] + s[i + 1..n];
      if !StringEndsAt(s, p, i, osc) {
        RunString(s, p, i + 1, osc);
      }
    }
  }

  lemma RunStringHead(s: seq<byte>, i: nat)
    requires i + 2 <= |s| && s[i] == ESC && (s[i + 1] == RBRACKET || s[i + 1] == UPPER_P)
    ensures var n := StringEnd(s, i + 2, i + 2, s[i + 1] == RBRACKET);
            RunsAs(s, i, n, s[i..n])
  {
    var osc := s[i + 1] == RBRACKET;
    RunIntroducer(s, i, osc);
    RunStringFrom(s, i, osc);
  }

  lemma RunIntroducer(s: seq<byte>, i: nat, osc: bool)
    requires i + 2 <= |s| && s[i] == ESC && s[i + 1] == if osc then RBRACKET else UPPER_P
    ensures Run(INIT, s, i, i + 2) == Emit(InString(s, i + 2, i + 2, osc), s[i..i + 2])
  {
    RunSnoc(INIT, s, i, i);
    RunSnoc(INIT, s, i, i + 1);
    assert s[i..i + 2] == [ESC, s[i + 1]];
  }

  lemma RunStringFrom(s: seq<byte>, i: nat, osc: bool)
    requires i + 2 <= |s| && Run(INIT, s, i, i + 2) == Emit(InString(s, i + 2, i + 2, osc), s[i..i + 2])
    ensures var n := StringEnd(s, i + 2, i + 2, osc);
            RunsAs(s, i, n, s[i..n])
  {
    var n := StringEnd(s, i + 2, i + 2, osc);
    RunString(s, i + 2, i + 2, osc);
    RunSplit(INIT, s, i, i + 2, n);
    assert s[i..n] == s[i..i + 2] + s[i + 2..n];
    RunSplit(INIT, s, i, n, |s|);
  }

  /** ESC before a byte that opens neither a control sequence nor a string. */
  lemma RunEscaped(s: seq<byte>, i: nat)
    requires i + 2 <= |s| && s[i] == ESC
    requires s[i + 1] != LBRACKET && s[i + 1] != RBRACKET && s[i + 1] != UPPER_P
    ensures var j := if s[i + 1] == ESC then i + 1 else i + 2;
            RunsAs(s, i, j, s[i..j])
  {
    assert Step(INIT, s[i]) == Emit(ESCAPED, []);
    if s[i + 1] == ESC {
      RunInterrupted(ESCAPED, s, i + 1);
      assert s[i..i + 1] == [ESC];
    } else {
      assert Step(ESCAPED, s[i + 1]) == Emit(INIT, [ESC, s[i + 1]]);
      assert s[i..i + 2] == [ESC, s[i + 1]];
    }
  }

  lemma RunNextToken(s: seq<byte>, i: nat)
    requires i < |s|
    ensures RunsToken(s, i, NextToken(s, i))
  {
    if s[i] != ESC || i + 1 == |s| {
      assert s[i..i + 1] == [s[i]];
    } else if s[i + 1] == LBRACKET {
      RunCsiHead(s, i);
    } else if s[i + 1] == RBRACKET || s[i + 1] == UPPER_P {
      RunStringHead(s, i);
    } else {
      RunEscaped(s, i);
    }
  }

  /**
   * The machine forwards the stream with exactly the query sequences of the
   * tokenizer deleted, and holds back exactly the unfinished last token.
   */
  lemma {:induction false} RunIsTokenizer(s: seq<byte>, i: nat)
    requires i <= |s|
    ensures Run(INIT, s, i, |s|).out == Kept(s, Tokenize(s, i), IsQuery)
    ensures Run(INIT, s, i, |s|).m.pending == Held(s, Tokenize(s, i))
    decreases |s| - i
  {
    if i < |s| {
      var t := NextToken(s, i);
      RunNextToken(s, i);
      assert Tokenize(s, i)[1..] == Tokenize(s, t.to);
      if t.kind != Unfinished {
        RunIsTokenizer(s, t.to);
      }
    }
  }

  // ---------- Whole runs ----------

  datatype Event = Feed(bytes: seq<byte>) | FinishStream

  function Finish(m: Machine): Emit {
    Emit(Machine(Ground, [], false), [])
  }

  lemma {:induction false} RunPrefix(m: Machine, s: seq<byte>, b: seq<byte>, i: nat, j: nat)
    requires i <= j <= |s|
    ensures Run(m, s + b, i, j) == Run(m, s, i, j)
    decreases j - i
  {
    if i < j {
      RunPrefix(Step(m, s[i]).m, s, b, i + 1, j);
    }
  }

  lemma {:induction false} RunShift(m: Machine, s: seq<byte>, b: seq<byte>, i: nat)
    requires i <= |b|
    ensures Run(m, s + b, |s| + i, |s| + |b|) == Run(m, b, i, |b|)
    decreases |b| - i
  {
    if i < |b| {
      assert (s + b)[|s| + i] == b[i];
      RunShift(Step(m, b[i]).m, s, b, i + 1);
    }
  }

  function Apply(m: Machine, ev: Event): Emit {
    match ev
    case Feed(bytes) => Run(m, bytes, 0, |bytes|)
    case FinishStream => Finish(m)
  }

  /** The machine and everything it has emitted after a run of calls. */
  function RunEvents(evs: seq<Event>): Emit {
    if evs == [] then Emit(INIT, []) else
    var before := RunEvents(evs[..|evs| - 1]);
    var e := Apply(before.m, evs[|evs| - 1]);
    Emit(e.m, before.out + e.out)
  }

  /** The same run as data: what the streams ended by `finish` have become, then the bytes fed since. */
  datatype History = History(done: seq<byte>, s: seq<byte>)

  function Stripped(s: seq<byte>): seq<byte> {
    Kept(s, Tokenize(s, 0), IsQuery)
  }

  /** A finished stream keeps what was forwarded; its unfinished last token is dropped. */
  function HistoryOf(evs: seq<Event>): History {
    if evs == [] then History([], []) else
    var h := HistoryOf(evs[..|evs| - 1]);
    match evs[|evs| - 1]
    case Feed(bytes) => h.(s := h.s + bytes)
    case FinishStream => History(h.done + Stripped(h.s), [])
  }

  lemma FeedExtends(s: seq<byte>, b: seq<byte>)
    ensures var r := Run(INIT, s, 0, |s|);
            var e := Run(r.m, b, 0, |b|);
            Run(INIT, s + b, 0, |s + b|) == Emit(e.m, r.out + e.out)
  {
    RunSplit(INIT, s + b, 0, |s|, |s + b|);
    RunPrefix(INIT, s, b, 0, |s|);
    RunShift(Run(INIT, s, 0, |s|).m, s, b, 0);
  }

  lemma {:induction false} RunOfHistory(evs: seq<Event>)
    ensures var h, e := HistoryOf(evs), RunEvents(evs);
            var r := Run(INIT, h.s, 0, |h.s|);
            e.m == r.m && e.out == h.done + r.out
    decreases |evs|
  {
    if evs != [] {
      var before := evs[..|evs| - 1];
      RunOfHistory(before);
      var h := HistoryOf(before);
      var r := Run(INIT, h.s, 0, |h.s|);
      var e := Apply(r.m, evs[|evs| - 1]);
      assert (h.done + r.out) + e.out == h.done + (r.out + e.out);
      match evs[|evs| - 1]
      case Feed(bytes) => FeedExtends(h.s, bytes);
      case FinishStream => RunIsTokenizer(h.s, 0);
    }
  }

  /**
   * Over any run of feeds and finishes with any chunking: what has been forwarded is each
   * stream without its query sequences, and what is buffered is the unfinished tail of the
   * last one, which `finish` alone drops.
   */
  lemma StripperMeaning(evs: seq<Event>)
    ensures var h, e := HistoryOf(evs), RunEvents(evs);
            && e.out == h.done + Stripped(h.s)
            && e.m.pending == Held(h.s, Tokenize(h.s, 0))
            && Cuts(Tokenize(h.s, 0), 0, |h.s|)
  {
    var h := HistoryOf(evs);
    RunOfHistory(evs);
    RunIsTokenizer(h.s, 0);
    TokenizeCuts(h.s, 0);
  }

  /** In every reachable state the buffer has the shape of its mode, and `push_pending` finds room. */
  lemma ReachableShaped(evs: seq<Event>, b: byte)
    ensures Shaped(RunEvents(evs).m)
    ensures Pushes(RunEvents(evs).m, b) ==> |RunEvents(evs).m.pending| < MAX_BUFFERED
  {
    var h := HistoryOf(evs);
    RunOfHistory(evs);
    RunShaped(INIT, h.s, 0, |h.s|);
  }

  // ---------- The object of the original ----------

  class Stripper {
    var mode: Mode
    const pending: array<byte>
    var pendingLen: nat
    var stringEscape: bool

    ghost predicate Valid()
      reads this, pending
    {
      && pending.Length == MAX_BUFFERED
      && pendingLen <= MAX_BUFFERED
      && Shaped(State())
    }

    ghost function State(): Machine
      requires pendingLen <= pending.Length
      reads this, pending
    {
      Machine(mode, pending[..pendingLen], stringEscape)
    }

    constructor ()
      ensures Valid() && State() == INIT && fresh(pending)
    {
      mode := Ground;
      pending := new byte[MAX_BUFFERED];
      pendingLen := 0;
      stringEscape := false;
    }

    method Feed(bytes: seq<byte>) returns (out: seq<byte>)
      requires Valid()
      modifies this, pending
      ensures Valid()
      ensures Emit(State(), out) == Run(old(State()), bytes, 0, |bytes|)
    {
      out := [];
      ghost var m0 := State();
      for i := 0 to |bytes|
        invariant Valid()
        invariant Emit(State(), out) == Run(m0, bytes, 0, i)
      {
        RunSnoc(m0, bytes, 0, i);
        var emitted := FeedByte(bytes[i]);
        out := out + emitted;
      }
    }

    method FinishInput() returns (out: seq<byte>)
      requires Valid()
      modifies this
      ensures Valid()
      ensures Emit(State(), out) == Finish(old(State()))
    {
      pendingLen := 0;
      mode := Ground;
      stringEscape := false;
      out := [];
    }

    method FeedByte(b: byte) returns (out: seq<byte>)
      requires Valid()
      modifies this, pending
      ensures Valid()
      ensures Emit(State(), out) == Step(old(State()), b)
    {
      ghost var m0 := State();
      match mode {
        case Ground =>
          if b == ESC {
            StartPendingEscape();
            out := [];
          } else {
            out := [b];
          }
        case EscapeIntermediate => out := FeedEscapeIntermediate(b);
        case CsiParam => out := FeedCsiParam(b);
        case OscString => out := FeedStringByte(b, true);
        case DcsString => out := FeedStringByte(b, false);
      }
      StepShaped(m0, b);
    }

    method FeedEscapeIntermediate(b: byte) returns (out: seq<byte>)
      requires Valid() && mode == EscapeIntermediate
      modifies this, pending
      ensures pending.Length == MAX_BUFFERED && pendingLen <= MAX_BUFFERED
      ensures Emit(State(), out) == FeedEscape(old(State()), b)
    {
      if b == LBRACKET {
        out := PushPending(b);
        mode := CsiParam;
      } else if b == RBRACKET || b == UPPER_P {
        var spilled := PushPending(b);
        var flushed := FlushPending();
        out := spilled + flushed;
        mode := if b == RBRACKET then OscString else DcsString;
        stringEscape := false;
      } else if b == ESC {
        out := FlushPending();
        StartPendingEscape();
      } else {
        var spilled := PushPending(b);
        var flushed := FlushPending();
        out := spilled + flushed;
        mode := Ground;
      }
    }

    method FeedCsiParam(b: byte) returns (out: seq<byte>)
      requires Valid() && mode == CsiParam
      modifies this, pending
      ensures pending.Length == MAX_BUFFERED && pendingLen <= MAX_BUFFERED
      ensures Emit(State(), out) == FeedCsi(old(State()), b)
    {
      if b == ESC {
        out := FlushPending();
        StartPendingEscape();
      } else if pendingLen == MAX_BUFFERED {
        var flushed := FlushPending();
        out := flushed + [b];
        mode := Ground;
      } else {
        out := PushPending(b);
        if IsCsiFinal(b) {
          if IsQuery(pending[..pendingLen]) {
            pendingLen := 0;
          } else {
            var flushed := FlushPending();
            out := out + flushed;
          }
          mode := Ground;
        }
      }
    }

    method FeedStringByte(b: byte, osc: bool) returns (out: seq<byte>)
      requires Valid() && mode == StringMode(osc)
      modifies this
      ensures pendingLen == old(pendingLen)
      ensures Emit(State(), out) == FeedString(old(State()), b, osc)
    {
      out := [b];
      if osc && b == BEL {
        mode := Ground;
        stringEscape := false;
      } else if stringEscape && b == BACKSLASH {
        mode := Ground;
        stringEscape := false;
      } else {
        stringEscape := b == ESC;
      }
    }

    method StartPendingEscape()
      requires pending.Length == MAX_BUFFERED
      modifies this`mode, this`pendingLen, pending
      ensures pendingLen == 1 && mode == EscapeIntermediate && pending[..1] == [ESC]
    {
      pending[0] := ESC;
      pendingLen := 1;
      mode := EscapeIntermediate;
    }

    method PushPending(b: byte) returns (out: seq<byte>)
      requires pending.Length == MAX_BUFFERED && pendingLen <= MAX_BUFFERED
      modifies this`pendingLen, pending
      ensures pendingLen <= MAX_BUFFERED
      ensures (pending[..pendingLen], out) == Push(old(pending[..pendingLen]), b)
    {
      ghost var before := pending[..pendingLen];
      out := [];
      if pendingLen == MAX_BUFFERED {
        out := FlushPending();
      }
      pending[pendingLen] := b;
      pendingLen := pendingLen + 1;
      assert pending[..pendingLen] == (if |before| == MAX_BUFFERED then [b] else before + [b]);
    }

    method FlushPending() returns (out: seq<byte>)
      requires pendingLen <= pending.Length
      modifies this`pendingLen
      ensures pendingLen == 0 && out == old(pending[..pendingLen])
    {
      out := pending[..pendingLen];
      pendingLen := 0;
    }
  }
}
