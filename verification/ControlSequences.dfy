/**
 * Escape and control sequences of a terminal stream, as both filters see them.
 * The final bytes of a control sequence are those of section 5.4 of ECMA-48.
 * A stream is one byte sequence s; its pieces are spans of offsets into s.
 */
module ControlSequences {
  import opened Prelude

  const ESC: byte := 0x1b
  const LBRACKET: byte := 0x5b
  const MAX_BUFFERED: nat := 32

  predicate IsCsiFinal(b: byte) {
    0x40 <= b <= 0x7e
  }

  predicate IsDigit(b: byte) {
    0x30 <= b <= 0x39
  }

  /** A byte that neither ends nor interrupts a control sequence. */
  predicate IsCsiBody(b: byte) {
    b != ESC && !IsCsiFinal(b)
  }

  predicate StartsCsi(s: seq<byte>, i: nat) {
    i + 2 <= |s| && s[i] == ESC && s[i + 1] == LBRACKET
  }

  /** Span i..j is a control sequence as it waits in the buffer: introduced, not yet ended. */
  predicate OpenCsi(s: seq<byte>, i: nat, j: nat) {
    && i + 2 <= j <= |s| && j - i <= MAX_BUFFERED && StartsCsi(s, i)
    && forall k :: i + 2 <= k < j ==> IsCsiBody(s[k])
  }

  /** Span i..j is a whole control sequence, short enough to be judged. */
  predicate CompleteCsi(s: seq<byte>, i: nat, j: nat) {
    i + 3 <= j && OpenCsi(s, i, j - 1) && j <= |s| && j - i <= MAX_BUFFERED && IsCsiFinal(s[j - 1])
  }

  /** The first offset from k on that is not inside the control sequence begun at i, or the buffer limit. */
  function CsiEnd(s: seq<byte>, i: nat, k: nat): (n: nat)
    requires i <= k <= |s| && k - i <= MAX_BUFFERED
    ensures k <= n <= |s| && n - i <= MAX_BUFFERED
    decreases |s| - k
  {
    if k == |s| || k - i == MAX_BUFFERED || !IsCsiBody(s[k]) then k else CsiEnd(s, i, k + 1)
  }

  lemma {:induction false} CsiEndIsFirst(s: seq<byte>, i: nat, k: nat)
    requires OpenCsi(s, i, k)
    ensures var n := CsiEnd(s, i, k);
            OpenCsi(s, i, n) && (n < |s| && n - i < MAX_BUFFERED ==> !IsCsiBody(s[n]))
    decreases |s| - k
  {
    if k < |s| && k - i < MAX_BUFFERED && IsCsiBody(s[k]) {
      CsiEndIsFirst(s, i, k + 1);
    }
  }

  /**
   * A piece of the stream. A `Sequence` is a whole control sequence, which a
   * filter may judge; a `Literal` is forwarded; `Unfinished` is still waiting.
   */
  datatype Kind = Literal | Sequence | Unfinished

  datatype Token = Token(kind: Kind, from: nat, to: nat)

  /** The piece that starts with a control sequence introducer at i. */
  function CsiToken(s: seq<byte>, i: nat): (t: Token)
    requires StartsCsi(s, i)
    ensures t.from == i && i + 2 <= t.to <= |s|
  {
    var n := CsiEnd(s, i, i + 2);
    if n == |s| then Token(Unfinished, i, n)
    else if s[n] == ESC then Token(Literal, i, n)
    else if n - i == MAX_BUFFERED then Token(Literal, i, n + 1)
    else Token(Sequence, i, n + 1)
  }

  function Text(s: seq<byte>, t: Token): seq<byte> {
    if t.from <= t.to <= |s| then s[t.from..t.to] else []
  }

  /** The tokens cut the stream from offset i on into consecutive nonempty pieces, of which only the last is unfinished. */
  predicate Cuts(ts: seq<Token>, i: nat, n: nat) {
    if ts == [] then i == n
    else && ts[0].from == i && i < ts[0].to <= n
         && (ts[0].kind == Unfinished ==> ts[0].to == n)
         && Cuts(ts[1..], ts[0].to, n)
  }

  /** What is forwarded when the sequences in `drop` are deleted and the rest is kept in order. */
  function Kept(s: seq<byte>, ts: seq<Token>, drop: seq<byte> -> bool): seq<byte> {
    if ts == [] then [] else
    var text := Text(s, ts[0]);
    var kept := ts[0].kind == Literal || (ts[0].kind == Sequence && !drop(text));
    (if kept then text else []) + Kept(s, ts[1..], drop)
  }

  /** The bytes of a last piece that is still waiting for its end. */
  function Held(s: seq<byte>, ts: seq<Token>): seq<byte> {
    if ts == [] then []
    else if ts[0].kind == Unfinished then Text(s, ts[0])
    else Held(s, ts[1..])
  }

  lemma SliceSnoc(s: seq<byte>, i: nat, j: nat)
    requires i <= j < |s|
    ensures s[i..j + 1] == s[i..j] + [s[j]]
  {
  }
}
