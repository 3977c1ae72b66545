/**
 * Invite codes: a fixed header and a relay hint as bytes, written in the base32
 * of section 6 of RFC 4648 without padding behind a readable prefix.
 */
module PairCode {
  import opened Prelude
  import opened LittleEndian

  // ---------- Bits ----------

  /** The low `n` bits of a number, the highest first. */
  function ToBits(v: nat, n: nat): (bits: seq<bool>)
    ensures |bits| == n
  {
    if n == 0 then [] else ToBits(v / 2, n - 1) + [v % 2 == 1]
  }

  function FromBits(bits: seq<bool>): nat {
    if bits == [] then 0
    else 2 * FromBits(bits[..|bits| - 1]) + (if bits[|bits| - 1] then 1 else 0)
  }

  function Pow2(n: nat): nat {
    if n == 0 then 1 else 2 * Pow2(n - 1)
  }

  lemma {:induction false} FromToBits(v: nat, n: nat)
    requires v < Pow2(n)
    ensures FromBits(ToBits(v, n)) == v
  {
    if n > 0 {
      FromToBits(v / 2, n - 1);
      assert ToBits(v, n)[..n - 1] == ToBits(v / 2, n - 1);
    }
  }

  lemma {:induction false} ToFromBits(bits: seq<bool>)
    ensures FromBits(bits) < Pow2(|bits|) && ToBits(FromBits(bits), |bits|) == bits
  {
    if bits != [] {
      var init, last := bits[..|bits| - 1], bits[|bits| - 1];
      ToFromBits(init);
      assert FromBits(bits) / 2 == FromBits(init) && (FromBits(bits) % 2 == 1 <==> last);
      assert bits == init + [last];
    }
  }

  /** The numbers written one after another with `n` bits each. */
  function Spread(s: seq<nat>, n: nat): seq<bool> {
    if s == [] then [] else ToBits(s[0], n) + Spread(s[1..], n)
  }

  /** Whole groups of `n` bits; bits that do not fill a group are dropped. */
  function Gather(bits: seq<bool>, n: nat): seq<nat>
    requires n > 0
  {
    if |bits| < n then [] else [FromBits(bits[..n])] + Gather(bits[n..], n)
  }

  /** Zero bits that fill the last group of `n`. */
  function Padding(len: nat, n: nat): seq<bool>
    requires n > 0
    decreases len
  {
    if len == 0 then [] else if len < n then seq(n - len, _ => false) else Padding(len - n, n)
  }

  predicate Below(s: seq<nat>, bound: nat) {
    forall i :: 0 <= i < |s| ==> s[i] < bound
  }

  lemma Peel(a: seq<bool>, b: seq<bool>, c: seq<bool>)
    ensures (a + b + c)[..|a|] == a && (a + b + c)[|a|..] == b + c
  {
  }

  /** Numbers that are spread out and gathered again come back, whatever fewer than `n` bits follow. */
  lemma {:induction false} GatherSpread(s: seq<nat>, n: nat, more: seq<bool>)
    requires n > 0 && Below(s, Pow2(n)) && |more| < n
    ensures Gather(Spread(s, n) + more, n) == s
  {
    if s == [] {
      assert Spread(s, n) + more == more;
    } else {
      Peel(ToBits(s[0], n), Spread(s[1..], n), more);
      FromToBits(s[0], n);
      GatherSpread(s[1..], n, more);
    }
  }

  /** A number of bits that fills whole groups of `n`. */
  predicate Whole(len: nat, n: nat)
    requires n > 0
    decreases len
  {
    len == 0 || (len >= n && Whole(len - n, n))
  }

  lemma {:induction false} PaddingFills(len: nat, n: nat)
    requires n > 0
    ensures |Padding(len, n)| < n && Whole(len + |Padding(len, n)|, n)
  {
    if len >= n {
      PaddingFills(len - n, n);
    }
  }

  /** Bits that fill whole groups come back when gathered and spread out. */
  lemma {:induction false} SpreadGather(bits: seq<bool>, n: nat)
    requires n > 0 && Whole(|bits|, n)
    ensures Spread(Gather(bits, n), n) == bits && Below(Gather(bits, n), Pow2(n))
  {
    if |bits| >= n {
      SpreadGather(bits[n..], n);
      ToFromBits(bits[..n]);
      assert bits == bits[..n] + bits[n..];
    }
  }

  lemma {:induction false} GatherBelow(bits: seq<bool>, n: nat)
    requires n > 0
    ensures Below(Gather(bits, n), Pow2(n))
  {
    if |bits| >= n {
      GatherBelow(bits[n..], n);
      ToFromBits(bits[..n]);
    }
  }

  // ---------- Base32 ----------

  function Letter(v: nat): char
    requires v < 32
  {
    if v < 26 then ('A' as int + v) as char else ('2' as int + (v - 26)) as char
  }

  /** The value of a letter of either case or a digit of the alphabet. */
  function ValueOf(c: char): Option<nat> {
    if 'A' <= c <= 'Z' then Some(c as int - 'A' as int)
    else if 'a' <= c <= 'z' then Some(c as int - 'a' as int)
    else if '2' <= c <= '7' then Some(c as int - '2' as int + 26)
    else None
  }

  function Letters(values: seq<nat>): string
    requires Below(values, 32)
  {
    if values == [] then "" else [Letter(values[0])] + Letters(values[1..])
  }

  function Values(text: string): Option<seq<nat>> {
    if text == "" then Some([])
    else
      var first, rest := ValueOf(text[0]), Values(text[1..]);
      if first.Some? && rest.Some? then Some([first.value] + rest.value) else None
  }

  lemma GroupSizes()
    ensures Pow2(5) == 32 && Pow2(8) == 256
  {
    assert Pow2(2) == 4 && Pow2(4) == 16 && Pow2(6) == 64 && Pow2(7) == 128;
  }

  function Bits8(bytes: seq<byte>): seq<bool> {
    Spread(bytes, 8)
  }

  /** Five bits a letter, the last group filled with zero bits. */
  function Groups(bytes: seq<byte>): (values: seq<nat>)
    ensures Below(values, 32)
  {
    var bits := Bits8(bytes) + Padding(|Bits8(bytes)|, 5);
    PaddingFills(|Bits8(bytes)|, 5);
    SpreadGather(bits, 5);
    GroupSizes();
    Gather(bits, 5)
  }

  function Base32(bytes: seq<byte>): string {
    Letters(Groups(bytes))
  }

  /** Whole bytes only; leftover bits are dropped. */
  function FromBase32(text: string): Option<seq<byte>> {
    match Values(text)
    case None => None
    case Some(values) =>
      GatherBelow(Spread(values, 5), 8);
      GroupSizes();
      Some(Gather(Spread(values, 5), 8))
  }

  /** Texts that differ in the case of letters only. */
  predicate SameLetters(a: string, b: string) {
    |a| == |b| && forall i :: 0 <= i < |a| ==> ValueOf(a[i]) == ValueOf(b[i])
  }

  lemma {:induction false} ValuesSame(a: string, b: string)
    requires SameLetters(a, b)
    ensures Values(a) == Values(b)
  {
    if a != "" {
      forall i | 0 <= i < |a| - 1
        ensures ValueOf(a[1..][i]) == ValueOf(b[1..][i])
      {
        assert ValueOf(a[i + 1]) == ValueOf(b[i + 1]);
      }
      ValuesSame(a[1..], b[1..]);
    }
  }

  lemma LetterValue(v: nat)
    requires v < 32
    ensures ValueOf(Letter(v)) == Some(v)
  {
  }

  lemma ValuesCons(first: char, rest: string)
    requires ValueOf(first).Some? && Values(rest).Some?
    ensures Values([first] + rest) == Some([ValueOf(first).value] + Values(rest).value)
  {
    assert ([first] + rest)[1..] == rest;
  }

  lemma {:induction false} ValuesOfLetters(values: seq<nat>)
    requires Below(values, 32)
    ensures Values(Letters(values)) == Some(values)
  {
    if values != [] {
      ValuesOfLetters(values[1..]);
      var first, rest := Letter(values[0]), Letters(values[1..]);
      LetterValue(values[0]);
      ValuesCons(first, rest);
      assert values == [values[0]] + values[1..];
    }
  }

  /** Base32 text of either case decodes to the bytes it was made of: fewer than eight zero bits are left over. */
  lemma Base32RoundTrip(bytes: seq<byte>, text: string)
    requires SameLetters(text, Base32(bytes))
    ensures FromBase32(text) == Some(bytes)
  {
    var padding := Padding(|Bits8(bytes)|, 5);
    PaddingFills(|Bits8(bytes)|, 5);
    SpreadGather(Bits8(bytes) + padding, 5);
    ValuesSame(text, Base32(bytes));
    ValuesOfLetters(Groups(bytes));
    GroupSizes();
    GatherSpread(bytes, 8, padding);
  }

  // ---------- Invites ----------

  const INVITE_PREFIX: string := "PORTLINV-"
  const INVITE_VERSION: byte := 1
  const MAX_RELAY_HINT_LEN: nat := 255
  const HEADER_LEN: nat := 1 + 32 + 16 + 8 + 1 + 1

  type Utf8 = seq<byte> -> bool

  datatype Initiator = Mutual | Me | Them

  datatype Error = HintTooLong | NoPrefix | NotBase32 | TooShort | BadVersion | BadInitiator | Truncated | NotUtf8

  datatype Invite = Invite(version: byte, inviter: seq<byte>, nonce: seq<byte>, notAfter: nat,
                           initiator: Initiator, hint: Option<seq<byte>>)

  /** The shape its types give every invite; the hint is text, as its UTF-8 bytes. */
  predicate IsInvite(inv: Invite, utf8: Utf8) {
    && |inv.inviter| == 32 && |inv.nonce| == 16 && inv.notAfter < Pow256(8)
    && (inv.hint.Some? ==> utf8(inv.hint.value))
  }

  function WireByte(i: Initiator): byte {
    match i
    case Mutual => 0
    case Me => 1
    case Them => 2
  }

  function FromWireByte(b: byte): Option<Initiator> {
    if b == 0 then Some(Mutual) else if b == 1 then Some(Me) else if b == 2 then Some(Them) else None
  }

  function HintBytes(inv: Invite): seq<byte> {
    if inv.hint.Some? then inv.hint.value else []
  }

  /** The bytes of an invite whose hint is short enough. */
  function Payload(inv: Invite): seq<byte>
    requires |HintBytes(inv)| <= MAX_RELAY_HINT_LEN
  {
    [inv.version] + inv.inviter + inv.nonce + ToLe(inv.notAfter, 8)
    + [WireByte(inv.initiator)] + [|HintBytes(inv)|] + HintBytes(inv)
  }

  function Encode(inv: Invite): Result<string, Error> {
    if |HintBytes(inv)| > MAX_RELAY_HINT_LEN then Err(HintTooLong)
    else Ok(INVITE_PREFIX + Base32(Payload(inv)))
  }

  function DecodeBytes(b: seq<byte>, utf8: Utf8): Result<Invite, Error> {
    if |b| < HEADER_LEN then Err(TooShort)
    else if b[0] != INVITE_VERSION then Err(BadVersion)
    else
      var initiator := FromWireByte(b[57]);
      var hintLen: nat := b[58];
      if initiator.None? then Err(BadInitiator)
      else if |b| < 59 + hintLen then Err(Truncated)
      else
        var hint := b[59..59 + hintLen];
        if hintLen > 0 && !utf8(hint) then Err(NotUtf8)
        else Ok(Invite(b[0], b[1..33], b[33..49], Le(b[49..57]), initiator.value,
                       if hintLen == 0 then None else Some(hint)))
  }

  /** The white space characters of Unicode. */
  predicate IsSpace(c: char) {
    var n := c as int;
    || 0x09 <= n <= 0x0D || n == 0x20 || n == 0x85 || n == 0xA0 || n == 0x1680
    || 0x2000 <= n <= 0x200A || n == 0x2028 || n == 0x2029 || n == 0x202F || n == 0x205F || n == 0x3000
  }

  function Trim(s: string): string {
    if s == "" then ""
    else if IsSpace(s[0]) then Trim(s[1..])
    else if IsSpace(s[|s| - 1]) then Trim(s[..|s| - 1])
    else s
  }

  function Decode(s: string, utf8: Utf8): Result<Invite, Error> {
    var t := Trim(s);
    if !(INVITE_PREFIX <= t) then Err(NoPrefix)
    else
      match FromBase32(t[|INVITE_PREFIX|..])
      case None => Err(NotBase32)
      case Some(bytes) => DecodeBytes(bytes, utf8)
  }

  // ---------- Round trips ----------

  /** An invite that can be told from its bytes: of this version, its hint absent or not empty. */
  predicate Transmissible(inv: Invite) {
    inv.version == INVITE_VERSION && inv.hint != Some([]) && |HintBytes(inv)| <= MAX_RELAY_HINT_LEN
  }

  /** The fields of an invite stand at their offsets. */
  predicate FieldsAt(b: seq<byte>, inv: Invite) {
    var n := |HintBytes(inv)|;
    && 59 + n <= |b| && n <= MAX_RELAY_HINT_LEN
    && b[0] == inv.version && b[1..33] == inv.inviter && b[33..49] == inv.nonce
    && b[49..57] == ToLe(inv.notAfter, 8) && b[57] == WireByte(inv.initiator) && b[58] == n
    && b[59..59 + n] == HintBytes(inv)
  }

  lemma PayloadFields(inv: Invite, more: seq<byte>)
    requires |inv.inviter| == 32 && |inv.nonce| == 16 && |HintBytes(inv)| <= MAX_RELAY_HINT_LEN
    ensures FieldsAt(Payload(inv) + more, inv)
  {
  }

  lemma FieldsPayload(b: seq<byte>, inv: Invite)
    requires FieldsAt(b, inv)
    ensures Payload(inv) <= b
  {
    var n := |HintBytes(inv)|;
    assert b[..59 + n] == [b[0]] + b[1..33] + b[33..49] + b[49..57] + [b[57]] + [b[58]] + b[59..59 + n];
  }

  lemma DecodesFields(b: seq<byte>, inv: Invite, utf8: Utf8)
    ensures DecodeBytes(b, utf8) == Ok(inv) <==>
            IsInvite(inv, utf8) && Transmissible(inv) && FieldsAt(b, inv)
  {
    if DecodeBytes(b, utf8) == Ok(inv) {
      ToLeLe(b[49..57]);
    }
    if IsInvite(inv, utf8) && FieldsAt(b, inv) {
      LeToLe(inv.notAfter, 8);
    }
  }

  /** Bytes decode to an invite exactly when they start with its own bytes. */
  lemma DecodeBytesIff(b: seq<byte>, inv: Invite, utf8: Utf8)
    ensures DecodeBytes(b, utf8) == Ok(inv) <==>
            IsInvite(inv, utf8) && Transmissible(inv) && Payload(inv) <= b
  {
    DecodesFields(b, inv, utf8);
    if DecodeBytes(b, utf8) == Ok(inv) {
      FieldsPayload(b, inv);
    }
    if IsInvite(inv, utf8) && Transmissible(inv) && Payload(inv) <= b {
      PayloadFields(inv, b[|Payload(inv)|..]);
      assert Payload(inv) + b[|Payload(inv)|..] == b;
    }
  }

  predicate Spaces(s: string) {
    forall i :: 0 <= i < |s| ==> IsSpace(s[i])
  }

  lemma {:induction false} TrimAround(before: string, s: string, after: string)
    requires Spaces(before) && Spaces(after) && s != "" && !IsSpace(s[0]) && !IsSpace(s[|s| - 1])
    ensures Trim(before + s + after) == s
    decreases |before| + |after|
  {
    var t := before + s + after;
    if before != "" {
      assert t[1..] == before[1..] + s + after;
      TrimAround(before[1..], s, after);
    } else if after != "" {
      var n := |after| - 1;
      assert t[..|t| - 1] == before + s + after[..n];
      assert t[0] == s[0] && t[|t| - 1] == after[n];
      TrimAround(before, s, after[..n]);
    } else {
      assert t == s;
    }
  }

  lemma {:induction false} LastHasValue(text: string)
    requires text != "" && Values(text).Some?
    ensures ValueOf(text[|text| - 1]).Some?
  {
    if |text| > 1 {
      LastHasValue(text[1..]);
    }
  }

  lemma DecodeOfText(before: string, text: string, after: string, utf8: Utf8)
    requires Spaces(before) && Spaces(after) && FromBase32(text).Some?
    ensures Decode(before + (INVITE_PREFIX + text) + after, utf8) == DecodeBytes(FromBase32(text).value, utf8)
  {
    var s := INVITE_PREFIX + text;
    if text != "" {
      LastHasValue(text);
      assert s[|s| - 1] == text[|text| - 1];
    }
    TrimAround(before, s, after);
    assert s[|INVITE_PREFIX|..] == text;
  }

  /**
   * An encoded invite, with white space around it and its body in any case, decodes to
   * the same invite exactly when it is of this version and its hint is absent or not empty.
   */
  lemma RoundTripIff(inv: Invite, utf8: Utf8, before: string, text: string, after: string)
    requires IsInvite(inv, utf8) && Encode(inv).Ok? && Spaces(before) && Spaces(after)
    requires SameLetters(text, Encode(inv).value[|INVITE_PREFIX|..])
    ensures Decode(before + (INVITE_PREFIX + text) + after, utf8) == Ok(inv) <==>
            inv.version == INVITE_VERSION && inv.hint != Some([])
  {
    var bytes := Payload(inv);
    assert Encode(inv).value[|INVITE_PREFIX|..] == Base32(bytes);
    Base32RoundTrip(bytes, text);
    DecodeOfText(before, text, after, utf8);
    DecodeBytesIff(bytes, inv, utf8);
  }

  /** In particular an invite as it is encoded. */
  lemma RoundTrip(inv: Invite, utf8: Utf8)
    requires IsInvite(inv, utf8)
    ensures Encode(inv).Err? <==> |HintBytes(inv)| > MAX_RELAY_HINT_LEN
    ensures Encode(inv).Ok? ==>
              (Decode(Encode(inv).value, utf8) == Ok(inv) <==> inv.version == INVITE_VERSION && inv.hint != Some([]))
  {
    if Encode(inv).Ok? {
      var text := Encode(inv).value[|INVITE_PREFIX|..];
      assert "" + (INVITE_PREFIX + text) + "" == Encode(inv).value;
      RoundTripIff(inv, utf8, "", text, "");
    }
  }

  /** Where it fails: an empty hint comes back as none. */
  lemma EmptyHintLost(inv: Invite, utf8: Utf8)
    requires IsInvite(inv, utf8) && inv.version == INVITE_VERSION && inv.hint == Some([])
    ensures Encode(inv).Ok? && Decode(Encode(inv).value, utf8) == Ok(inv.(hint := None))
  {
    var bare := inv.(hint := None);
    assert Payload(inv) == Payload(bare);
    RoundTrip(bare, utf8);
  }
}
