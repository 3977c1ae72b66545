/**
 * The Herdr wire: length-prefixed frames whose payload starts with a compact
 * variant tag, read from a byte stream that may deliver any number of bytes at
 * a time. Lengths are those of a 64-bit machine.
 */
module HerdrWire {
  import opened Prelude
  import opened LittleEndian

  const U32: nat := 0x1_0000_0000
  const U64: nat := 0x1_0000_0000_0000_0000
  const LENGTH_PREFIX_BYTES: nat := 4
  const MAX_FRAME_SIZE: nat := 2 * 1024 * 1024
  const MAX_GRAPHICS_FRAME_SIZE: nat := 32 * 1024 * 1024
  const MAX_CLIPBOARD_IMAGE_PAYLOAD: nat := 16 * 1024 * 1024

  datatype Error =
    | ZeroLength
    | InvalidTag
    | UnexpectedEof(needed: nat, actual: nat)
    | Oversized(claimed: nat, max: nat)
    | ClipboardImageOversized(claimed: nat, max: nat)
    | Allocation(bytes: nat)
    | SlowConsumer(bytes: nat)
    | Bincode
    | Io

  type Utf8 = seq<byte> -> bool

  // ---------- Variable-length numbers ----------

  /** The canonical encoding: the shortest of one, three, five and nine bytes. */
  function EncodeVarint(v: nat): (s: seq<byte>)
    ensures |s| in {1, 3, 5, 9}
  {
    if v <= 250 then [v]
    else if v < 0x1_0000 then [251] + ToLe(v, 2)
    else if v < U32 then [252] + ToLe(v, 4)
    else [253] + ToLe(v, 8)
  }

  /** The encoding of `v` stands in `s` from one offset to another. */
  predicate VarintAt(s: seq<byte>, from: nat, v: nat, to: nat) {
    to == from + |EncodeVarint(v)| && to <= |s| && s[from..to] == EncodeVarint(v)
  }

  /** How many bytes a marker announces; 0 for a marker that announces none. */
  function Width(marker: byte): nat {
    if marker <= 250 then 1
    else if marker == 251 then 3
    else if marker == 252 then 5
    else if marker == 253 then 9
    else 0
  }

  predicate Canonical(width: nat, value: nat) {
    match width
    case 3 => value > 250
    case 5 => value > 0xFFFF
    case 9 => value > 0xFFFF_FFFF
    case _ => true
  }

  function ParseVarint(s: seq<byte>, offset: nat): Result<(nat, nat), Error> {
    if offset >= |s| then Err(UnexpectedEof(offset + 1, |s|))
    else
      var width := Width(s[offset]);
      var end := offset + width;
      if width == 0 then Err(InvalidTag)
      else if end >= U64 then Err(Allocation(U64 - 1))
      else if end > |s| then Err(UnexpectedEof(end, |s|))
      else
        var value := if width == 1 then s[offset] else Le(s[offset + 1..end]);
        if Canonical(width, value) then Ok((value, end)) else Err(InvalidTag)
  }

  function DecodeCompact(s: seq<byte>): Result<nat, Error> {
    if |s| == 1 && s[0] <= 250 then Ok(s[0])
    else if |s| == 3 && s[0] == 251 then
      if Le(s[1..]) > 250 then Ok(Le(s[1..])) else Err(InvalidTag)
    else if |s| == 5 && s[0] == 252 then
      if Le(s[1..]) > 0xFFFF then Ok(Le(s[1..])) else Err(InvalidTag)
    else Err(InvalidTag)
  }

  function TagWidth(marker: byte): nat {
    if marker == 253 then 0 else Width(marker)
  }

  function DecodeTagPrefix(s: seq<byte>): Result<(nat, nat), Error> {
    if s == [] then Err(UnexpectedEof(1, 0))
    else
      var width := TagWidth(s[0]);
      if width == 0 then Err(InvalidTag)
      else if width > |s| then Err(UnexpectedEof(width, |s|))
      else
        match DecodeCompact(s[..width])
        case Err(e) => Err(e)
        case Ok(tag) => Ok((tag, width))
  }

  /** Encoding and reading the number behind a marker are inverse to each other. */
  lemma MarkedIff(s: seq<byte>, v: nat)
    requires |s| in {3, 5, 9} && Width(s[0]) == |s|
    ensures (v < U64 && s == EncodeVarint(v)) <==> (Le(s[1..]) == v && Canonical(|s|, v))
  {
    Powers();
    ToLeLe(s[1..]);
    if v < U64 && s == EncodeVarint(v) {
      assert s[1..] == ToLe(v, |s| - 1);
      LeToLe(v, |s| - 1);
    }
    if Le(s[1..]) == v && Canonical(|s|, v) {
      assert s == [s[0]] + s[1..];
    }
  }

  lemma VarintMarker(s: seq<byte>, from: nat, v: nat, to: nat)
    requires VarintAt(s, from, v, to)
    ensures from < |s| && s[from] == EncodeVarint(v)[0] && Width(s[from]) == to - from
  {
    assert s[from] == s[from..to][0];
  }

  lemma ParsedIsVarint(s: seq<byte>, offset: nat, v: nat, end: nat)
    requires ParseVarint(s, offset) == Ok((v, end))
    ensures v < U64 && VarintAt(s, offset, v, end)
  {
    var width := Width(s[offset]);
    if width == 1 {
      assert s[offset..end] == [v];
    } else {
      var raw := s[offset..end];
      assert raw[1..] == s[offset + 1..end];
      MarkedIff(raw, v);
    }
  }

  lemma VarintIsParsed(s: seq<byte>, offset: nat, v: nat, end: nat)
    requires |s| < U64 && v < U64 && VarintAt(s, offset, v, end)
    ensures ParseVarint(s, offset) == Ok((v, end))
  {
    VarintMarker(s, offset, v, end);
    var raw := s[offset..end];
    if |raw| > 1 {
      assert raw[1..] == s[offset + 1..end];
      MarkedIff(raw, v);
    }
  }

  /** `parse_varint_usize` succeeds exactly on the canonical encoding of its value. */
  lemma ParseVarintIff(s: seq<byte>, offset: nat, v: nat, end: nat)
    requires |s| < U64
    ensures ParseVarint(s, offset) == Ok((v, end)) <==> v < U64 && VarintAt(s, offset, v, end)
  {
    if ParseVarint(s, offset) == Ok((v, end)) {
      ParsedIsVarint(s, offset, v, end);
    }
    if v < U64 && VarintAt(s, offset, v, end) {
      VarintIsParsed(s, offset, v, end);
    }
  }

  /** `decode_tag_prefix` succeeds exactly on the canonical encoding of a 32-bit tag. */
  lemma DecodeTagPrefixIff(s: seq<byte>, v: nat, end: nat)
    ensures DecodeTagPrefix(s) == Ok((v, end)) <==> v < U32 && VarintAt(s, 0, v, end)
  {
    if s != [] {
      var width := TagWidth(s[0]);
      if width > 1 && width <= |s| {
        var raw := s[0..width];
        assert s[..width] == raw;
        MarkedIff(raw, v);
        Powers();
        ToLeLe(raw[1..]);
      }
      if v < U32 && VarintAt(s, 0, v, end) {
        assert s[0] == s[0..end][0] == EncodeVarint(v)[0];
      }
      if width == 1 && DecodeTagPrefix(s) == Ok((v, end)) {
        assert s[0..end] == [v];
      }
    }
  }

  // ---------- Clipboard images ----------

  function ValidateClipboardImage(p: seq<byte>, max: nat, utf8: Utf8): Result<(), Error> {
    match DecodeTagPrefix(p)
    case Err(e) => Err(e)
    case Ok((tag, offset)) =>
      if tag != 2 then Err(InvalidTag)
      else
        match ParseVarint(p, offset)
        case Err(e) => Err(e)
        case Ok((extLen, extFrom)) =>
          var extEnd := extFrom + extLen;
          if extEnd >= U64 then Err(Allocation(U64 - 1))
          else if extEnd > |p| then Err(UnexpectedEof(extEnd, |p|))
          else if !utf8(p[extFrom..extEnd]) then Err(Bincode)
          else ValidateImageData(p, extEnd, max)
  }

  function ValidateImageData(p: seq<byte>, offset: nat, max: nat): Result<(), Error> {
    match ParseVarint(p, offset)
    case Err(e) => Err(e)
    case Ok((dataLen, dataFrom)) =>
      if dataLen > max then Err(ClipboardImageOversized(dataLen, max))
      else if dataFrom + dataLen >= U64 then Err(Allocation(U64 - 1))
      else if dataFrom + dataLen != |p| then Err(Bincode)
      else Ok(())
  }

  /** The canonical bytes of a clipboard image with this extension and data. */
  function ClipboardImage(extension: seq<byte>, data: seq<byte>): seq<byte> {
    EncodeVarint(2) + (EncodeVarint(|extension|) + extension) + (EncodeVarint(|data|) + data)
  }

  ghost predicate IsClipboardImage(p: seq<byte>, max: nat, utf8: Utf8) {
    exists extension, data :: p == ClipboardImage(extension, data) && utf8(extension) && |data| <= max
  }

  /** Data that passes stands behind its length and ends the payload. */
  lemma ImageDataOnly(p: seq<byte>, offset: nat, max: nat) returns (data: seq<byte>)
    requires offset <= |p| < U64 && ValidateImageData(p, offset, max).Ok?
    ensures p[offset..] == EncodeVarint(|data|) + data && |data| <= max
  {
    var (n, from) := ParseVarint(p, offset).value;
    ParseVarintIff(p, offset, n, from);
    data := p[from..];
    assert p[offset..] == p[offset..from] + data;
  }

  lemma ImageDataAccepted(p: seq<byte>, offset: nat, data: seq<byte>, max: nat)
    requires offset <= |p| < U64 && p[offset..] == EncodeVarint(|data|) + data && |data| <= max
    ensures ValidateImageData(p, offset, max).Ok?
  {
    var from := offset + |EncodeVarint(|data|)|;
    assert p[offset..from] == p[offset..][..from - offset] == EncodeVarint(|data|);
    ParseVarintIff(p, offset, |data|, from);
  }

  lemma Pieces(a: seq<byte>, b: seq<byte>, c: seq<byte>, d: seq<byte>)
    ensures var p := a + (b + c) + d; var m := |a| + |b|; var n := m + |c|;
            p[0..|a|] == a && p[|a|..m] == b && p[m..n] == c && p[n..] == d
  {
  }

  lemma AcceptedBy(p: seq<byte>, t: nat, n: nat, from: nat, max: nat, utf8: Utf8)
    requires |p| < U64 && VarintAt(p, 0, 2, t) && VarintAt(p, t, n, from) && from + n <= |p|
    requires utf8(p[from..from + n]) && ValidateImageData(p, from + n, max).Ok?
    ensures ValidateClipboardImage(p, max, utf8).Ok?
  {
    DecodeTagPrefixIff(p, 2, t);
    ParseVarintIff(p, t, n, from);
  }

  lemma ClipboardImageAccepted(extension: seq<byte>, data: seq<byte>, max: nat, utf8: Utf8)
    requires |ClipboardImage(extension, data)| < U64 && utf8(extension) && |data| <= max
    ensures ValidateClipboardImage(ClipboardImage(extension, data), max, utf8).Ok?
  {
    var p, n := ClipboardImage(extension, data), |EncodeVarint(|extension|)|;
    Pieces(EncodeVarint(2), EncodeVarint(|extension|), extension, EncodeVarint(|data|) + data);
    ImageDataAccepted(p, 1 + n + |extension|, data, max);
    AcceptedBy(p, 1, |extension|, 1 + n, max, utf8);
  }

  lemma Reassembled(p: seq<byte>, a: nat, b: nat, c: nat)
    requires a <= b <= c <= |p|
    ensures p == p[0..a] + (p[a..b] + p[b..c]) + p[c..]
  {
  }

  lemma IsClipboardImageBy(p: seq<byte>, t: nat, n: nat, from: nat, data: seq<byte>, max: nat, utf8: Utf8)
    requires VarintAt(p, 0, 2, t) && VarintAt(p, t, n, from) && from + n <= |p| && utf8(p[from..from + n])
    requires p[from + n..] == EncodeVarint(|data|) + data && |data| <= max
    ensures IsClipboardImage(p, max, utf8)
  {
    Reassembled(p, t, from, from + n);
    assert p == ClipboardImage(p[from..from + n], data);
  }

  /** Where extension and data of a payload that passes begin. */
  lemma ImageParts(p: seq<byte>, max: nat, utf8: Utf8) returns (t: nat, n: nat, from: nat)
    requires |p| < U64 && ValidateClipboardImage(p, max, utf8).Ok?
    ensures VarintAt(p, 0, 2, t) && VarintAt(p, t, n, from) && from + n <= |p| && utf8(p[from..from + n])
    ensures ValidateImageData(p, from + n, max).Ok?
  {
    t := DecodeTagPrefix(p).value.1;
    n, from := ParseVarint(p, t).value.0, ParseVarint(p, t).value.1;
    DecodeTagPrefixIff(p, 2, t);
    ParseVarintIff(p, t, n, from);
  }

  lemma OnlyClipboardImages(p: seq<byte>, max: nat, utf8: Utf8)
    requires |p| < U64 && ValidateClipboardImage(p, max, utf8).Ok?
    ensures IsClipboardImage(p, max, utf8)
  {
    var t, n, from := ImageParts(p, max, utf8);
    var data := ImageDataOnly(p, from + n, max);
    IsClipboardImageBy(p, t, n, from, data, max, utf8);
  }

  /** A payload passes exactly when it is the canonical encoding of some image within the limit. */
  lemma ClipboardImageIff(p: seq<byte>, max: nat, utf8: Utf8)
    requires |p| < U64
    ensures ValidateClipboardImage(p, max, utf8).Ok? <==> IsClipboardImage(p, max, utf8)
  {
    if ValidateClipboardImage(p, max, utf8).Ok? {
      OnlyClipboardImages(p, max, utf8);
    }
    if extension, data :| p == ClipboardImage(extension, data) && utf8(extension) && |data| <= max {
      ClipboardImageAccepted(extension, data, max, utf8);
    }
  }

  /** A text behind its length can be told from what follows. */
  lemma LengthFirst(a: seq<byte>, more: seq<byte>, b: seq<byte>, rest: seq<byte>)
    requires EncodeVarint(|a|) + a + more == EncodeVarint(|b|) + b + rest
    requires |EncodeVarint(|a|) + a + more| < U64
    ensures a == b && more == rest
  {
    var p := EncodeVarint(|a|) + a + more;
    var m, n := |EncodeVarint(|a|)|, |EncodeVarint(|b|)|;
    assert p[0..m] == EncodeVarint(|a|) && p[0..n] == EncodeVarint(|b|);
    ParseVarintIff(p, 0, |a|, m);
    ParseVarintIff(p, 0, |b|, n);
    assert p[m..m + |a|] == a && p[m..m + |a|] == b;
    assert p[m + |a|..] == more && p[m + |a|..] == rest;
  }

  /** Different images have different encodings. */
  lemma ClipboardImageUnique(e: seq<byte>, d: seq<byte>, e': seq<byte>, d': seq<byte>)
    requires ClipboardImage(e, d) == ClipboardImage(e', d') && |ClipboardImage(e, d)| < U64
    ensures e == e' && d == d'
  {
    var tail, tail' := EncodeVarint(|d|) + d, EncodeVarint(|d'|) + d';
    assert ClipboardImage(e, d)[1..] == EncodeVarint(|e|) + e + tail;
    assert ClipboardImage(e', d')[1..] == EncodeVarint(|e'|) + e' + tail';
    LengthFirst(e, tail, e', tail');
    assert tail == tail + [] && tail' == tail' + [];
    LengthFirst(d, [], d', []);
  }

  // ---------- Frames ----------

  datatype Direction = ClientToServer | ServerToClient

  datatype Limits = Limits(normal: nat, large: nat, clipboard: nat)

  const DEFAULT_LIMITS: Limits := Limits(MAX_FRAME_SIZE, MAX_GRAPHICS_FRAME_SIZE, MAX_CLIPBOARD_IMAGE_PAYLOAD)

  predicate IsLarge(dir: Direction, tag: nat) {
    (dir.ClientToServer? && tag == 2) || (dir.ServerToClient? && (tag == 1 || tag == 3))
  }

  function PayloadLimit(dir: Direction, tag: nat, limits: Limits): nat {
    if IsLarge(dir, tag) then limits.large else limits.normal
  }

  /** A frame of a variant: exact length prefix, canonical tag, payload within its limit. */
  predicate TaggedFrame(f: seq<byte>, tag: nat, dir: Direction, limits: Limits) {
    && LENGTH_PREFIX_BYTES < |f| < U32
    && f[..4] == ToLe(|f| - 4, 4)
    && tag < U32 && VarintAt(f, 4, tag, 4 + |EncodeVarint(tag)|)
    && |f| - 4 <= PayloadLimit(dir, tag, limits)
  }

  /** A frame the reader is meant to accept: clipboard images are checked to the last byte. */
  ghost predicate IsFrame(f: seq<byte>, tag: nat, dir: Direction, limits: Limits, utf8: Utf8) {
    && TaggedFrame(f, tag, dir, limits)
    && (dir.ClientToServer? && tag == 2 ==> IsClipboardImage(f[4..], limits.clipboard, utf8))
  }

  // ---------- Reading a frame ----------

  /** What happens to reads once all the data has been delivered. */
  datatype Ending = Eof | EofError | OtherError

  datatype Stream = Stream(data: seq<byte>, ending: Ending)

  /** Whether the budget granted its permits in time, and whether the buffer could be reserved. */
  datatype Grants = Grants(permits: bool, memory: bool)

  const GRANTED: Grants := Grants(true, true)

  /** The error of a read that needs more bytes than are left. */
  function ShortRead(st: Stream, pos: nat, needed: nat, already: nat): Error
    requires pos <= |st.data|
  {
    if st.ending.OtherError? then Io else UnexpectedEof(needed, already + (|st.data| - pos))
  }

  datatype Outcome = Outcome(result: Result<Option<seq<byte>>, Error>, pos: nat)

  function ReadFrame(st: Stream, pos: nat, dir: Direction, limits: Limits, grants: Grants, utf8: Utf8): Outcome
    requires pos <= |st.data|
  {
    var left := |st.data| - pos;
    if left == 0 then Outcome(if st.ending.Eof? then Ok(None) else Err(Io), pos)
    else if left < 4 then Outcome(Err(ShortRead(st, pos + 1, 4, 1)), |st.data|)
    else if Le(st.data[pos..pos + 4]) == 0 then Outcome(Err(ZeroLength), pos + 4)
    else if left < 5 then Outcome(Err(ShortRead(st, pos + 4, 1, 0)), |st.data|)
    else ReadTagged(st, pos, Le(st.data[pos..pos + 4]), dir, limits, grants, utf8)
  }

  function ReadTagged(st: Stream, pos: nat, claimed: nat, dir: Direction, limits: Limits, grants: Grants, utf8: Utf8)
    : Outcome
    requires pos + 5 <= |st.data| && claimed > 0
  {
    var width := TagWidth(st.data[pos + 4]);
    if width == 0 then Outcome(Err(InvalidTag), pos + 5)
    else if width > claimed then Outcome(Err(UnexpectedEof(width, claimed)), pos + 5)
    else if pos + 4 + width > |st.data| then Outcome(Err(ShortRead(st, pos + 5, width, 1)), |st.data|)
    else
      match DecodeCompact(st.data[pos + 4..pos + 4 + width])
      case Err(e) => Outcome(Err(e), pos + 4 + width)
      case Ok(tag) => ReadPayload(st, pos, claimed, tag, width, dir, limits, grants, utf8)
  }

  function ReadPayload(st: Stream, pos: nat, claimed: nat, tag: nat, width: nat,
                       dir: Direction, limits: Limits, grants: Grants, utf8: Utf8)
    : Outcome
    requires pos + 4 + width <= |st.data| && width <= claimed
  {
    var max := PayloadLimit(dir, tag, limits);
    var total := 4 + claimed;
    if claimed > max then Outcome(Err(Oversized(claimed, max)), pos + 4 + width)
    else if total >= U32 then Outcome(Err(Allocation(total)), pos + 4 + width)
    else if !grants.permits then Outcome(Err(SlowConsumer(total)), pos + 4 + width)
    else if !grants.memory then Outcome(Err(Allocation(total)), pos + 4 + width)
    else if pos + total > |st.data| then Outcome(Err(ShortRead(st, pos + 4 + width, claimed, width)), |st.data|)
    else Outcome(JudgeFrame(st.data[pos..pos + total], tag, dir, limits, utf8), pos + total)
  }

  /** A frame that is all there: a clipboard image still has to be one. */
  function JudgeFrame(framed: seq<byte>, tag: nat, dir: Direction, limits: Limits, utf8: Utf8)
    : Result<Option<seq<byte>>, Error>
    requires |framed| >= 4
  {
    if dir.ClientToServer? && tag == 2 then
      match ValidateClipboardImage(framed[4..], limits.clipboard, utf8)
      case Err(e) => Err(e)
      case Ok(_) => Ok(Some(framed))
    else Ok(Some(framed))
  }

  /** The data from `pos` starts with `f`. */
  predicate StartsWith(data: seq<byte>, pos: nat, f: seq<byte>) {
    pos + |f| <= |data| && data[pos..pos + |f|] == f
  }

  lemma Parts(data: seq<byte>, pos: nat, f: seq<byte>, width: nat)
    requires StartsWith(data, pos, f) && 4 + width <= |f|
    ensures data[pos..pos + 4] == f[..4] && data[pos + 4..pos + 4 + width] == f[4..4 + width]
  {
    SliceOfSlice(data, pos, pos + |f|, 0, 4);
    SliceOfSlice(data, pos, pos + |f|, 4, 4 + width);
  }

  lemma SliceOfSlice(s: seq<byte>, a: nat, b: nat, c: nat, d: nat)
    requires a <= b <= |s| && c <= d <= b - a
    ensures s[a..b][c..d] == s[a + c..a + d]
  {
    var x, y := s[a..b][c..d], s[a + c..a + d];
    forall i | 0 <= i < d - c
      ensures x[i] == y[i]
    {
      assert x[i] == s[a..b][c + i] == s[a + c + i];
    }
  }

  lemma ReadPayloadSome(st: Stream, pos: nat, claimed: nat, tag: nat, width: nat,
                        dir: Direction, limits: Limits, grants: Grants, utf8: Utf8, f: seq<byte>)
    requires pos + 4 + width <= |st.data| && width <= claimed
    requires ReadPayload(st, pos, claimed, tag, width, dir, limits, grants, utf8).result == Ok(Some(f))
    ensures |f| == 4 + claimed < U32 && StartsWith(st.data, pos, f) && grants == GRANTED
    ensures ReadPayload(st, pos, claimed, tag, width, dir, limits, grants, utf8).pos == pos + |f|
    ensures claimed <= PayloadLimit(dir, tag, limits)
    ensures dir.ClientToServer? && tag == 2 ==> IsClipboardImage(f[4..], limits.clipboard, utf8)
  {
    if dir.ClientToServer? && tag == 2 {
      ClipboardImageIff(f[4..], limits.clipboard, utf8);
    }
  }

  lemma ReadTaggedSome(st: Stream, pos: nat, claimed: nat,
                       dir: Direction, limits: Limits, grants: Grants, utf8: Utf8, f: seq<byte>)
    requires pos + 5 <= |st.data| && claimed > 0 && claimed == Le(st.data[pos..pos + 4])
    requires ReadTagged(st, pos, claimed, dir, limits, grants, utf8).result == Ok(Some(f))
    ensures 5 <= |f| && StartsWith(st.data, pos, f) && grants == GRANTED
    ensures ReadTagged(st, pos, claimed, dir, limits, grants, utf8).pos == pos + |f|
    ensures exists tag: nat :: IsFrame(f, tag, dir, limits, utf8)
  {
    var width := TagWidth(st.data[pos + 4]);
    var raw := st.data[pos + 4..pos + 4 + width];
    var tag := DecodeCompact(raw).value;
    ReadPayloadSome(st, pos, claimed, tag, width, dir, limits, grants, utf8, f);
    Parts(st.data, pos, f, width);
    ToLeLe(f[..4]);
    TagIsCanonical(raw, tag);
    assert IsFrame(f, tag, dir, limits, utf8);
  }

  lemma TagIsCanonical(raw: seq<byte>, tag: nat)
    requires raw != [] && |raw| == TagWidth(raw[0])
    ensures DecodeCompact(raw) == Ok(tag) <==> tag < U32 && raw == EncodeVarint(tag)
  {
    DecodeTagPrefixIff(raw, tag, |raw|);
    assert raw[..|raw|] == raw && raw[0..|raw|] == raw;
  }

  lemma ReadsPayload(st: Stream, pos: nat, dir: Direction, limits: Limits, utf8: Utf8, f: seq<byte>, tag: nat)
    requires pos <= |st.data| && StartsWith(st.data, pos, f) && IsFrame(f, tag, dir, limits, utf8)
    ensures ReadPayload(st, pos, |f| - 4, tag, |EncodeVarint(tag)|, dir, limits, GRANTED, utf8)
         == Outcome(Ok(Some(f)), pos + |f|)
  {
    if dir.ClientToServer? && tag == 2 {
      ClipboardImageIff(f[4..], limits.clipboard, utf8);
    }
  }

  lemma ReadsFrame(st: Stream, pos: nat, dir: Direction, limits: Limits, utf8: Utf8, f: seq<byte>, tag: nat)
    requires pos <= |st.data| && StartsWith(st.data, pos, f) && IsFrame(f, tag, dir, limits, utf8)
    ensures ReadFrame(st, pos, dir, limits, GRANTED, utf8) == Outcome(Ok(Some(f)), pos + |f|)
  {
    var raw := EncodeVarint(tag);
    Powers();
    LeToLe(|f| - 4, 4);
    Parts(st.data, pos, f, |raw|);
    assert st.data[pos + 4] == st.data[pos + 4..pos + 4 + |raw|][0] == raw[0];
    TagIsCanonical(raw, tag);
    ReadsPayload(st, pos, dir, limits, utf8, f, tag);
  }

  lemma ReadFrameSome(st: Stream, pos: nat, dir: Direction, limits: Limits, grants: Grants, utf8: Utf8, f: seq<byte>)
    requires pos <= |st.data| && ReadFrame(st, pos, dir, limits, grants, utf8).result == Ok(Some(f))
    ensures 5 <= |f| && ReadFrame(st, pos, dir, limits, grants, utf8).pos == pos + |f|
    ensures StartsWith(st.data, pos, f) && grants == GRANTED && exists tag: nat :: IsFrame(f, tag, dir, limits, utf8)
  {
    ReadTaggedSome(st, pos, Le(st.data[pos..pos + 4]), dir, limits, grants, utf8, f);
  }

  /** The reader returns a frame exactly when the stream goes on with that frame and its room is granted. */
  lemma ReadFrameIff(st: Stream, pos: nat, dir: Direction, limits: Limits, grants: Grants, utf8: Utf8, f: seq<byte>)
    requires pos <= |st.data|
    ensures ReadFrame(st, pos, dir, limits, grants, utf8).result == Ok(Some(f))
       <==> grants == GRANTED && StartsWith(st.data, pos, f) && exists tag: nat :: IsFrame(f, tag, dir, limits, utf8)
  {
    if ReadFrame(st, pos, dir, limits, grants, utf8).result == Ok(Some(f)) {
      ReadFrameSome(st, pos, dir, limits, grants, utf8, f);
    }
    if tag: nat :| grants == GRANTED && StartsWith(st.data, pos, f) && IsFrame(f, tag, dir, limits, utf8) {
      ReadsFrame(st, pos, dir, limits, utf8, f, tag);
    }
  }

  lemma CutParts(data: seq<byte>, pos: nat, f: seq<byte>, n: nat, a: nat, b: nat)
    requires pos + n == |data| && n <= |f| && data[pos..] == f[..n] && a <= b <= n
    ensures data[pos + a..pos + b] == f[a..b]
  {
    SliceOfSlice(data, pos, |data|, a, b);
    SliceOfSlice(f, 0, n, a, b);
    assert data[pos..|data|] == data[pos..] && f[0..n] == f[..n];
  }

  /** The rest of a stream is the beginning of a frame, and not all of it. */
  ghost predicate CutIn(st: Stream, pos: nat, f: seq<byte>) {
    pos < |st.data| && |st.data| - pos < |f| && st.data[pos..] == f[..|st.data| - pos] && !st.ending.OtherError?
  }

  predicate IsCut(r: Result<Option<seq<byte>>, Error>) {
    r.Err? && r.error.UnexpectedEof?
  }

  lemma CutTagged(st: Stream, pos: nat, dir: Direction, limits: Limits, utf8: Utf8, f: seq<byte>, tag: nat)
    requires CutIn(st, pos, f) && pos + 5 <= |st.data| && IsFrame(f, tag, dir, limits, utf8)
    ensures IsCut(ReadTagged(st, pos, |f| - 4, dir, limits, GRANTED, utf8).result)
  {
    var n, raw := |st.data| - pos, EncodeVarint(tag);
    CutParts(st.data, pos, f, n, 4, 5);
    assert st.data[pos + 4] == st.data[pos + 4..pos + 5][0] == f[4..5][0] == f[4..4 + |raw|][0] == raw[0];
    TagIsCanonical(raw, tag);
    if n >= 4 + |raw| {
      CutParts(st.data, pos, f, n, 4, 4 + |raw|);
    }
  }

  /** A stream that ends anywhere inside a frame is reported as cut short, never as a frame or a clean end. */
  lemma CutShort(st: Stream, pos: nat, dir: Direction, limits: Limits, utf8: Utf8, f: seq<byte>, tag: nat)
    requires CutIn(st, pos, f) && IsFrame(f, tag, dir, limits, utf8)
    ensures IsCut(ReadFrame(st, pos, dir, limits, GRANTED, utf8).result)
  {
    var n := |st.data| - pos;
    if n >= 4 {
      CutParts(st.data, pos, f, n, 0, 4);
      Powers();
      LeToLe(|f| - 4, 4);
    }
    if n >= 5 {
      CutTagged(st, pos, dir, limits, utf8, f, tag);
    }
  }

  // ---------- A whole stream ----------

  function Concat(fs: seq<seq<byte>>): seq<byte> {
    if fs == [] then [] else fs[0] + Concat(fs[1..])
  }

  /** The frames read from a position on, and how the reading ends. */
  datatype Reading = Reading(frames: seq<seq<byte>>, ending: Outcome)

  /** Reads frame after frame until there is none, at positions up to `end`. */
  function ReadAll(read: nat -> Outcome, end: nat, pos: nat): Reading
    decreases end - pos
  {
    var r := read(pos);
    if r.result.Ok? && r.result.value.Some? && pos < r.pos <= end then
      var rest := ReadAll(read, end, r.pos);
      Reading([r.result.value.value] + rest.frames, rest.ending)
    else Reading([], r)
  }

  /** `read` returns, from every position, the one good frame that starts there, and an end only at the end. */
  ghost predicate ReadsAt(read: nat -> Outcome, st: Stream, good: seq<byte> -> bool, pos: nat) {
    && (read(pos).result == Ok(None) <==> st.ending.Eof? && pos == |st.data|)
    && (forall f :: read(pos).result == Ok(Some(f)) <==> StartsWith(st.data, pos, f) && good(f))
    && (forall f :: read(pos).result == Ok(Some(f)) ==> f != [] && read(pos).pos == pos + |f|)
  }

  ghost predicate Reads(read: nat -> Outcome, st: Stream, good: seq<byte> -> bool) {
    forall pos: nat :: pos <= |st.data| ==> ReadsAt(read, st, good, pos)
  }

  predicate All(fs: seq<seq<byte>>, good: seq<byte> -> bool) {
    forall i :: 0 <= i < |fs| ==> good(fs[i])
  }

  lemma StartsWithBoth(data: seq<byte>, pos: nat, a: seq<byte>, b: seq<byte>)
    ensures StartsWith(data, pos, a + b) <==> StartsWith(data, pos, a) && StartsWith(data, pos + |a|, b)
  {
    if pos + |a| + |b| <= |data| {
      var whole := data[pos..pos + |a| + |b|];
      SliceOfSlice(data, pos, pos + |a| + |b|, 0, |a|);
      SliceOfSlice(data, pos, pos + |a| + |b|, |a|, |a| + |b|);
      assert whole == whole[0..|a|] + whole[|a|..|a| + |b|];
    }
  }

  lemma ReadGave(read: nat -> Outcome, st: Stream, good: seq<byte> -> bool, pos: nat, f: seq<byte>)
    requires pos <= |st.data| && Reads(read, st, good)
    ensures read(pos).result == Ok(Some(f)) <==> StartsWith(st.data, pos, f) && good(f)
    ensures read(pos).result == Ok(Some(f)) ==> 0 < |f| <= |st.data| - pos && read(pos).pos == pos + |f|
  {
    assert ReadsAt(read, st, good, pos);
  }

  lemma ReadNone(read: nat -> Outcome, st: Stream, good: seq<byte> -> bool, pos: nat)
    requires pos <= |st.data| && Reads(read, st, good)
    ensures read(pos).result == Ok(None) <==> st.ending.Eof? && pos == |st.data|
  {
    assert ReadsAt(read, st, good, pos);
  }

  lemma AllCons(f: seq<byte>, rest: seq<seq<byte>>, good: seq<byte> -> bool)
    ensures All([f] + rest, good) <==> good(f) && All(rest, good)
    ensures Concat([f] + rest) == f + Concat(rest)
  {
    var fs := [f] + rest;
    assert fs[1..] == rest && fs[0] == f;
    if All(fs, good) {
      forall i | 0 <= i < |rest|
        ensures good(rest[i])
      {
        assert good(fs[i + 1]);
      }
    }
  }

  /** The frames read make up the bytes consumed. */
  lemma {:induction false} ReadAllFrames(read: nat -> Outcome, st: Stream, good: seq<byte> -> bool, pos: nat)
    requires pos <= |st.data| && Reads(read, st, good)
    ensures FramesFrom(st.data, pos, ReadAll(read, |st.data|, pos).frames, good)
    decreases |st.data| - pos
  {
    if GivesFrame(read, pos) {
      var f := read(pos).result.value.value;
      ReadGave(read, st, good, pos, f);
      ReadAllFrames(read, st, good, pos + |f|);
      ReadAllCons(read, |st.data|, pos, f);
      FramesFromCons(st.data, pos, f, ReadAll(read, |st.data|, pos + |f|).frames, good);
    }
  }

  /** Good frames, one after another from a position. */
  predicate FramesFrom(data: seq<byte>, pos: nat, fs: seq<seq<byte>>, good: seq<byte> -> bool) {
    All(fs, good) && StartsWith(data, pos, Concat(fs))
  }

  predicate GivesFrame(read: nat -> Outcome, pos: nat) {
    read(pos).result.Ok? && read(pos).result.value.Some?
  }

  lemma FramesFromCons(data: seq<byte>, pos: nat, f: seq<byte>, rest: seq<seq<byte>>, good: seq<byte> -> bool)
    requires StartsWith(data, pos, f) && good(f) && FramesFrom(data, pos + |f|, rest, good)
    ensures FramesFrom(data, pos, [f] + rest, good)
  {
    AllCons(f, rest, good);
    StartsWithBoth(data, pos, f, Concat(rest));
  }

  lemma ReadAllCons(read: nat -> Outcome, end: nat, pos: nat, f: seq<byte>)
    requires read(pos).result == Ok(Some(f)) && pos < read(pos).pos <= end && read(pos).pos == pos + |f|
    ensures var rest := ReadAll(read, end, pos + |f|);
            ReadAll(read, end, pos) == Reading([f] + rest.frames, rest.ending)
  {
  }

  /** A reading that ends, cleanly exactly when nothing is left. */
  predicate EndsRight(st: Stream, pos: nat, r: Reading) {
    && !(r.ending.result.Ok? && r.ending.result.value.Some?)
    && (r.ending.result == Ok(None) <==> st.ending.Eof? && pos + |Concat(r.frames)| == |st.data|)
  }

  lemma EndsRightCons(st: Stream, pos: nat, f: seq<byte>, rest: Reading)
    requires EndsRight(st, pos + |f|, rest)
    ensures EndsRight(st, pos, Reading([f] + rest.frames, rest.ending))
  {
    assert ([f] + rest.frames)[1..] == rest.frames;
  }

  /** The end is reported exactly when nothing is left. */
  lemma {:induction false} ReadAllEnding(read: nat -> Outcome, st: Stream, good: seq<byte> -> bool, pos: nat)
    requires pos <= |st.data| && Reads(read, st, good)
    ensures EndsRight(st, pos, ReadAll(read, |st.data|, pos))
    decreases |st.data| - pos
  {
    if GivesFrame(read, pos) {
      var f := read(pos).result.value.value;
      ReadGave(read, st, good, pos, f);
      ReadAllEnding(read, st, good, pos + |f|);
      ReadAllCons(read, |st.data|, pos, f);
      EndsRightCons(st, pos, f, ReadAll(read, |st.data|, pos + |f|));
    } else {
      ReadNone(read, st, good, pos);
    }
  }

  /** Good frames written one after another are read back as they are, then the end of the stream. */
  lemma {:induction false} ReadsBack(read: nat -> Outcome, st: Stream, good: seq<byte> -> bool, pos: nat,
                                     fs: seq<seq<byte>>)
    requires pos <= |st.data| && Reads(read, st, good) && st.ending.Eof? && All(fs, good)
    requires StartsWith(st.data, pos, Concat(fs)) && pos + |Concat(fs)| == |st.data|
    ensures ReadAll(read, |st.data|, pos).frames == fs && ReadAll(read, |st.data|, pos).ending.result == Ok(None)
    decreases |fs|
  {
    if fs == [] {
      ReadNone(read, st, good, pos);
    } else {
      var f, rest := fs[0], fs[1..];
      assert fs == [f] + rest;
      AllCons(f, rest, good);
      StartsWithBoth(st.data, pos, f, Concat(rest));
      ReadGave(read, st, good, pos, f);
      ReadsBack(read, st, good, pos + |f|, rest);
    }
  }

  ghost predicate WellFormed(f: seq<byte>, dir: Direction, limits: Limits, utf8: Utf8) {
    exists tag: nat :: IsFrame(f, tag, dir, limits, utf8)
  }

  /** The frame reader with granted budget, as a function of the position. */
  function FrameReader(st: Stream, dir: Direction, limits: Limits, utf8: Utf8): nat -> Outcome {
    (pos: nat) => if pos <= |st.data| then ReadFrame(st, pos, dir, limits, GRANTED, utf8) else Outcome(Err(Io), pos)
  }

  ghost function Good(dir: Direction, limits: Limits, utf8: Utf8): seq<byte> -> bool {
    f => WellFormed(f, dir, limits, utf8)
  }

  lemma NoneOnlyAtEnd(st: Stream, pos: nat, dir: Direction, limits: Limits, utf8: Utf8)
    requires pos <= |st.data|
    ensures ReadFrame(st, pos, dir, limits, GRANTED, utf8).result == Ok(None) <==> st.ending.Eof? && pos == |st.data|
  {
  }

  lemma FrameReaderReads(st: Stream, dir: Direction, limits: Limits, utf8: Utf8)
    ensures Reads(FrameReader(st, dir, limits, utf8), st, Good(dir, limits, utf8))
  {
    var read, good := FrameReader(st, dir, limits, utf8), Good(dir, limits, utf8);
    forall pos: nat | pos <= |st.data|
      ensures ReadsAt(read, st, good, pos)
    {
      NoneOnlyAtEnd(st, pos, dir, limits, utf8);
      forall f
        ensures read(pos).result == Ok(Some(f)) <==> StartsWith(st.data, pos, f) && good(f)
        ensures read(pos).result == Ok(Some(f)) ==> f != [] && read(pos).pos == pos + |f|
      {
        ReadFrameIff(st, pos, dir, limits, GRANTED, utf8, f);
        if read(pos).result == Ok(Some(f)) {
          ReadFrameSome(st, pos, dir, limits, GRANTED, utf8, f);
        }
      }
    }
  }

  /** Every stream: what is read is a framing of what was consumed, and it ends cleanly only when nothing is left. */
  lemma StreamMeaning(st: Stream, dir: Direction, limits: Limits, utf8: Utf8)
    ensures var r := ReadAll(FrameReader(st, dir, limits, utf8), |st.data|, 0);
            && All(r.frames, Good(dir, limits, utf8))
            && StartsWith(st.data, 0, Concat(r.frames))
            && (r.ending.result == Ok(None) <==> st.ending.Eof? && Concat(r.frames) == st.data)
  {
    FrameReaderReads(st, dir, limits, utf8);
    ReadAllFrames(FrameReader(st, dir, limits, utf8), st, Good(dir, limits, utf8), 0);
    ReadAllEnding(FrameReader(st, dir, limits, utf8), st, Good(dir, limits, utf8), 0);
    assert st.data[0..|st.data|] == st.data;
  }

  /** Frames written one after another are read back as they are. */
  lemma StreamRoundTrip(fs: seq<seq<byte>>, dir: Direction, limits: Limits, utf8: Utf8)
    requires All(fs, Good(dir, limits, utf8))
    ensures var st := Stream(Concat(fs), Eof);
            var r := ReadAll(FrameReader(st, dir, limits, utf8), |st.data|, 0);
            r.frames == fs && r.ending.result == Ok(None)
  {
    var st := Stream(Concat(fs), Eof);
    FrameReaderReads(st, dir, limits, utf8);
    assert st.data[0..|st.data|] == st.data;
    ReadsBack(FrameReader(st, dir, limits, utf8), st, Good(dir, limits, utf8), 0, fs);
  }

  /** The bytes of a stream can be cut into frames in at most one way. */
  lemma FramingUnique(fs: seq<seq<byte>>, gs: seq<seq<byte>>, dir: Direction, limits: Limits, utf8: Utf8)
    requires All(fs, Good(dir, limits, utf8)) && All(gs, Good(dir, limits, utf8)) && Concat(fs) == Concat(gs)
    ensures fs == gs
  {
    StreamRoundTrip(fs, dir, limits, utf8);
    StreamRoundTrip(gs, dir, limits, utf8);
  }

  // ---------- Frames handed over as bytes ----------

  /** The bincode decoding of a 32-bit variant tag, which takes longer encodings than needed too. */
  function BincodeTag(p: seq<byte>): Result<nat, Error> {
    if p == [] then Err(Bincode)
    else
      var width := TagWidth(p[0]);
      if width == 0 || width > |p| then Err(Bincode)
      else if width == 1 then Ok(p[0])
      else Ok(Le(p[1..width]))
  }

  function FramePayload(bytes: seq<byte>): Result<seq<byte>, Error> {
    if |bytes| < 4 then Err(UnexpectedEof(4, |bytes|))
    else
      var claimed := Le(bytes[..4]);
      if claimed > MAX_GRAPHICS_FRAME_SIZE then Err(Oversized(claimed, MAX_GRAPHICS_FRAME_SIZE))
      else if |bytes| < 4 + claimed then Err(UnexpectedEof(4 + claimed, |bytes|))
      else if |bytes| > 4 + claimed then Err(Bincode)
      else Ok(bytes[4..])
  }

  function FrameVariantTag(bytes: seq<byte>): Result<nat, Error> {
    match FramePayload(bytes)
    case Err(e) => Err(e)
    case Ok(p) => BincodeTag(p)
  }

  function ValidateRawFrame(bytes: seq<byte>, dir: Direction): Result<(), Error> {
    if |bytes| < 4 then Err(UnexpectedEof(4, |bytes|))
    else
      var claimed := Le(bytes[..4]);
      if claimed == 0 then Err(ZeroLength)
      else
        match DecodeTagPrefix(bytes[4..])
        case Err(e) => Err(e)
        case Ok((tag, _)) =>
          var max := PayloadLimit(dir, tag, DEFAULT_LIMITS);
          if claimed > max then Err(Oversized(claimed, max))
          else
            match FrameVariantTag(bytes)
            case Err(e) => Err(e)
            case Ok(_) => Ok(())
  }

  lemma BincodeReadsCanonical(p: seq<byte>, tag: nat)
    requires tag < U32 && VarintAt(p, 0, tag, |EncodeVarint(tag)|)
    ensures BincodeTag(p) == Ok(tag)
  {
    var raw := EncodeVarint(tag);
    assert p[0] == p[0..|raw|][0] == raw[0];
    if |raw| > 1 {
      assert p[1..|raw|] == p[0..|raw|][1..] == raw[1..];
      MarkedIff(raw, tag);
    }
  }

  lemma TagAtStart(f: seq<byte>, tag: nat)
    requires |f| >= 4
    ensures VarintAt(f, 4, tag, 4 + |EncodeVarint(tag)|) <==> VarintAt(f[4..], 0, tag, |EncodeVarint(tag)|)
  {
    var n := |EncodeVarint(tag)|;
    if 4 + n <= |f| {
      assert f[4..4 + n] == f[4..][0..n];
    }
  }

  lemma TaggedFrameAccepted(f: seq<byte>, tag: nat, dir: Direction)
    requires TaggedFrame(f, tag, dir, DEFAULT_LIMITS)
    ensures ValidateRawFrame(f, dir).Ok? && FrameVariantTag(f) == Ok(tag)
  {
    Powers();
    LeToLe(|f| - 4, 4);
    TagAtStart(f, tag);
    DecodeTagPrefixIff(f[4..], tag, |EncodeVarint(tag)|);
    BincodeReadsCanonical(f[4..], tag);
  }

  lemma AcceptedIsTaggedFrame(f: seq<byte>, dir: Direction)
    requires ValidateRawFrame(f, dir).Ok?
    ensures TaggedFrame(f, DecodeTagPrefix(f[4..]).value.0, dir, DEFAULT_LIMITS)
  {
    var (tag, width) := DecodeTagPrefix(f[4..]).value;
    DecodeTagPrefixIff(f[4..], tag, width);
    TagAtStart(f, tag);
    ToLeLe(f[..4]);
  }

  /** `validate_raw_frame` accepts exactly the tagged frames within the default limits, and then the tag is theirs. */
  lemma ValidateRawFrameIff(f: seq<byte>, dir: Direction)
    ensures ValidateRawFrame(f, dir).Ok? <==> exists tag: nat :: TaggedFrame(f, tag, dir, DEFAULT_LIMITS)
    ensures forall tag: nat :: TaggedFrame(f, tag, dir, DEFAULT_LIMITS) ==> FrameVariantTag(f) == Ok(tag)
  {
    if ValidateRawFrame(f, dir).Ok? {
      AcceptedIsTaggedFrame(f, dir);
    }
    forall tag: nat | TaggedFrame(f, tag, dir, DEFAULT_LIMITS)
      ensures ValidateRawFrame(f, dir).Ok? && FrameVariantTag(f) == Ok(tag)
    {
      TaggedFrameAccepted(f, tag, dir);
    }
  }

  /** Whatever the reader returns under limits no wider than the default passes as a raw frame with the same tag. */
  lemma ReadFramesAreValid(st: Stream, pos: nat, dir: Direction, limits: Limits, grants: Grants, utf8: Utf8, f: seq<byte>)
    requires pos <= |st.data| && limits.normal <= MAX_FRAME_SIZE && limits.large <= MAX_GRAPHICS_FRAME_SIZE
    requires ReadFrame(st, pos, dir, limits, grants, utf8).result == Ok(Some(f))
    ensures ValidateRawFrame(f, dir).Ok?
    ensures exists tag: nat :: IsFrame(f, tag, dir, limits, utf8) && FrameVariantTag(f) == Ok(tag)
  {
    ReadFrameSome(st, pos, dir, limits, grants, utf8, f);
    var tag: nat :| IsFrame(f, tag, dir, limits, utf8);
    TaggedFrameAccepted(f, tag, dir);
  }

  // ---------- The reader as code ----------

  lemma ThreeSlices(s: seq<byte>, a: nat, b: nat, c: nat, d: nat)
    requires a <= b <= c <= d <= |s|
    ensures s[a..b] + s[b..c] + s[c..d] == s[a..d]
  {
  }

  /** A connection's receiving side: a read delivers some of the bytes asked for, as few as it likes. */
  class Connection {
    const stream: Stream
    var pos: nat

    ghost predicate Valid()
      reads this
    {
      pos <= |stream.data|
    }

    constructor (s: Stream)
      ensures Valid() && stream == s && pos == 0
    {
      stream := s;
      pos := 0;
    }

    method Read(want: nat) returns (r: Result<seq<byte>, Error>)
      requires Valid() && want > 0
      modifies this
      ensures Valid()
      ensures old(pos) < |stream.data| ==>
                0 < pos - old(pos) <= want && r == Ok(stream.data[old(pos)..pos])
      ensures old(pos) == |stream.data| ==>
                && pos == old(pos)
                && r == match stream.ending
                        case Eof => Ok([])
                        case EofError => Err(UnexpectedEof(0, 0))
                        case OtherError => Err(Io)
    {
      if pos == |stream.data| {
        match stream.ending
        case Eof => return Ok([]);
        case EofError => return Err(UnexpectedEof(0, 0));
        case OtherError => return Err(Io);
      }
      var n :| 0 < n <= want && pos + n <= |stream.data|;
      r := Ok(stream.data[pos..pos + n]);
      pos := pos + n;
    }

    method ReadExactCounted(size: nat, needed: nat, already: nat) returns (r: Result<seq<byte>, Error>)
      requires Valid()
      modifies this
      ensures Valid()
      ensures if old(pos) + size <= |stream.data|
              then pos == old(pos) + size && r == Ok(stream.data[old(pos)..pos])
              else r == Err(ShortRead(stream, old(pos), needed, already)) && pos == |stream.data|
    {
      var dst: seq<byte> := [];
      while |dst| < size
        invariant Valid() && old(pos) <= pos <= old(pos) + size
        invariant dst == stream.data[old(pos)..pos]
      {
        var start := pos;
        var got := Read(size - |dst|);
        match got
        case Err(Io) => return Err(Io);
        case Err(_) => return Err(UnexpectedEof(needed, already + |dst|));
        case Ok(bytes) =>
          if bytes == [] {
            return Err(UnexpectedEof(needed, already + |dst|));
          }
          assert stream.data[old(pos)..pos] == stream.data[old(pos)..start] + stream.data[start..pos];
          dst := dst + bytes;
      }
      r := Ok(dst);
    }
  
    method ReadHerdrFrame(dir: Direction, limits: Limits, grants: Grants, utf8: Utf8)
      returns (r: Result<Option<seq<byte>>, Error>)
      requires Valid()
      modifies this
      ensures Valid() && Outcome(r, pos) == ReadFrame(stream, old(pos), dir, limits, grants, utf8)
    {
      ghost var start := pos;
      var first := Read(1);
      match first
      case Err(_) => return Err(Io);
      case Ok(one) =>
        if one == [] {
          return Ok(None);
        }
        var rest := ReadExactCounted(3, 4, 1);
        if rest.Err? {
          return Err(rest.error);
        }
        var lenBuf := one + rest.value;
        assert lenBuf == stream.data[start..start + 4];
        if Le(lenBuf) == 0 {
          return Err(ZeroLength);
        }
        var marker := ReadExactCounted(1, 1, 0);
        if marker.Err? {
          return Err(marker.error);
        }
        r := ReadTag(lenBuf, marker.value[0], start, dir, limits, grants, utf8);
    }

    method ReadTag(lenBuf: seq<byte>, marker: byte, ghost start: nat,
                   dir: Direction, limits: Limits, grants: Grants, utf8: Utf8)
      returns (r: Result<Option<seq<byte>>, Error>)
      requires Valid() && pos == start + 5 && lenBuf == stream.data[start..start + 4]
      requires Le(lenBuf) > 0 && marker == stream.data[start + 4]
      modifies this
      ensures Valid() && Outcome(r, pos) == ReadTagged(stream, start, Le(lenBuf), dir, limits, grants, utf8)
    {
      var claimed := Le(lenBuf);
      var width := TagWidth(marker);
      if width == 0 {
        return Err(InvalidTag);
      }
      if width > claimed {
        return Err(UnexpectedEof(width, claimed));
      }
      var tagBytes := [marker];
      if width > 1 {
        var more := ReadExactCounted(width - 1, width, 1);
        if more.Err? {
          return Err(more.error);
        }
        tagBytes := tagBytes + more.value;
      }
      assert tagBytes == stream.data[start + 4..start + 4 + width];
      var tag := DecodeCompact(tagBytes);
      if tag.Err? {
        return Err(tag.error);
      }
      r := ReadBody(lenBuf, tagBytes, tag.value, start, dir, limits, grants, utf8);
    }

    method ReadBody(lenBuf: seq<byte>, tagBytes: seq<byte>, tag: nat, ghost start: nat,
                    dir: Direction, limits: Limits, grants: Grants, utf8: Utf8)
      returns (r: Result<Option<seq<byte>>, Error>)
      requires Valid() && pos == start + 4 + |tagBytes| && |tagBytes| <= Le(lenBuf)
      requires lenBuf == stream.data[start..start + 4] && tagBytes == stream.data[start + 4..pos]
      modifies this
      ensures Valid()
      ensures Outcome(r, pos)
           == ReadPayload(stream, start, Le(lenBuf), tag, |tagBytes|, dir, limits, grants, utf8)
    {
      var claimed, max := Le(lenBuf), PayloadLimit(dir, tag, limits);
      if claimed > max {
        return Err(Oversized(claimed, max));
      }
      var total := 4 + claimed;
      if total >= U32 {
        return Err(Allocation(total));
      }
      if !grants.permits {
        return Err(SlowConsumer(total));
      }
      if !grants.memory {
        return Err(Allocation(total));
      }
      var body := ReadExactCounted(claimed - |tagBytes|, claimed, |tagBytes|);
      if body.Err? {
        return Err(body.error);
      }
      var framed := lenBuf + tagBytes + body.value;
      ThreeSlices(stream.data, start, start + 4, start + 4 + |tagBytes|, start + total);
      r := AcceptFrame(framed, tag, dir, limits, utf8);
    }

    static method AcceptFrame(framed: seq<byte>, tag: nat, dir: Direction, limits: Limits, utf8: Utf8)
      returns (r: Result<Option<seq<byte>>, Error>)
      requires |framed| >= 4
      ensures r == JudgeFrame(framed, tag, dir, limits, utf8)
    {
      if dir.ClientToServer? && tag == 2 {
        var valid := ValidateClipboardImage(framed[4..], limits.clipboard, utf8);
        if valid.Err? {
          return Err(valid.error);
        }
      }
      r := Ok(Some(framed));
    }
  }
}
