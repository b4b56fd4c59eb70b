/** The checksummed frame format (src/protocol.cpp). */
module Frames {
  import opened Foundation
  import opened LittleEndian
  import Crc

  const MAX_FRAME_BYTES := 0x10_0000
  const HEADER := 28
  const PROTOCOL_VERSION := 1

  /** The configured payload bound. */
  type FrameLimit = n: nat | n <= MAX_FRAME_BYTES

  /** F O B S */
  const MAGIC: seq<Byte> := [70, 79, 66, 83]

  const HELLO := 1
  const SHUTDOWN := 102

  /** `kind` is the raw message type; 0 is the invalid type of an empty frame. */
  datatype Frame = Frame(kind: nat, flags: Byte, requestId: U64, payload: seq<Byte>)

  const EMPTY_FRAME := Frame(0, 0, 0, [])

  /** The range test the decoder makes; unassigned numbers inside it pass. */
  predicate KnownType(raw: nat) {
    HELLO <= raw <= SHUTDOWN && raw != 0
  }

  predicate Encodable(f: Frame, limit: FrameLimit) {
    KnownType(f.kind) && |f.payload| <= limit
  }

  // ---------------------------------------------------------------------------------
  // The format
  // ---------------------------------------------------------------------------------

  function Header(f: Frame): (h: seq<Byte>)
    ensures |h| == HEADER
  {
    MAGIC + Le(PROTOCOL_VERSION, 2) + Le(f.kind, 2) + [f.flags, 0, 0, 0]
    + Le(f.requestId, 8) + Le(|f.payload|, 4) + Le(Crc.ChecksumValue(f.payload), 4)
  }

  function Image(f: Frame): seq<Byte> {
    Header(f) + f.payload
  }

  function Encode(f: Frame, limit: FrameLimit): Result<seq<Byte>> {
    if !KnownType(f.kind) then Err(ProtocolViolation)
    else if |f.payload| > limit then Err(OversizedPayload)
    else Ok(Image(f))
  }

  /** Why a frame is refused before its checksum is looked at. */
  function HeaderProblem(data: seq<Byte>, limit: FrameLimit): Option<ErrorCode> {
    if |data| < HEADER then Some(ProtocolViolation)
    else if data[..4] != MAGIC then Some(ProtocolViolation)
    else if FromLe(data[4..6]) != PROTOCOL_VERSION then Some(UnsupportedVersion)
    else if !KnownType(FromLe(data[6..8])) then Some(ProtocolViolation)
    else if data[9..12] != [0, 0, 0] then Some(ProtocolViolation)
    else if FromLe(data[20..24]) > limit then Some(OversizedPayload)
    else if |data| != HEADER + FromLe(data[20..24]) then Some(ProtocolViolation)
    else None
  }

  function Decode(data: seq<Byte>, limit: FrameLimit): Result<Frame> {
    if HeaderProblem(data, limit).Some? then Err(HeaderProblem(data, limit).value)
    else if FromLe(data[24..28]) != Crc.ChecksumValue(data[HEADER..]) then Err(IntegrityFailure)
    else
      FromLeIsBounded(data[12..20]);
      Widths();
      Ok(Frame(FromLe(data[6..8]), data[8], FromLe(data[12..20]), data[HEADER..]))
  }

  lemma Fields(a: seq<Byte>, b: seq<Byte>, c: seq<Byte>, d: seq<Byte>, e: seq<Byte>, f: seq<Byte>, g: seq<Byte>)
    requires |a| == |d| == |f| == |g| == 4 && |b| == |c| == 2 && |e| == 8
    ensures var h := a + b + c + d + e + f + g;
            && |h| == HEADER && h[..4] == a && h[4..6] == b && h[6..8] == c && h[8] == d[0] && h[9..12] == d[1..]
            && h[12..20] == e && h[20..24] == f && h[24..28] == g
  {
  }

  /** The fields of a header image, one by one. */
  lemma HeaderFields(f: Frame)
    ensures var h := Header(f);
            && h[..4] == MAGIC && h[4..6] == Le(PROTOCOL_VERSION, 2) && h[6..8] == Le(f.kind, 2)
            && h[8] == f.flags && h[9..12] == [0, 0, 0] && h[12..20] == Le(f.requestId, 8)
            && h[20..24] == Le(|f.payload|, 4) && h[24..28] == Le(Crc.ChecksumValue(f.payload), 4)
  {
    hide Le, Crc.ChecksumValue;
    Fields(MAGIC, Le(PROTOCOL_VERSION, 2), Le(f.kind, 2), [f.flags, 0, 0, 0],
           Le(f.requestId, 8), Le(|f.payload|, 4), Le(Crc.ChecksumValue(f.payload), 4));
  }

  lemma ImageFields(f: Frame)
    ensures var i := Image(f);
            && |i| == HEADER + |f.payload|
            && i[..4] == MAGIC && i[4..6] == Le(PROTOCOL_VERSION, 2) && i[6..8] == Le(f.kind, 2)
            && i[8] == f.flags && i[9..12] == [0, 0, 0] && i[12..20] == Le(f.requestId, 8)
            && i[20..24] == Le(|f.payload|, 4) && i[24..28] == Le(Crc.ChecksumValue(f.payload), 4)
            && i[HEADER..] == f.payload
  {
    hide Header, Le, Crc.ChecksumValue;
    HeaderFields(f);
    var i := Image(f);
    assert i[..HEADER] == Header(f);
    assert forall a: nat, b: nat :: a <= b <= HEADER ==> i[a..b] == i[..HEADER][a..b];
  }

  /** Decoding an encoded frame gives the frame back. */
  lemma DecodeInvertsEncode(f: Frame, limit: FrameLimit)
    requires Encodable(f, limit)
    ensures Decode(Image(f), limit) == Ok(f)
  {
    hide Header, Le, FromLe, Crc.ChecksumValue, Image, Pow256;
    ImageFields(f);
    Widths();
    ReadsBack(PROTOCOL_VERSION, 2);
    ReadsBack(f.kind, 2);
    ReadsBack(f.requestId, 8);
    ReadsBack(|f.payload|, 4);
    ReadsBack(Crc.ChecksumValue(f.payload), 4);
  }

  /** Whatever decodes is the encoding of what it decodes to: frames are canonical. */
  lemma EncodeInvertsDecode(data: seq<Byte>, limit: FrameLimit)
    requires Decode(data, limit).Ok?
    ensures Encode(Decode(data, limit).value, limit) == Ok(data)
  {
    hide Le, FromLe, Crc.ChecksumValue, Pow256;
    var f := Decode(data, limit).value;
    WritesBack(data[4..6]);
    WritesBack(data[6..8]);
    WritesBack(data[12..20]);
    WritesBack(data[20..24]);
    WritesBack(data[24..28]);
    assert Le(PROTOCOL_VERSION, 2) == data[4..6] && Le(f.kind, 2) == data[6..8] && Le(f.requestId, 8) == data[12..20];
    assert Le(|f.payload|, 4) == data[20..24] && Le(Crc.ChecksumValue(f.payload), 4) == data[24..28];
    assert [f.flags, 0, 0, 0] == [data[8]] + data[9..12];
    assert data == data[..4] + data[4..6] + data[6..8] + ([data[8]] + data[9..12]) + data[12..20] + data[20..24]
                   + data[24..28] + data[HEADER..];
  }

  /** A frame whose payload was altered inside one stretch of up to four bytes is refused by
      its checksum. */
  lemma AlteredPayloadIsRefused(
    f: Frame, limit: FrameLimit, before: seq<Byte>, a: seq<Byte>, b: seq<Byte>, after: seq<Byte>)
    requires Encodable(f, limit) && f.payload == before + a + after
    requires |a| == |b| <= 4 && a != b
    ensures Decode(Header(f) + (before + b + after), limit) == Err(IntegrityFailure)
  {
    hide Le, FromLe, Crc.ChecksumValue, Pow256, Header;
    var altered := Header(f) + (before + b + after);
    HeaderFields(f);
    assert altered[..HEADER] == Header(f) && altered[HEADER..] == before + b + after;
    assert forall i: nat, j: nat :: i <= j <= HEADER ==> altered[i..j] == altered[..HEADER][i..j];
    Widths();
    ReadsBack(PROTOCOL_VERSION, 2);
    ReadsBack(f.kind, 2);
    ReadsBack(|f.payload|, 4);
    ReadsBack(Crc.ChecksumValue(f.payload), 4);
    Crc.BurstsChangeTheValue(before, a, b, after);
  }

  // ---------------------------------------------------------------------------------
  // Encoding and decoding in place
  // ---------------------------------------------------------------------------------

  method WriteHeader(image: array<Byte>, f: Frame)
    requires image.Length >= HEADER && |f.payload| <= MAX_FRAME_BYTES
    modifies image
    ensures image[..HEADER] == Header(f)
    ensures forall k :: HEADER <= k < image.Length ==> image[k] == old(image[k])
  {
    hide Le, Crc.ChecksumValue, Crc.Checksum;
    for i := 0 to 4
      invariant image[..i] == MAGIC[..i]
      invariant forall k :: HEADER <= k < image.Length ==> image[k] == old(image[k])
    {
      image[i] := MAGIC[i];
    }
    Write(image, 4, PROTOCOL_VERSION, 2);
    Write(image, 6, f.kind, 2);
    ghost var types := image[..8];
    image[8] := f.flags;
    image[9], image[10], image[11] := 0, 0, 0;
    assert image[..12] == types + [f.flags, 0, 0, 0];
    Write(image, 12, f.requestId, 8);
    Write(image, 20, |f.payload|, 4);
    var crc := Crc.Crc32(f.payload);
    ChecksumNumber(f.payload, crc);
    Write(image, 24, crc as int, 4);
  }

  lemma ChecksumNumber(payload: seq<Byte>, crc: bv32)
    requires crc == Crc.Checksum(payload)
    ensures crc as int == Crc.ChecksumValue(payload)
  {
    hide Crc.Checksum;
  }

  method EncodeFrame(f: Frame, limit: FrameLimit) returns (r: Result<seq<Byte>>)
    ensures r == Encode(f, limit)
  {
    hide Header;
    if !KnownType(f.kind) {
      return Err(ProtocolViolation);
    }
    if |f.payload| > limit {
      return Err(OversizedPayload);
    }
    var image := new Byte[HEADER + |f.payload|](i => 0);
    WriteHeader(image, f);
    for i := 0 to |f.payload|
      invariant image[..HEADER] == Header(f)
      invariant image[HEADER..HEADER + i] == f.payload[..i]
    {
      image[HEADER + i] := f.payload[i];
    }
    assert f.payload[..|f.payload|] == f.payload;
    assert image[..] == image[..HEADER] + image[HEADER..HEADER + |f.payload|];
    return Ok(image[..]);
  }

  method DecodeFrame(data: seq<Byte>, limit: FrameLimit) returns (r: Result<Frame>)
    ensures r == Decode(data, limit)
  {
    hide FromLe, Crc.Checksum;
    if |data| < HEADER {
      return Err(ProtocolViolation);
    }
    if data[..4] != MAGIC {
      return Err(ProtocolViolation);
    }
    var version := Read(data, 4, 2);
    if version != PROTOCOL_VERSION {
      return Err(UnsupportedVersion);
    }
    var kind := Read(data, 6, 2);
    if !KnownType(kind) {
      return Err(ProtocolViolation);
    }
    if data[9] != 0 || data[10] != 0 || data[11] != 0 {
      return Err(ProtocolViolation);
    }
    var length := Read(data, 20, 4);
    if length > limit {
      return Err(OversizedPayload);
    }
    if |data| != HEADER + length {
      return Err(ProtocolViolation);
    }
    var expected := Read(data, 24, 4);
    var actual := Crc.Crc32(data[HEADER..]);
    if expected != actual as int {
      return Err(IntegrityFailure);
    }
    var requestId := Read(data, 12, 8);
    FromLeIsBounded(data[12..20]);
    Widths();
    return Ok(Frame(kind, data[8], requestId, data[HEADER..]));
  }
}
