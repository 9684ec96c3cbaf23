/**
 DD-008 frames (host/dd008.py): a header, a payload and their CRC-32C, byte-stuffed and
 ended by a zero.
 */
module Dd008 {
  import opened Words
  import opened Cobs
  import C = Crc

  const VERSION: Uint8 := 1
  const MAX_PAYLOAD: nat := 1024
  const HEADER_BYTES: nat := 12
  const CRC_BYTES: nat := 4
  const MAX_PACKET: nat := 1045
  const MAGIC: Bytes := [0x4D, 0x31]

  datatype Frame = Frame(kind: Uint8, channel: Uint8, sequence: Uint32, payload: Bytes)

  datatype Fault = NotStuffed(cobs: Decoded) | TooShort | BadMagic | BadVersion | BadFlags | BadLength | BadCrc

  datatype Verdict = Good(frame: Frame) | Bad(fault: Fault)

  function CrcOf(bytes: Bytes): (crc: Bytes)
    ensures |crc| == CRC_BYTES
  {
    var crc := C.CrcBytes(C.Checksum(C.CRC32C_POLYNOMIAL, C.Raw(bytes)));
    [crc[0] as int, crc[1] as int, crc[2] as int, crc[3] as int]
  }

  function Body(frame: Frame): Bytes {
    MAGIC + [VERSION, frame.kind, frame.channel, 0] + Le16(|frame.payload|) + Le32(frame.sequence) + frame.payload
  }

  function Sealed(body: Bytes): Bytes {
    body + CrcOf(body)
  }

  /** encode_frame; none when the payload is too long. */
  function EncodeFrame(frame: Frame): Option<Bytes> {
    if |frame.payload| > MAX_PAYLOAD then None else Some(Encode(Sealed(Body(frame))) + [0])
  }

  /** The fields of a decoded frame, in the order they are checked. */
  function Parse(decoded: Bytes): Verdict {
    if |decoded| < HEADER_BYTES + CRC_BYTES then Bad(TooShort)
    else if decoded[..2] != MAGIC then Bad(BadMagic)
    else if decoded[2] != VERSION then Bad(BadVersion)
    else if decoded[5] != 0 then Bad(BadFlags)
    else if ReadLe16(decoded, 6) > MAX_PAYLOAD || |decoded| != HEADER_BYTES + ReadLe16(decoded, 6) + CRC_BYTES then Bad(BadLength)
    else if CrcOf(decoded[..|decoded| - CRC_BYTES]) != decoded[|decoded| - CRC_BYTES..] then Bad(BadCrc)
    else Good(Frame(decoded[3], decoded[4], ReadLe32(decoded, 8), decoded[HEADER_BYTES..|decoded| - CRC_BYTES]))
  }

  function DecodeFrame(packet: Bytes): Verdict {
    match Decode(packet)
    case Plain(decoded) => Parse(decoded)
    case failed => Bad(NotStuffed(failed))
  }

  lemma BodyFields(frame: Frame)
    requires |frame.payload| <= MAX_PAYLOAD
    ensures var body := Body(frame);
            && |body| == HEADER_BYTES + |frame.payload|
            && body[..2] == MAGIC && body[2] == VERSION && body[3] == frame.kind && body[4] == frame.channel && body[5] == 0
            && ReadLe16(body, 6) == |frame.payload| && ReadLe32(body, 8) == frame.sequence
            && body[HEADER_BYTES..] == frame.payload
  {
    var body := Body(frame);
    Le16RoundTrip(|frame.payload|);
    Le32RoundTrip(frame.sequence);
    var length, sequence := Le16(|frame.payload|), Le32(frame.sequence);
    assert body[6] == length[0] && body[7] == length[1];
    assert body[8] == sequence[0] && body[9] == sequence[1] && body[10] == sequence[2] && body[11] == sequence[3];
  }

  /** What encode_frame seals, the checks accept, as that frame. */
  lemma ParseSealed(frame: Frame)
    requires |frame.payload| <= MAX_PAYLOAD
    ensures Parse(Sealed(Body(frame))) == Good(frame)
  {
    hide CrcOf, Body, Le16, Le32;
    BodyFields(frame);
    var body := Body(frame);
    var decoded := Sealed(body);
    assert decoded[..|decoded| - CRC_BYTES] == body && decoded[|decoded| - CRC_BYTES..] == CrcOf(body);
    assert decoded[..2] == body[..2] && decoded[HEADER_BYTES..|decoded| - CRC_BYTES] == body[HEADER_BYTES..];
    assert ReadLe16(decoded, 6) == ReadLe16(body, 6) && ReadLe32(decoded, 8) == ReadLe32(body, 8);
  }

  /** What the checks accept is what encode_frame seals for that frame. */
  lemma ParsedIsSealed(decoded: Bytes)
    requires Parse(decoded).Good?
    ensures |Parse(decoded).frame.payload| <= MAX_PAYLOAD && decoded == Sealed(Body(Parse(decoded).frame))
  {
    hide CrcOf, Le16, Le32;
    var frame := Parse(decoded).frame;
    var head := decoded[..|decoded| - CRC_BYTES];
    HalfWordEncodes(decoded, 6);
    WordEncodes(decoded, 8);
    assert head == decoded[..2] + decoded[2..6] + decoded[6..8] + decoded[8..12] + decoded[12..|decoded| - CRC_BYTES];
    assert decoded[2..6] == [decoded[2], decoded[3], decoded[4], decoded[5]];
    assert head == Body(frame);
    assert decoded == head + decoded[|decoded| - CRC_BYTES..];
  }

  /** decode_frame accepts exactly the packets that stand for a sealed frame, as that frame. */
  lemma FrameRoundTrip(packet: Bytes, frame: Frame)
    ensures DecodeFrame(packet) == Good(frame)
       <==> |frame.payload| <= MAX_PAYLOAD && Decode(packet) == Plain(Sealed(Body(frame)))
  {
    hide Parse, Body, Sealed, Decode;
    if |frame.payload| <= MAX_PAYLOAD {
      ParseSealed(frame);
    }
    var decoded := Decode(packet);
    if decoded.Plain? && Parse(decoded.bytes).Good? {
      ParsedIsSealed(decoded.bytes);
    }
  }

  /** The two bytes of the payload's length, the lower first. */
  function LengthField(d: Bytes): int
    requires |d| >= 8
  {
    d[6] as int + 256 * d[7] as int
  }

  /** The bytes of a frame by their places: "M1", version 1, type, channel, no flags, length, sequence number, payload, CRC-32C. */
  ghost predicate LaidOut(d: Bytes, frame: Frame) {
    && |d| == 16 + |frame.payload| && |frame.payload| <= 1024
    && d[0] == 'M' as int && d[1] == '1' as int && d[2] == 1 && d[3] == frame.kind && d[4] == frame.channel && d[5] == 0
    && LengthField(d) == |frame.payload|
    && d[8] as int + 0x100 * d[9] as int + 0x1_0000 * d[10] as int + 0x100_0000 * d[11] as int == frame.sequence
    && d[12..12 + |frame.payload|] == frame.payload
    && var crc := C.CrcBytes(C.Checksum(C.CRC32C_POLYNOMIAL, C.Raw(d[..12 + |frame.payload|])));
       forall k :: 0 <= k < 4 ==> d[12 + |frame.payload| + k] == crc[k] as int
  }

  /** A packet is a frame exactly if it unstuffs to those bytes. */
  lemma FrameIsLaidOut(packet: Bytes, frame: Frame)
    ensures DecodeFrame(packet) == Good(frame) <==> Decode(packet).Plain? && LaidOut(Decode(packet).bytes, frame)
  {
    hide Decode, C.Checksum, C.CrcBytes, C.Raw;
    if Decode(packet).Plain? && |Decode(packet).bytes| >= 16 {
      var d := Decode(packet).bytes;
      var crc := C.CrcBytes(C.Checksum(C.CRC32C_POLYNOMIAL, C.Raw(d[..|d| - 4])));
      assert CrcOf(d[..|d| - 4]) == d[|d| - 4..] <==> forall k :: 0 <= k < 4 ==> d[|d| - 4 + k] == crc[k] as int;
    }
  }

  /** What a packet that is no frame is refused for: the first of these that holds. */
  lemma RefusalIsNamed(packet: Bytes)
    requires Decode(packet).Plain? && DecodeFrame(packet).Bad?
    ensures var d, fault := Decode(packet).bytes, DecodeFrame(packet).fault;
            && (fault.TooShort? <==> |d| < 16)
            && (fault.BadMagic? <==> |d| >= 16 && !(d[0] == 'M' as int && d[1] == '1' as int))
            && (fault.BadVersion? <==> |d| >= 16 && d[0] == 'M' as int && d[1] == '1' as int && d[2] != 1)
            && (fault.BadFlags? <==> |d| >= 16 && d[0] == 'M' as int && d[1] == '1' as int && d[2] == 1 && d[5] != 0)
            && (fault.BadLength? ==> LengthField(d) > 1024 || LengthField(d) != |d| - 16)
            && (fault.BadCrc? ==> LengthField(d) == |d| - 16 <= 1024 && d[|d| - 4..] != CrcOf(d[..|d| - 4]))
            && !fault.NotStuffed?
  {
    hide Decode, CrcOf;
    var d := Decode(packet).bytes;
    if |d| >= 16 {
      assert d[..2] == MAGIC <==> d[0] == 'M' as int && d[1] == '1' as int;
    }
  }

  /** An encoded frame is zero-free up to its end, fits the decoder's limit, and decodes to the frame. */
  lemma EncodedFrame(frame: Frame)
    requires |frame.payload| <= MAX_PAYLOAD
    ensures var packet := Encode(Sealed(Body(frame)));
            packet != [] && 0 !in packet && |packet| <= MAX_PACKET && DecodeFrame(packet) == Good(frame)
  {
    hide Parse, Decode, Encode, CrcOf, DecodeFrame;
    var sealed := Sealed(Body(frame));
    RoundTrip(sealed);
    NoZero(sealed);
    Length(sealed);
    FrameRoundTrip(Encode(sealed), frame);
  }

  /** Corruption of a frame within any four consecutive bytes, CRC included, is never taken for a frame. */
  lemma CorruptFrameRefused(frame: Frame, packet: Bytes, at: nat)
    requires |frame.payload| <= MAX_PAYLOAD && Decode(packet).Plain?
    requires var sent, got := Sealed(Body(frame)), Decode(packet).bytes;
             && |got| == |sent| && got != sent
             && forall k :: 0 <= k < |sent| && !(at <= k < at + 4) ==> got[k] == sent[k]
    ensures DecodeFrame(packet).Bad?
  {
    hide Parse, Decode, Body, CrcOf;
    if DecodeFrame(packet).Good? {
      var other := DecodeFrame(packet).frame;
      FrameRoundTrip(packet, other);
      SealsApart(Body(frame), Body(other), at);
      assert false;
    }
  }

  lemma SealsApart(a: Bytes, b: Bytes, at: nat)
    requires |a| == |b|
    requires var s, t := Sealed(a), Sealed(b);
             forall k :: 0 <= k < |s| && !(at <= k < at + 4) ==> s[k] == t[k]
    ensures a == b
  {
    var x, y := C.Raw(a), C.Raw(b);
    hide C.Checksum, C.CrcBytes, C.Raw;
    var poly := C.CRC32C_POLYNOMIAL;
    var p, q := C.CrcBytes(C.Checksum(poly, x)), C.CrcBytes(C.Checksum(poly, y));
    var s, t := Sealed(a), Sealed(b);
    forall k | 0 <= k < |x| + 4 && !(at <= k < at + 4)
      ensures (x + p)[k] == (y + q)[k]
    {
      assert s[k] == t[k];
      if k < |x| {
        RawAt(a, k);
        RawAt(b, k);
      } else {
        AsIntApart(p[k - |x|], q[k - |x|]);
      }
    }
    PolynomialTop();
    C.CorruptionIsSeen(poly, x, y, at);
    RawApart(a, b);
  }

  lemma PolynomialTop()
    ensures C.TopSet(C.CRC32C_POLYNOMIAL) && C.TopSet(C.CRC32_POLYNOMIAL)
  {
  }

  lemma RawAt(a: Bytes, k: nat)
    requires k < |a|
    ensures C.Raw(a)[k] == a[k] as bv8
  {
  }

  lemma AsIntApart(p: C.Byte, q: C.Byte)
    requires p as int == q as int
    ensures p == q
  {
    assert (p as int) as bv8 == p && (q as int) as bv8 == q;
  }

  lemma RawApart(a: Bytes, b: Bytes)
    requires |a| == |b| && C.Raw(a) == C.Raw(b)
    ensures a == b
  {
    forall k | 0 <= k < |a|
      ensures a[k] == b[k]
    {
      RawAt(a, k);
      RawAt(b, k);
      C.IntBack(a[k]);
      C.IntBack(b[k]);
    }
  }
}
