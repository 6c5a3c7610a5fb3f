/**
 * Wire layouts of the STAMP Test payload and Reply payload: every field
 * big-endian, packed back to back, the SSID right after the Error Estimate,
 * and no trailing padding.  Encoding concatenates the fields; decoding reads
 * each field at its fixed byte offset and ignores any bytes past the layout.
 */
module StampLayout {
  import opened Wire
  import opened Wrappers
  import opened StampErrors

  /** S (1 bit), Z (1 bit), Scale (6 bits), Multiplier (8 bits): one 16-bit group. */
  datatype ErrorEstimate = ErrorEstimate(s: bit, z: bit, scale: u6, multiplier: u8)

  /** The Sequence Number is an IntField: signed. */
  datatype TestPayload = TestPayload(
    sequenceNumber: i32,
    timestampSeconds: u32,
    timestampFraction: u32,
    errorEstimate: ErrorEstimate,
    ssid: u16)

  /** Both sequence numbers are IntFields: signed. */
  datatype ReplyPayload = ReplyPayload(
    sequenceNumber: i32,
    timestampSeconds: u32,
    timestampFraction: u32,
    errorEstimate: ErrorEstimate,
    ssid: u16,
    receiveTimestampSeconds: u32,
    receiveTimestampFraction: u32,
    senderSequenceNumber: i32,
    senderTimestampSeconds: u32,
    senderTimestampFraction: u32,
    senderErrorEstimate: ErrorEstimate,
    mbz: u16,
    senderTtl: u8)

  const TEST_PAYLOAD_LENGTH: nat := 16
  const REPLY_PAYLOAD_LENGTH: nat := 41

  /** Field defaults of both layouts: everything 0 except Multiplier 1 ... */
  const DEFAULT_ERROR_ESTIMATE := ErrorEstimate(0, 0, 0, 1)
  const DEFAULT_TEST := TestPayload(0, 0, 0, DEFAULT_ERROR_ESTIMATE, 0)
  /** ... and, in the Reply, SenderTTL 255. */
  const DEFAULT_REPLY := ReplyPayload(0, 0, 0, DEFAULT_ERROR_ESTIMATE, 0, 0, 0, 0, 0, 0,
                                      DEFAULT_ERROR_ESTIMATE, 0, 255)

  /** The two bytes of an Error Estimate: S, Z and Scale in the first (S topmost), Multiplier in the second. */
  function EncodeErrorEstimate(e: ErrorEstimate): (r: seq<u8>)
    ensures |r| == 2
  {
    [e.s * 0x80 + e.z * 0x40 + e.scale, e.multiplier]
  }

  /** The Error Estimate read from its two bytes by bit position. */
  function DecodeErrorEstimate(hi: u8, lo: u8): ErrorEstimate
  {
    ErrorEstimate(hi / 0x80, (hi / 0x40) % 2, hi % 0x40, lo)
  }

  lemma ErrorEstimateRoundTrip(e: ErrorEstimate)
    ensures var b := EncodeErrorEstimate(e); DecodeErrorEstimate(b[0], b[1]) == e
  {
  }

  lemma ErrorEstimateCanonical(hi: u8, lo: u8)
    ensures EncodeErrorEstimate(DecodeErrorEstimate(hi, lo)) == [hi, lo]
  {
    assert hi / 0x40 == (hi / 0x80) * 2 + (hi / 0x40) % 2;
    assert hi == (hi / 0x40) * 0x40 + hi % 0x40;
  }

  /** The 16 bytes of a Test payload. */
  function EncodeTest(p: TestPayload): (bytes: seq<u8>)
    ensures |bytes| == TEST_PAYLOAD_LENGTH
  {
    I32Bytes(p.sequenceNumber) + U32Bytes(p.timestampSeconds) + U32Bytes(p.timestampFraction)
      + EncodeErrorEstimate(p.errorEstimate) + U16Bytes(p.ssid)
  }

  /** The 41 bytes of a Reply payload. */
  function EncodeReply(p: ReplyPayload): (bytes: seq<u8>)
    ensures |bytes| == REPLY_PAYLOAD_LENGTH
  {
    I32Bytes(p.sequenceNumber) + U32Bytes(p.timestampSeconds) + U32Bytes(p.timestampFraction)
      + EncodeErrorEstimate(p.errorEstimate) + U16Bytes(p.ssid)
      + U32Bytes(p.receiveTimestampSeconds) + U32Bytes(p.receiveTimestampFraction)
      + I32Bytes(p.senderSequenceNumber)
      + U32Bytes(p.senderTimestampSeconds) + U32Bytes(p.senderTimestampFraction)
      + EncodeErrorEstimate(p.senderErrorEstimate) + U16Bytes(p.mbz) + [p.senderTtl]
  }

  /**
   * Dissects a Test payload from the front of `bytes` (offsets 0, 4, 8, 12, 14);
   * fails only when fewer than 16 bytes are present.
   */
  function DecodeTest(bytes: seq<u8>): (r: Result<TestPayload, StampError>)
    ensures r.Err? <==> |bytes| < TEST_PAYLOAD_LENGTH
    ensures r.Err? ==> r.error == PacketTooShort
  {
    if |bytes| < TEST_PAYLOAD_LENGTH then Err(PacketTooShort)
    else Ok(TestPayload(
      I32Of(bytes[0..4]), U32Of(bytes[4..8]), U32Of(bytes[8..12]),
      DecodeErrorEstimate(bytes[12], bytes[13]), U16Of(bytes[14..16])))
  }

  /**
   * Dissects a Reply payload from the front of `bytes` (offsets 0, 4, 8, 12,
   * 14, 16, 20, 24, 28, 32, 36, 38, 40); fails only when fewer than 41 bytes
   * are present.
   */
  function DecodeReply(bytes: seq<u8>): (r: Result<ReplyPayload, StampError>)
    ensures r.Err? <==> |bytes| < REPLY_PAYLOAD_LENGTH
    ensures r.Err? ==> r.error == PacketTooShort
  {
    if |bytes| < REPLY_PAYLOAD_LENGTH then Err(PacketTooShort)
    else Ok(ReplyPayload(
      I32Of(bytes[0..4]), U32Of(bytes[4..8]), U32Of(bytes[8..12]),
      DecodeErrorEstimate(bytes[12], bytes[13]), U16Of(bytes[14..16]),
      U32Of(bytes[16..20]), U32Of(bytes[20..24]),
      I32Of(bytes[24..28]),
      U32Of(bytes[28..32]), U32Of(bytes[32..36]),
      DecodeErrorEstimate(bytes[36], bytes[37]), U16Of(bytes[38..40]), bytes[40]))
  }

  /** Decoding an encoded Test payload, whatever bytes follow it, gives back every field. */
  lemma TestRoundTrip(p: TestPayload, rest: seq<u8>)
    ensures DecodeTest(EncodeTest(p) + rest) == Ok(p)
  {
    var b := EncodeTest(p) + rest;
    assert b[0..4] == I32Bytes(p.sequenceNumber);
    assert b[4..8] == U32Bytes(p.timestampSeconds);
    assert b[8..12] == U32Bytes(p.timestampFraction);
    assert b[12..14] == EncodeErrorEstimate(p.errorEstimate);
    assert b[14..16] == U16Bytes(p.ssid);
    I32RoundTrip(p.sequenceNumber);
    U32RoundTrip(p.timestampSeconds);
    U32RoundTrip(p.timestampFraction);
    ErrorEstimateRoundTrip(p.errorEstimate);
    U16RoundTrip(p.ssid);
  }

  /** Every 16-byte prefix is the encoding of the payload it decodes to: decoding loses nothing. */
  lemma TestDecodeCanonical(bytes: seq<u8>)
    requires |bytes| >= TEST_PAYLOAD_LENGTH
    ensures DecodeTest(bytes).Ok? && EncodeTest(DecodeTest(bytes).value) == bytes[..TEST_PAYLOAD_LENGTH]
  {
    I32Canonical(bytes[0..4]);
    U32Canonical(bytes[4..8]);
    U32Canonical(bytes[8..12]);
    ErrorEstimateCanonical(bytes[12], bytes[13]);
    U16Canonical(bytes[14..16]);
    assert bytes[..16] == bytes[0..4] + bytes[4..8] + bytes[8..12] + [bytes[12], bytes[13]] + bytes[14..16];
  }

  /** Decoding an encoded Reply payload, whatever bytes follow it, gives back every field. */
  lemma ReplyRoundTrip(p: ReplyPayload, rest: seq<u8>)
    ensures DecodeReply(EncodeReply(p) + rest) == Ok(p)
  {
    var b := EncodeReply(p) + rest;
    assert b[0..4] == I32Bytes(p.sequenceNumber);
    assert b[4..8] == U32Bytes(p.timestampSeconds);
    assert b[8..12] == U32Bytes(p.timestampFraction);
    assert b[12..14] == EncodeErrorEstimate(p.errorEstimate);
    assert b[14..16] == U16Bytes(p.ssid);
    assert b[16..20] == U32Bytes(p.receiveTimestampSeconds);
    assert b[20..24] == U32Bytes(p.receiveTimestampFraction);
    assert b[24..28] == I32Bytes(p.senderSequenceNumber);
    assert b[28..32] == U32Bytes(p.senderTimestampSeconds);
    assert b[32..36] == U32Bytes(p.senderTimestampFraction);
    assert b[36..38] == EncodeErrorEstimate(p.senderErrorEstimate);
    assert b[38..40] == U16Bytes(p.mbz);
    assert b[40] == p.senderTtl;
    I32RoundTrip(p.sequenceNumber);
    U32RoundTrip(p.timestampSeconds);
    U32RoundTrip(p.timestampFraction);
    ErrorEstimateRoundTrip(p.errorEstimate);
    U16RoundTrip(p.ssid);
    U32RoundTrip(p.receiveTimestampSeconds);
    U32RoundTrip(p.receiveTimestampFraction);
    I32RoundTrip(p.senderSequenceNumber);
    U32RoundTrip(p.senderTimestampSeconds);
    U32RoundTrip(p.senderTimestampFraction);
    ErrorEstimateRoundTrip(p.senderErrorEstimate);
    U16RoundTrip(p.mbz);
  }

  /** Every 41-byte prefix is the encoding of the payload it decodes to: decoding loses nothing. */
  lemma ReplyDecodeCanonical(bytes: seq<u8>)
    requires |bytes| >= REPLY_PAYLOAD_LENGTH
    ensures DecodeReply(bytes).Ok? && EncodeReply(DecodeReply(bytes).value) == bytes[..REPLY_PAYLOAD_LENGTH]
  {
    I32Canonical(bytes[0..4]);
    U32Canonical(bytes[4..8]);
    U32Canonical(bytes[8..12]);
    ErrorEstimateCanonical(bytes[12], bytes[13]);
    U16Canonical(bytes[14..16]);
    U32Canonical(bytes[16..20]);
    U32Canonical(bytes[20..24]);
    I32Canonical(bytes[24..28]);
    U32Canonical(bytes[28..32]);
    U32Canonical(bytes[32..36]);
    ErrorEstimateCanonical(bytes[36], bytes[37]);
    U16Canonical(bytes[38..40]);
    assert bytes[..41] == bytes[0..4] + bytes[4..8] + bytes[8..12] + [bytes[12], bytes[13]] + bytes[14..16]
      + bytes[16..20] + bytes[20..24] + bytes[24..28] + bytes[28..32] + bytes[32..36]
      + [bytes[36], bytes[37]] + bytes[38..40] + [bytes[40]];
  }

  /** A Sequence Number whose top bit is set reads as negative: 80 00 00 00 is -2^31. */
  lemma TopBitSequenceNumberIsNegative(rest: seq<u8>)
    requires |rest| >= TEST_PAYLOAD_LENGTH - 4
    ensures DecodeTest([0x80, 0, 0, 0] + rest).Ok?
    ensures DecodeTest([0x80, 0, 0, 0] + rest).value.sequenceNumber == -0x8000_0000
  {
    var b := [0x80, 0, 0, 0] + rest;
    assert b[0..4] == [0x80, 0, 0, 0];
    assert U32Bytes(0x8000_0000) == [0x80, 0, 0, 0];
    U32RoundTrip(0x8000_0000);
  }
}
