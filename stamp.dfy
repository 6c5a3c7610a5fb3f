/**
 * Building and parsing STAMP packets: a Session-Sender's Test packet and a
 * Session-Reflector's Reply to it, each carried in IPv6 with a Segment
 * Routing Header and UDP.  The headers are plain records; the payload is the
 * byte encoding of StampLayout.
 */
module Stamp {
  import opened Wire
  import opened Wrappers
  import opened StampErrors
  import opened Timestamps
  import opened StampLayout
  import opened Srv6

  /** IPv6 header / Segment Routing Header / UDP header / STAMP payload. */
  datatype Packet = Packet(
    ipv6: Ipv6Header,
    srh: SegmentRoutingHeader,
    udp: UdpHeader,
    payload: seq<u8>)

  /** What the parser reports about a Test packet (the real-valued `timestamp` aside). */
  datatype ParsedTest = ParsedTest(
    srcIp: Address,
    dstIp: Address,
    srcUdpPort: u16,
    dstUdpPort: u16,
    sequenceNumber: i32,
    ssid: u16,
    timestampSeconds: u32,
    timestampFraction: u32,
    sFlag: bit,
    zFlag: bit,
    scale: u6,
    multiplier: u8)
  {
    /** The Test payload fields this record carries. */
    function Payload(): TestPayload {
      TestPayload(sequenceNumber, timestampSeconds, timestampFraction,
                  ErrorEstimate(sFlag, zFlag, scale, multiplier), ssid)
    }
  }

  /**
   * What the parser reports about a Reply packet (the real-valued timestamps
   * aside).  It has no field for the Sender Sequence Number or for MBZ.
   */
  datatype ParsedReply = ParsedReply(
    sequenceNumber: i32,
    ssid: u16,
    timestampSeconds: u32,
    timestampFraction: u32,
    sFlag: bit,
    zFlag: bit,
    scale: u6,
    multiplier: u8,
    receiveTimestampSeconds: u32,
    receiveTimestampFraction: u32,
    senderTimestampSeconds: u32,
    senderTimestampFraction: u32,
    sFlagSender: bit,
    zFlagSender: bit,
    scaleSender: u6,
    multiplierSender: u8,
    ttlSender: u8)
  {
    /** The Reply payload fields this record carries, completed with the two it does not. */
    function Payload(senderSequenceNumber: i32, mbz: u16): ReplyPayload {
      ReplyPayload(sequenceNumber, timestampSeconds, timestampFraction,
                   ErrorEstimate(sFlag, zFlag, scale, multiplier), ssid,
                   receiveTimestampSeconds, receiveTimestampFraction,
                   senderSequenceNumber, senderTimestampSeconds, senderTimestampFraction,
                   ErrorEstimate(sFlagSender, zFlagSender, scaleSender, multiplierSender),
                   mbz, ttlSender)
    }
  }

  /**
   * Reads the addresses and ports from the IPv6 and UDP headers and
   * dissects the payload as a Test payload.
   */
  function ParseStampTestPacket(packet: Packet): (r: Result<ParsedTest, StampError>)
    ensures r.Err? <==> |packet.payload| < TEST_PAYLOAD_LENGTH
    ensures r.Err? ==> r.error == PacketTooShort
    ensures r.Ok? ==>
      && r.value.srcIp == packet.ipv6.src && r.value.dstIp == packet.ipv6.dst
      && r.value.srcUdpPort == packet.udp.sport && r.value.dstUdpPort == packet.udp.dport
      && EncodeTest(r.value.Payload()) == packet.payload[..TEST_PAYLOAD_LENGTH]
  {
    var payload :- DecodeTest(packet.payload);
    TestDecodeCanonical(packet.payload);
    Ok(ParsedTest(
      packet.ipv6.src, packet.ipv6.dst, packet.udp.sport, packet.udp.dport,
      payload.sequenceNumber, payload.ssid,
      payload.timestampSeconds, payload.timestampFraction,
      payload.errorEstimate.s, payload.errorEstimate.z,
      payload.errorEstimate.scale, payload.errorEstimate.multiplier))
  }

  /**
   * Dissects the payload as a Reply payload and reports every field except
   * the Sender Sequence Number and MBZ.
   */
  function ParseStampReplyPacket(packet: Packet): (r: Result<ParsedReply, StampError>)
    ensures r.Err? <==> |packet.payload| < REPLY_PAYLOAD_LENGTH
    ensures r.Err? ==> r.error == PacketTooShort
    ensures r.Ok? ==>
      var bytes := packet.payload;
      EncodeReply(r.value.Payload(I32Of(bytes[24..28]), U16Of(bytes[38..40]))) == bytes[..REPLY_PAYLOAD_LENGTH]
  {
    var payload :- DecodeReply(packet.payload);
    ReplyDecodeCanonical(packet.payload);
    Ok(ParsedReply(
      payload.sequenceNumber, payload.ssid,
      payload.timestampSeconds, payload.timestampFraction,
      payload.errorEstimate.s, payload.errorEstimate.z,
      payload.errorEstimate.scale, payload.errorEstimate.multiplier,
      payload.receiveTimestampSeconds, payload.receiveTimestampFraction,
      payload.senderTimestampSeconds, payload.senderTimestampFraction,
      payload.senderErrorEstimate.s, payload.senderErrorEstimate.z,
      payload.senderErrorEstimate.scale, payload.senderErrorEstimate.multiplier,
      payload.senderTtl))
  }

  /** The Error Estimate a builder writes for its own timestamp. */
  function OwnErrorEstimate(format: TimestampFormat, extSourceSync: bool, scale: u6, multiplier: u8): ErrorEstimate
  {
    ErrorEstimate(SyncFlagOf(extSourceSync).Value(), format.Value(), scale, multiplier)
  }

  /**
   * The Test payload fields a Sender fills in: its sequence number, the
   * clock reading in the selected format (seconds cut to the 32 bits the
   * field keeps) and its Error Estimate.  Every other field, the SSID
   * included, keeps its layout default.
   */
  function SenderPayload(sequenceNumber: i32, format: TimestampFormat, extSourceSync: bool,
                         scale: u6, multiplier: u8, unixMicros: nat): TestPayload
  {
    var timestamp := CurrentTimestamp(format, unixMicros);
    DEFAULT_TEST.(
      sequenceNumber := sequenceNumber,
      timestampSeconds := LowBits32(timestamp.seconds),
      timestampFraction := timestamp.fraction,
      errorEstimate := OwnErrorEstimate(format, extSourceSync, scale, multiplier))
  }

  /**
   * The Reply payload fields a Reflector fills in: its own sequence number,
   * timestamp (also used as the Receive Timestamp) and Error Estimate; the
   * echo block from the parsed Test, with the Sender Sequence Number
   * overridden when one is given; MBZ and SenderTTL 0.  The SSID keeps its
   * layout default.
   */
  function ReflectorPayload(test: ParsedTest, sequenceNumber: i32, format: TimestampFormat, extSourceSync: bool,
                            scale: u6, multiplier: u8, senderSequenceNumber: Option<i32>,
                            unixMicros: nat): ReplyPayload
  {
    var timestamp := CurrentTimestamp(format, unixMicros);
    var seconds := LowBits32(timestamp.seconds);
    var echoedSequenceNumber := match senderSequenceNumber
      case None => test.sequenceNumber
      case Some(n) => n;
    DEFAULT_REPLY.(
      sequenceNumber := sequenceNumber,
      timestampSeconds := seconds,
      timestampFraction := timestamp.fraction,
      errorEstimate := OwnErrorEstimate(format, extSourceSync, scale, multiplier),
      mbz := 0,
      receiveTimestampSeconds := seconds,
      receiveTimestampFraction := timestamp.fraction,
      senderSequenceNumber := echoedSequenceNumber,
      senderTimestampSeconds := test.timestampSeconds,
      senderTimestampFraction := test.timestampFraction,
      senderErrorEstimate := ErrorEstimate(test.sFlag, test.zFlag, test.scale, test.multiplier),
      senderTtl := 0)
  }

  /**
   * The Test packet a Session-Sender emits.  `dstIp` and `ssid` are accepted
   * and not used: the destination is the first segment and the SSID field
   * keeps its default.  `unixMicros` is the clock reading.  The empty segment
   * list is detected first, at `sidlist[0]`, before the unbound timestamp of
   * an unsupported format is used.
   */
  function GenerateStampTestPacket(
    srcIp: Address, dstIp: Address, srcUdpPort: u16, dstUdpPort: u16,
    sidlist: seq<Address>, ssid: u16, sequenceNumber: i32,
    timestampFormat: string, extSourceSync: bool, scale: u6, multiplier: u8,
    unixMicros: nat): (r: Result<Packet, StampError>)
    ensures r.Ok? <==> sidlist != [] && SelectFormat(timestampFormat).Ok?
    ensures sidlist == [] ==> r == Err(EmptySegmentList)
    ensures sidlist != [] && SelectFormat(timestampFormat).Err? ==> r == Err(UnsupportedTimestampFormat)
    ensures r.Ok? ==>
      && r.value.ipv6 == Ipv6Header(srcIp, sidlist[0])
      && r.value.srh.addresses == Reversed(sidlist)
      && r.value.srh.segleft == r.value.srh.lastentry == |sidlist| - 1
      && r.value.udp.sport == srcUdpPort && r.value.udp.dport == dstUdpPort
      && |r.value.payload| == TEST_PAYLOAD_LENGTH
  {
    var selected := SelectFormat(timestampFormat);
    var (dst, srh) :- SegmentRouting(sidlist);
    var format :- selected;
    var payload := SenderPayload(sequenceNumber, format, extSourceSync, scale, multiplier, unixMicros);
    Ok(Packet(Ipv6Header(srcIp, dst), srh, UdpHeader(srcUdpPort, dstUdpPort), EncodeTest(payload)))
  }

  /**
   * The Reply a Session-Reflector emits for `stampTestPacket`.  The echo
   * block is copied from the parsed Test packet; the Sender Sequence Number
   * is `senderSequenceNumber` when given (stateless mode) and the Test's own
   * otherwise.  The Reflector's one timestamp serves as both its send and its
   * receive timestamp; MBZ and SenderTTL are 0; SSID keeps its default.
   * Failures surface in evaluation order: the Test payload, the segment
   * list, the timestamp format.
   */
  function GenerateStampReplyPacket(
    stampTestPacket: Packet, srcIp: Address, dstIp: Address,
    srcUdpPort: u16, dstUdpPort: u16, sidlist: seq<Address>,
    ssid: u16, sequenceNumber: i32,
    timestampFormat: string, extSourceSync: bool, scale: u6, multiplier: u8,
    senderSequenceNumber: Option<i32>,
    unixMicros: nat): (r: Result<Packet, StampError>)
    ensures r.Ok? <==>
      |stampTestPacket.payload| >= TEST_PAYLOAD_LENGTH && sidlist != [] && SelectFormat(timestampFormat).Ok?
    ensures |stampTestPacket.payload| < TEST_PAYLOAD_LENGTH ==> r == Err(PacketTooShort)
    ensures |stampTestPacket.payload| >= TEST_PAYLOAD_LENGTH && sidlist == [] ==> r == Err(EmptySegmentList)
    ensures (|stampTestPacket.payload| >= TEST_PAYLOAD_LENGTH && sidlist != [] && SelectFormat(timestampFormat).Err?)
      ==> r == Err(UnsupportedTimestampFormat)
    ensures r.Ok? ==>
      && r.value.ipv6 == Ipv6Header(srcIp, sidlist[0])
      && r.value.srh.addresses == Reversed(sidlist)
      && r.value.srh.segleft == r.value.srh.lastentry == |sidlist| - 1
      && r.value.udp.sport == srcUdpPort && r.value.udp.dport == dstUdpPort
      && |r.value.payload| == REPLY_PAYLOAD_LENGTH
  {
    var test :- ParseStampTestPacket(stampTestPacket);
    var selected := SelectFormat(timestampFormat);
    var (dst, srh) :- SegmentRouting(sidlist);
    var format :- selected;
    var payload := ReflectorPayload(test, sequenceNumber, format, extSourceSync, scale, multiplier,
                                    senderSequenceNumber, unixMicros);
    Ok(Packet(Ipv6Header(srcIp, dst), srh, UdpHeader(srcUdpPort, dstUdpPort), EncodeReply(payload)))
  }
}
