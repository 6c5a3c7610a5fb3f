/**
 * What a Session-Sender's Test packet and a Session-Reflector's Reply carry,
 * stated through the payload decoder: which fields come from the caller,
 * which from the clock, which are copied from the Test packet, and which are
 * fixed.
 */
module StampProperties {
  import opened Wire
  import opened Wrappers
  import opened StampErrors
  import opened Timestamps
  import opened StampLayout
  import opened Srv6
  import opened Stamp

  /** Whole seconds since 1900 of a clock reading, reduced to the 32 bits the field keeps. */
  function WireSeconds(unixMicros: nat): u32
  {
    LowBits32(unixMicros / MICROS_PER_SECOND + TIMESTAMP_OFFSET)
  }

  lemma DecodeEncodedTest(p: TestPayload)
    ensures DecodeTest(EncodeTest(p)) == Ok(p)
  {
    TestRoundTrip(p, []);
    assert EncodeTest(p) + [] == EncodeTest(p);
  }

  lemma DecodeEncodedReply(p: ReplyPayload)
    ensures DecodeReply(EncodeReply(p)) == Ok(p)
  {
    ReplyRoundTrip(p, []);
    assert EncodeReply(p) + [] == EncodeReply(p);
  }

  /**
   * A Test packet carries the caller's sequence number, Scale and Multiplier;
   * Z is 0 for "ntp" and 1 for "ptp"; S is 1 exactly when the clock is
   * externally synchronised; the SSID is 0 whatever `ssid` was passed.
   */
  lemma TestPacketFields(
    srcIp: Address, dstIp: Address, srcUdpPort: u16, dstUdpPort: u16,
    sidlist: seq<Address>, ssid: u16, sequenceNumber: i32,
    timestampFormat: string, extSourceSync: bool, scale: u6, multiplier: u8,
    unixMicros: nat)
    requires GenerateStampTestPacket(srcIp, dstIp, srcUdpPort, dstUdpPort, sidlist, ssid, sequenceNumber,
                                     timestampFormat, extSourceSync, scale, multiplier, unixMicros).Ok?
    ensures var packet := GenerateStampTestPacket(srcIp, dstIp, srcUdpPort, dstUdpPort, sidlist, ssid,
                                                  sequenceNumber, timestampFormat, extSourceSync, scale,
                                                  multiplier, unixMicros).value;
      var p := DecodeTest(packet.payload);
      && p.Ok?
      && p.value.sequenceNumber == sequenceNumber
      && (p.value.errorEstimate.z == 0 <==> timestampFormat == "ntp")
      && (p.value.errorEstimate.z == 1 <==> timestampFormat == "ptp")
      && (p.value.errorEstimate.s == 1 <==> extSourceSync)
      && p.value.errorEstimate.scale == scale
      && p.value.errorEstimate.multiplier == multiplier
      && p.value.ssid == 0
  {
    DecodeEncodedTest(SenderPayload(sequenceNumber, SelectFormat(timestampFormat).value, extSourceSync,
                                    scale, multiplier, unixMicros));
  }

  /**
   * A Test packet's timestamp is the clock reading in the selected format:
   * seconds since 1900 (low 32 bits) in both, and a fraction of
   * floor(f * 0xFFFFFFFF) for "ntp" or whole nanoseconds for "ptp".
   */
  lemma TestPacketTimestamp(
    srcIp: Address, dstIp: Address, srcUdpPort: u16, dstUdpPort: u16,
    sidlist: seq<Address>, ssid: u16, sequenceNumber: i32,
    timestampFormat: string, extSourceSync: bool, scale: u6, multiplier: u8,
    unixMicros: nat)
    requires GenerateStampTestPacket(srcIp, dstIp, srcUdpPort, dstUdpPort, sidlist, ssid, sequenceNumber,
                                     timestampFormat, extSourceSync, scale, multiplier, unixMicros).Ok?
    ensures var packet := GenerateStampTestPacket(srcIp, dstIp, srcUdpPort, dstUdpPort, sidlist, ssid,
                                                  sequenceNumber, timestampFormat, extSourceSync, scale,
                                                  multiplier, unixMicros).value;
      var p := DecodeTest(packet.payload);
      && p.Ok?
      && p.value.timestampSeconds == WireSeconds(unixMicros)
      && (timestampFormat == "ntp" ==> p.value.timestampFraction == NtpTimestamp(unixMicros).fraction)
      && (timestampFormat == "ptp" ==> p.value.timestampFraction == (unixMicros % MICROS_PER_SECOND) * 1000)
  {
    PtpFractionIsNanoseconds(unixMicros);
    DecodeEncodedTest(SenderPayload(sequenceNumber, SelectFormat(timestampFormat).value, extSourceSync,
                                    scale, multiplier, unixMicros));
  }

  /** With the declared default format string, neither builder produces a packet. */
  lemma DefaultFormatBuildsNothing(
    stampTestPacket: Packet, srcIp: Address, dstIp: Address, srcUdpPort: u16, dstUdpPort: u16,
    sidlist: seq<Address>, ssid: u16, sequenceNumber: i32, extSourceSync: bool, scale: u6, multiplier: u8,
    senderSequenceNumber: Option<i32>, unixMicros: nat)
    ensures GenerateStampTestPacket(srcIp, dstIp, srcUdpPort, dstUdpPort, sidlist, ssid, sequenceNumber,
                                    DEFAULT_TIMESTAMP_FORMAT, extSourceSync, scale, multiplier, unixMicros).Err?
    ensures GenerateStampReplyPacket(stampTestPacket, srcIp, dstIp, srcUdpPort, dstUdpPort, sidlist, ssid,
                                     sequenceNumber, DEFAULT_TIMESTAMP_FORMAT, extSourceSync, scale, multiplier,
                                     senderSequenceNumber, unixMicros).Err?
  {
  }

  /**
   * The Reply's echo block is the Test packet's: Sender Timestamp and Sender
   * Error Estimate equal the parsed Test fields, and on the wire Reply bytes
   * 28..38 are Test bytes 4..14.
   */
  lemma ReplyEchoFidelity(
    stampTestPacket: Packet, srcIp: Address, dstIp: Address, srcUdpPort: u16, dstUdpPort: u16,
    sidlist: seq<Address>, ssid: u16, sequenceNumber: i32,
    timestampFormat: string, extSourceSync: bool, scale: u6, multiplier: u8,
    senderSequenceNumber: Option<i32>, unixMicros: nat)
    requires GenerateStampReplyPacket(stampTestPacket, srcIp, dstIp, srcUdpPort, dstUdpPort, sidlist, ssid,
                                      sequenceNumber, timestampFormat, extSourceSync, scale, multiplier,
                                      senderSequenceNumber, unixMicros).Ok?
    ensures var reply := GenerateStampReplyPacket(stampTestPacket, srcIp, dstIp, srcUdpPort, dstUdpPort,
                                                  sidlist, ssid, sequenceNumber, timestampFormat, extSourceSync,
                                                  scale, multiplier, senderSequenceNumber, unixMicros).value;
      var test := ParseStampTestPacket(stampTestPacket).value;
      var q := DecodeReply(reply.payload);
      && q.Ok?
      && q.value.senderTimestampSeconds == test.timestampSeconds
      && q.value.senderTimestampFraction == test.timestampFraction
      && q.value.senderErrorEstimate == ErrorEstimate(test.sFlag, test.zFlag, test.scale, test.multiplier)
      && reply.payload[28..38] == stampTestPacket.payload[4..14]
  {
    var test := ParseStampTestPacket(stampTestPacket).value;
    BuiltReply(stampTestPacket, srcIp, dstIp, srcUdpPort, dstUdpPort, sidlist, ssid, sequenceNumber,
               timestampFormat, extSourceSync, scale, multiplier, senderSequenceNumber, unixMicros);
    var q := ReflectorPayload(ParseStampTestPacket(stampTestPacket).value, sequenceNumber,
                              SelectFormat(timestampFormat).value, extSourceSync, scale, multiplier,
                              senderSequenceNumber, unixMicros);
    DecodeEncodedReply(q);
    EchoBytes(q, test.Payload());
    assert stampTestPacket.payload[4..14] == stampTestPacket.payload[..TEST_PAYLOAD_LENGTH][4..14];
  }

  /** The echoed Sender Timestamp and Sender Error Estimate are encoded exactly as the Test encodes them, 24 bytes further on. */
  lemma EchoBytes(q: ReplyPayload, t: TestPayload)
    requires q.senderTimestampSeconds == t.timestampSeconds && q.senderTimestampFraction == t.timestampFraction
    requires q.senderErrorEstimate == t.errorEstimate
    ensures EncodeReply(q)[28..38] == EncodeTest(t)[4..14]
  {
  }

  /**
   * Stateless mode: with an override `v` the Reply's Sender Sequence Number is
   * `v`, whatever the Test packet carried; without one it is the Test's
   * sequence number, byte for byte.
   */
  lemma StatelessOverride(
    stampTestPacket: Packet, srcIp: Address, dstIp: Address, srcUdpPort: u16, dstUdpPort: u16,
    sidlist: seq<Address>, ssid: u16, sequenceNumber: i32,
    timestampFormat: string, extSourceSync: bool, scale: u6, multiplier: u8,
    senderSequenceNumber: Option<i32>, unixMicros: nat)
    requires GenerateStampReplyPacket(stampTestPacket, srcIp, dstIp, srcUdpPort, dstUdpPort, sidlist, ssid,
                                      sequenceNumber, timestampFormat, extSourceSync, scale, multiplier,
                                      senderSequenceNumber, unixMicros).Ok?
    ensures var reply := GenerateStampReplyPacket(stampTestPacket, srcIp, dstIp, srcUdpPort, dstUdpPort,
                                                  sidlist, ssid, sequenceNumber, timestampFormat, extSourceSync,
                                                  scale, multiplier, senderSequenceNumber, unixMicros).value;
      var q := DecodeReply(reply.payload);
      && q.Ok?
      && (senderSequenceNumber.Some? ==> q.value.senderSequenceNumber == senderSequenceNumber.value)
      && (senderSequenceNumber.None? ==>
            && q.value.senderSequenceNumber == ParseStampTestPacket(stampTestPacket).value.sequenceNumber
            && reply.payload[24..28] == stampTestPacket.payload[0..4])
  {
    var test := ParseStampTestPacket(stampTestPacket).value;
    BuiltReply(stampTestPacket, srcIp, dstIp, srcUdpPort, dstUdpPort, sidlist, ssid, sequenceNumber,
               timestampFormat, extSourceSync, scale, multiplier, senderSequenceNumber, unixMicros);
    var q := ReflectorPayload(ParseStampTestPacket(stampTestPacket).value, sequenceNumber,
                              SelectFormat(timestampFormat).value, extSourceSync, scale, multiplier,
                              senderSequenceNumber, unixMicros);
    DecodeEncodedReply(q);
    if senderSequenceNumber.None? {
      SequenceNumberBytes(q, test.Payload());
      assert stampTestPacket.payload[0..4] == stampTestPacket.payload[..TEST_PAYLOAD_LENGTH][0..4];
    }
  }

  /** An echoed Sender Sequence Number is encoded exactly as the Test encodes its sequence number, 24 bytes further on. */
  lemma SequenceNumberBytes(q: ReplyPayload, t: TestPayload)
    requires q.senderSequenceNumber == t.sequenceNumber
    ensures EncodeReply(q)[24..28] == EncodeTest(t)[0..4]
  {
  }

  /**
   * The Reflector's own fields: its sequence number, Scale and Multiplier are
   * the caller's; Z and S follow the format and the sync flag; the Receive
   * Timestamp equals its own Timestamp, which is the clock reading (seconds
   * since 1900 mod 2^32, and the NTP fraction or whole nanoseconds); MBZ,
   * SenderTTL and SSID are 0.
   */
  lemma ReplyFixedFields(
    stampTestPacket: Packet, srcIp: Address, dstIp: Address, srcUdpPort: u16, dstUdpPort: u16,
    sidlist: seq<Address>, ssid: u16, sequenceNumber: i32,
    timestampFormat: string, extSourceSync: bool, scale: u6, multiplier: u8,
    senderSequenceNumber: Option<i32>, unixMicros: nat)
    requires GenerateStampReplyPacket(stampTestPacket, srcIp, dstIp, srcUdpPort, dstUdpPort, sidlist, ssid,
                                      sequenceNumber, timestampFormat, extSourceSync, scale, multiplier,
                                      senderSequenceNumber, unixMicros).Ok?
    ensures var reply := GenerateStampReplyPacket(stampTestPacket, srcIp, dstIp, srcUdpPort, dstUdpPort,
                                                  sidlist, ssid, sequenceNumber, timestampFormat, extSourceSync,
                                                  scale, multiplier, senderSequenceNumber, unixMicros).value;
      var q := DecodeReply(reply.payload);
      && q.Ok?
      && q.value.sequenceNumber == sequenceNumber
      && q.value.errorEstimate.scale == scale && q.value.errorEstimate.multiplier == multiplier
      && (q.value.errorEstimate.z == 0 <==> timestampFormat == "ntp")
      && (q.value.errorEstimate.s == 1 <==> extSourceSync)
      && q.value.timestampSeconds == WireSeconds(unixMicros)
      && (timestampFormat == "ntp" ==> q.value.timestampFraction == NtpTimestamp(unixMicros).fraction)
      && (timestampFormat == "ptp" ==> q.value.timestampFraction == (unixMicros % MICROS_PER_SECOND) * 1000)
      && q.value.receiveTimestampSeconds == q.value.timestampSeconds
      && q.value.receiveTimestampFraction == q.value.timestampFraction
      && q.value.mbz == 0 && q.value.senderTtl == 0 && q.value.ssid == 0
  {
    BuiltReply(stampTestPacket, srcIp, dstIp, srcUdpPort, dstUdpPort, sidlist, ssid, sequenceNumber,
               timestampFormat, extSourceSync, scale, multiplier, senderSequenceNumber, unixMicros);
    PtpFractionIsNanoseconds(unixMicros);
    var q := ReflectorPayload(ParseStampTestPacket(stampTestPacket).value, sequenceNumber,
                              SelectFormat(timestampFormat).value, extSourceSync, scale, multiplier,
                              senderSequenceNumber, unixMicros);
    DecodeEncodedReply(q);
  }

  /** A successful Reply build encodes the Reflector's payload for the parsed Test and the selected format. */
  lemma BuiltReply(
    stampTestPacket: Packet, srcIp: Address, dstIp: Address, srcUdpPort: u16, dstUdpPort: u16,
    sidlist: seq<Address>, ssid: u16, sequenceNumber: i32,
    timestampFormat: string, extSourceSync: bool, scale: u6, multiplier: u8,
    senderSequenceNumber: Option<i32>, unixMicros: nat)
    requires GenerateStampReplyPacket(stampTestPacket, srcIp, dstIp, srcUdpPort, dstUdpPort, sidlist, ssid,
                                      sequenceNumber, timestampFormat, extSourceSync, scale, multiplier,
                                      senderSequenceNumber, unixMicros).Ok?
    ensures |stampTestPacket.payload| >= TEST_PAYLOAD_LENGTH && SelectFormat(timestampFormat).Ok?
    ensures GenerateStampReplyPacket(stampTestPacket, srcIp, dstIp, srcUdpPort, dstUdpPort, sidlist, ssid,
                                     sequenceNumber, timestampFormat, extSourceSync, scale, multiplier,
                                     senderSequenceNumber, unixMicros).value.payload
            == EncodeReply(ReflectorPayload(ParseStampTestPacket(stampTestPacket).value, sequenceNumber,
                                            SelectFormat(timestampFormat).value, extSourceSync, scale,
                                            multiplier, senderSequenceNumber, unixMicros))
  {
  }

  /**
   * A full exchange: the Reflector answers a Test packet built by the Sender,
   * without a stateless override.  The Reply parses, and its echo block
   * reports the Sender's sequence number, clock reading, sync flag, format,
   * Scale and Multiplier, with SenderTTL 0.
   */
  lemma SenderReflectorExchange(
    srcIp: Address, dstIp: Address, srcUdpPort: u16, dstUdpPort: u16,
    sidlist: seq<Address>, ssid: u16, sequenceNumber: i32,
    timestampFormat: string, extSourceSync: bool, scale: u6, multiplier: u8,
    unixMicros: nat,
    reflectorIp: Address, reflectorSidlist: seq<Address>, reflectorSequenceNumber: i32,
    reflectorFormat: string, reflectorExtSourceSync: bool, reflectorScale: u6, reflectorMultiplier: u8,
    reflectorMicros: nat)
    requires GenerateStampTestPacket(srcIp, dstIp, srcUdpPort, dstUdpPort, sidlist, ssid, sequenceNumber,
                                     timestampFormat, extSourceSync, scale, multiplier, unixMicros).Ok?
    requires reflectorSidlist != [] && SelectFormat(reflectorFormat).Ok?
    ensures var test := GenerateStampTestPacket(srcIp, dstIp, srcUdpPort, dstUdpPort, sidlist, ssid,
                                                sequenceNumber, timestampFormat, extSourceSync, scale,
                                                multiplier, unixMicros).value;
      var reply := GenerateStampReplyPacket(test, reflectorIp, srcIp, dstUdpPort, srcUdpPort, reflectorSidlist,
                                            ssid, reflectorSequenceNumber, reflectorFormat, reflectorExtSourceSync,
                                            reflectorScale, reflectorMultiplier, None, reflectorMicros);
      && reply.Ok?
      && DecodeReply(reply.value.payload).Ok?
      && DecodeReply(reply.value.payload).value.senderSequenceNumber == sequenceNumber
      && var parsed := ParseStampReplyPacket(reply.value);
      && parsed.Ok?
      && parsed.value.senderTimestampSeconds == WireSeconds(unixMicros)
      && (timestampFormat == "ntp" ==> parsed.value.senderTimestampFraction == NtpTimestamp(unixMicros).fraction)
      && (timestampFormat == "ptp" ==> parsed.value.senderTimestampFraction == (unixMicros % MICROS_PER_SECOND) * 1000)
      && (parsed.value.sFlagSender == 1 <==> extSourceSync)
      && (parsed.value.zFlagSender == 0 <==> timestampFormat == "ntp")
      && parsed.value.scaleSender == scale && parsed.value.multiplierSender == multiplier
      && parsed.value.ttlSender == 0
  {
    var test := GenerateStampTestPacket(srcIp, dstIp, srcUdpPort, dstUdpPort, sidlist, ssid, sequenceNumber,
                                        timestampFormat, extSourceSync, scale, multiplier, unixMicros).value;
    TestPacketFields(srcIp, dstIp, srcUdpPort, dstUdpPort, sidlist, ssid, sequenceNumber,
                     timestampFormat, extSourceSync, scale, multiplier, unixMicros);
    TestPacketTimestamp(srcIp, dstIp, srcUdpPort, dstUdpPort, sidlist, ssid, sequenceNumber,
                        timestampFormat, extSourceSync, scale, multiplier, unixMicros);
    ReplyEchoFidelity(test, reflectorIp, srcIp, dstUdpPort, srcUdpPort, reflectorSidlist, ssid,
                      reflectorSequenceNumber, reflectorFormat, reflectorExtSourceSync, reflectorScale,
                      reflectorMultiplier, None, reflectorMicros);
    StatelessOverride(test, reflectorIp, srcIp, dstUdpPort, srcUdpPort, reflectorSidlist, ssid,
                      reflectorSequenceNumber, reflectorFormat, reflectorExtSourceSync, reflectorScale,
                      reflectorMultiplier, None, reflectorMicros);
    ReplyFixedFields(test, reflectorIp, srcIp, dstUdpPort, srcUdpPort, reflectorSidlist, ssid,
                     reflectorSequenceNumber, reflectorFormat, reflectorExtSourceSync, reflectorScale,
                     reflectorMultiplier, None, reflectorMicros);
  }

  /**
   * A Sender at 2001:db8::1 probing along [2001:db8::2, 2001:db8::3] with
   * SSID 100, sequence number 0 and the "ntp" format: the packet goes to
   * 2001:db8::2 with Segment List [2001:db8::3, 2001:db8::2] and
   * segleft = lastentry = 1; the payload carries sequence number 0, S = 0,
   * Z = 0, Multiplier 1, and SSID 0 rather than 100.
   */
  lemma TwoSegmentNtpScenario(dstIp: Address, unixMicros: nat)
    ensures var r := GenerateStampTestPacket("2001:db8::1", dstIp, 20000, 862, ["2001:db8::2", "2001:db8::3"],
                                             100, 0, "ntp", false, 0, 1, unixMicros);
      && r.Ok?
      && r.value.ipv6.dst == "2001:db8::2"
      && r.value.srh == SegmentRoutingHeader(["2001:db8::3", "2001:db8::2"], 1, 1)
      && var p := DecodeTest(r.value.payload);
      && p.Ok?
      && p.value.sequenceNumber == 0 && p.value.ssid == 0
      && p.value.errorEstimate == ErrorEstimate(0, 0, 0, 1)
  {
    var sidlist: seq<Address> := ["2001:db8::2", "2001:db8::3"];
    assert SelectFormat("ntp") == Ok(NtpV4);
    var r := GenerateStampTestPacket("2001:db8::1", dstIp, 20000, 862, sidlist, 100, 0, "ntp", false, 0, 1, unixMicros);
    TestPacketFields("2001:db8::1", dstIp, 20000, 862, sidlist, 100, 0, "ntp", false, 0, 1, unixMicros);
    var addresses := r.value.srh.addresses;
    assert addresses == Reversed(sidlist);
    assert addresses[0] == "2001:db8::3" && addresses[1] == "2001:db8::2";
    assert addresses == ["2001:db8::3", "2001:db8::2"];
  }
}
