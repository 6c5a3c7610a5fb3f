# STAMP probe-packet codec

This project models the packet codec of a Python library for STAMP, the Simple Two-way Active Measurement Protocol of RFC 8762, carried over IPv6 with Segment Routing (SRv6) and UDP. The codec lives in `libs/libstamp.py`, and the model proves properties of it. A Session-Sender builds a Test packet: a sequence number, a timestamp, and an Error Estimate (the S sync flag, the Z format flag, Scale and Multiplier). A Session-Reflector parses that packet and builds a Reply. The Reply carries the Reflector's own fields, a Receive Timestamp, and an echo block copied from the Test packet.

The layouts loosely follow sections 4.2.1 and 4.3.1 of RFC 8762. The SSID of section 3 of RFC 8972 comes right after the Error Estimate, and there is no trailing padding. Every field is big-endian and packed back to back:

- Test payload, 16 bytes: SequenceNumber(4), seconds(4), fraction(4), S/Z/Scale/Multiplier(2), SSID(2).
- Reply payload, 41 bytes: the same 16 bytes, then Receive Timestamp(4+4), Sender Sequence Number(4), Sender Timestamp(4+4), Sender S/Z/Scale/Multiplier(2), MBZ(2), SenderTTL(1).

Modules:

- `Wire` (wire.dfy): fixed-width unsigned types (`bit`, `u6`, `u8`, `u16`, `u32`), the signed `i32` of an IntField with its two's-complement pattern, and big-endian conversion.
- `Timestamps` (timestamps.dfy): the `'ntp'`/`'ptp'` format selection, the S flag, and the split of a clock reading into seconds and fraction.
- `StampLayout` (layout.dfy): the two payload records. Encoding concatenates the fields. Decoding reads each field at its fixed byte offset. Round trips in both directions tie the two together.
- `Srv6` (srv6.dfy): the IPv6 destination and the Segment Routing Header (section 2 of RFC 8754) derived from the segment list.
- `Stamp` (stamp.dfy): `generate_stamp_test_packet`, `generate_stamp_reply_packet`, `parse_stamp_test_packet` and `parse_stamp_reply_packet`. Headers are plain records here.
- `StampProperties` (properties.dfy): where each field of a built packet comes from, stated through the decoder.
- `Wrappers`, `StampErrors` (wrappers.dfy): the `Result` type and the three failure kinds.

Behaviour of the code that the model reproduces on purpose:

- The format strings are exactly `"ntp"` (Z = 0) and `"ptp"` (Z = 1). Any other string leaves `timestamp` unbound, and the build fails. This includes the declared default `'TIMESTAMP_FORMAT_NTP'`. The model returns `Err(UnsupportedTimestampFormat)`.
- An empty segment list fails at `sidlist[0]` (`Err(EmptySegmentList)`). Failures are reported in the order Python evaluates them. For a Test: the segment list first, then the format. For a Reply: the Test payload, then the segment list, then the format.
- Neither builder passes `ssid` to the payload, so the SSID is always the field default, 0. Neither builder uses `dst_ip` either: the destination is the first segment.
- The NTP fraction is floor(f * 0xFFFFFFFF), using the mask rather than 2^32 and truncating rather than rounding. The "PTP" seconds carry the same 1900-based offset as NTP, even though the docstring describes a 1970 TAI epoch. The PTP fraction is whole nanoseconds.
- A 32-bit BitField keeps the low 32 bits of the seconds, so seconds wrap after the NTP era ends in 2036.
- The Reply reuses the Reflector's single timestamp as its Receive Timestamp. MBZ = 0 and SenderTTL = 0, although the layout default of SenderTTL is 255.
- `parse_stamp_reply_packet` does not report the Sender Sequence Number or MBZ, and neither does `ParsedReply`. The stateless-mode override is therefore stated on the decoded payload (`DecodeReply`).
- `SequenceNumber` and `SequenceNumberSender` are IntFields, which are signed: a Sequence Number whose top bit is set is reported as negative (bytes `80 00 00 00` read as -2^31), and the builders take sequence numbers from -2^31 to 2^31-1, written in two's complement.
- Bytes past the layout are ignored by the parsers.

## Model

| member | source | states |
|---|---|---|
| Wire.FromBigEndian | libs/libstamp.py:82-84 | the value read from n big-endian bytes is below 256^n |
| Wire.FromToBigEndian | libs/libstamp.py:82-90 | reading back a value written as n big-endian bytes gives the value, when it fits in n bytes |
| Wire.ToFromBigEndian | libs/libstamp.py:82-90 | writing back the value of a byte string gives the same bytes |
| Wire.TwosComplement32 | libs/libstamp.py:82 | the 32-bit pattern an IntField writes for a signed value: congruent to it mod 2^32, with the top bit set iff the value is negative |
| Wire.Signed32 | libs/libstamp.py:82 | the signed value an IntField reads from a 32-bit pattern: congruent to it mod 2^32, negative iff the top bit is set |
| Wire.I32RoundTrip | libs/libstamp.py:82 | reading back the four bytes written for a signed sequence number gives the number |
| Wire.I32Canonical | libs/libstamp.py:82 | every four bytes are the encoding of the signed value they read as |
| Wire.LowBits32 | libs/libstamp.py:83-84 | a 32-bit field keeps v mod 2^32: at most v, congruent to v, and v itself when v fits |
| Timestamps.SelectFormat | libs/libstamp.py:273-278 | NTP iff the string is "ntp", PTP iff it is "ptp", and an UnsupportedTimestampFormat error for any other string |
| Timestamps.SyncFlagOf | libs/libstamp.py:280-284 | the S flag is 1 iff ext_source_sync is true |
| Timestamps.NtpTimestamp | libs/libstamp.py:163-167 | seconds = Unix seconds + 2208988800; fraction = floor(f * 0xFFFFFFFF) for the sub-second part f, which is at most 0xFFFFFFFE |
| Timestamps.PtpTimestamp | libs/libstamp.py:196-198 | seconds = Unix seconds + 2208988800; fraction = floor(f * 10^9), below 10^9 |
| Timestamps.CurrentTimestamp | libs/libstamp.py:273-278 | seconds = Unix seconds + 2208988800 in both formats; the fraction is floor(f * 0xFFFFFFFF) for NTPv4 and floor(f * 10^9) for PTPv2, each below its bound |
| Timestamps.PtpFractionIsNanoseconds | libs/libstamp.py:198 | the PTP fraction equals the reading's microseconds times 1000 |
| Timestamps.NtpHalfSecond | libs/libstamp.py:163-167 | at half a second past the Unix epoch the NTP timestamp is (2208988800, 0x7FFFFFFF) |
| Timestamps.DefaultFormatUnsupported | libs/libstamp.py:233 | the default format string 'TIMESTAMP_FORMAT_NTP' selects no format |
| StampLayout.EncodeErrorEstimate | libs/libstamp.py:85-89 | S, Z, Scale and Multiplier take exactly two bytes |
| StampLayout.ErrorEstimateRoundTrip | libs/libstamp.py:85-89 | decoding the two encoded bytes by bit position returns S, Z, Scale and Multiplier unchanged |
| StampLayout.ErrorEstimateCanonical | libs/libstamp.py:85-89 | every pair of bytes is the encoding of the Error Estimate it decodes to |
| StampLayout.EncodeTest | libs/libstamp.py:80-90 | a Test payload encodes to exactly 16 bytes |
| StampLayout.EncodeReply | libs/libstamp.py:93-116 | a Reply payload encodes to exactly 41 bytes |
| StampLayout.DecodeTest | libs/libstamp.py:465-475 | dissection fails with PacketTooShort iff fewer than 16 bytes are present |
| StampLayout.DecodeReply | libs/libstamp.py:510-533 | dissection fails with PacketTooShort iff fewer than 41 bytes are present |
| StampLayout.TopBitSequenceNumberIsNegative | libs/libstamp.py:82 | a Test payload starting 80 00 00 00 reports Sequence Number -2^31 |
| StampLayout.TestRoundTrip | libs/libstamp.py:80-90 | decoding an encoded Test payload, whatever follows it, returns all its fields |
| StampLayout.TestDecodeCanonical | libs/libstamp.py:465-475 | re-encoding a decoded Test payload gives back its first 16 bytes |
| StampLayout.ReplyRoundTrip | libs/libstamp.py:93-116 | decoding an encoded Reply payload, whatever follows it, returns all its fields |
| StampLayout.ReplyDecodeCanonical | libs/libstamp.py:510-533 | re-encoding a decoded Reply payload gives back its first 41 bytes |
| Srv6.Reversed | libs/libstamp.py:293 | `sidlist[::-1]`: same length, element i is element n-1-i of the input |
| Srv6.ReversedTwice | libs/libstamp.py:293 | reversing twice gives the original list |
| Srv6.SegmentRouting | libs/libstamp.py:289-295 | fails iff the list is empty; otherwise destination = sidlist[0], segleft = lastentry = n-1, and addresses[lastentry-k] = sidlist[k] |
| Srv6.ActiveSegmentIsDestination | libs/libstamp.py:289-295 | the active segment addresses[segleft] is the IPv6 destination, and lastentry indexes the last address |
| Srv6.SegmentListRestoresPath | libs/libstamp.py:293 | reading the Segment List back to front gives the caller's path |
| Srv6.ThreeSegmentExample | libs/libstamp.py:289-295 | [A,B,C] gives destination A, addresses [C,B,A] and segleft = lastentry = 2 |
| Stamp.ParseStampTestPacket | libs/libstamp.py:441-490 | fails iff the payload is shorter than 16 bytes; otherwise reports the IPv6 and UDP addresses and ports, and a record (sequence number signed) that re-encodes to the payload's first 16 bytes |
| Stamp.ParseStampReplyPacket | libs/libstamp.py:493-552 | fails iff the payload is shorter than 41 bytes; otherwise the record (sequence number signed), completed with the two fields it omits, re-encodes to the first 41 bytes |
| Stamp.GenerateStampTestPacket | libs/libstamp.py:231-317 | succeeds iff the segment list is non-empty and the format is "ntp" or "ptp", with the errors in evaluation order; IPv6 destination, SRH and UDP ports derived from the arguments; a 16-byte payload |
| Stamp.GenerateStampReplyPacket | libs/libstamp.py:320-438 | succeeds iff the Test payload has 16 bytes, the segment list is non-empty and the format is supported, with the errors in evaluation order; the same header derivation; a 41-byte payload |
| StampProperties.TestPacketFields | libs/libstamp.py:302-311 | the decoded Test carries the caller's sequence number, Scale and Multiplier; Z = 0 iff "ntp", Z = 1 iff "ptp"; S = 1 iff ext_source_sync; SSID = 0 whatever ssid was passed |
| StampProperties.TestPacketTimestamp | libs/libstamp.py:272-278 | the decoded Test timestamp is the clock reading: seconds since 1900 mod 2^32, and the NTP fraction or whole nanoseconds |
| StampProperties.DefaultFormatBuildsNothing | libs/libstamp.py:231-235 | with the default format string, neither builder yields a packet |
| StampProperties.ReplyEchoFidelity | libs/libstamp.py:425-430 | the Reply's Sender Timestamp and Sender Error Estimate equal the parsed Test's fields, and Reply bytes 28..38 equal Test bytes 4..14 |
| StampProperties.StatelessOverride | libs/libstamp.py:389-394 | with an override v the Sender Sequence Number is v; without one it is the Test's sequence number, byte for byte |
| StampProperties.ReplyFixedFields | libs/libstamp.py:413-432 | the Reply's own sequence number, Scale and Multiplier are the caller's; Z and S follow the format and sync flag; the Reply's own Timestamp is the clock reading (seconds since 1900 mod 2^32, and the NTP fraction or whole nanoseconds) and the Receive Timestamp equals it; MBZ, SenderTTL and SSID are 0 |
| StampProperties.SenderReflectorExchange | libs/libstamp.py:372-432 | a Reply built for a Sender's Test packet parses, and its echo reports the Sender's sequence number, clock reading, flags, Scale and Multiplier, with SenderTTL 0 |
| StampProperties.TwoSegmentNtpScenario | libs/libstamp.py:286-311 | with path [2001:db8::2, 2001:db8::3], ssid 100 and "ntp": destination 2001:db8::2, Segment List [2001:db8::3, 2001:db8::2], segleft = lastentry = 1, sequence number 0, S = Z = 0, Multiplier 1, SSID 0 |

## Left out

- `send_stamp_packet` (libs/libstamp.py:555-581): socket I/O and scapy's `send`.
- The wall clock: `datetime.now()` is replaced by the `unixMicros` argument, an exact count of microseconds since the Unix epoch. The float arithmetic of `get_timestamp_ntp`/`get_timestamp_ptp` is computed exactly, so the float rounding of the sum and product is not captured.
- Timestamps.PtpFractionIsNanoseconds: holds for the exact reading only. The program's `timestamp` is a double near 3.9e9 with a resolution of 2^-21 s, so its PTP fraction is generally not a multiple of 1000.
- `reassemble_timestamp_ntp` (libs/libstamp.py:208-228), and with it the real-valued `timestamp`, `receive_timestamp` and `sender_timestamp` fields of the parsed records. It builds a float from the string `'0.{fraction}'`, which is not fraction / 2^32. Its result has no exact meaning to model.
- Logging calls.
- The scapy `Packet` machinery: the byte encoding of the IPv6, SRH and UDP headers, and `decode_payload_as`. The headers are records. A received packet always has its IPv6 and UDP layers, so the error raised when `packet[IPv6]` or `packet[UDP]` is missing is not modelled.
- Stamp.GenerateStampTestPacket: takes the sequence number in the signed 32-bit range and Scale, Multiplier and ports within their field widths. Scapy's handling of values outside those ranges is not modelled: a BitField keeps the low bits, and an IntField, ShortField or ByteField raises an error.
- Stamp.GenerateStampTestPacket: the default arguments `ext_source_sync=False`, `scale=0` and `multiplier=1` have no counterpart; every caller passes all of them. The same holds for Stamp.GenerateStampReplyPacket, whose `sender_sequence_number=None` default is the `None` of its `Option` argument. The default format string is covered by StampProperties.DefaultFormatBuildsNothing.
- Stamp.GenerateStampReplyPacket: the same restriction on caller values as the Test builder. It also fails with `PacketTooShort` when the Test payload is shorter than 16 bytes, where the program builds a Reply from whatever fields scapy dissected, defaults included.
- StampLayout.DecodeTest: a payload shorter than the layout is rejected with `Err(PacketTooShort)`; this is a choice of the model. `decode_payload_as` dissects truncated input field by field, and an empty payload yields every field at its default; that is not modelled.
- StampLayout.DecodeReply: the same treatment of truncated input as DecodeTest.
- Stamp.ParseStampTestPacket: inherits the rejection of a payload shorter than 16 bytes from DecodeTest; the program reports default or partially dissected fields instead.
- Stamp.ParseStampReplyPacket: inherits the rejection of a payload shorter than 41 bytes from DecodeReply; the program reports default or partially dissected fields instead.
