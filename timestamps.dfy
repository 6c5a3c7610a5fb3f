/**
 * The two timestamp formats of STAMP, the Error Estimate flags that name
 * them, and the split of a wall-clock reading into 32-bit seconds and a
 * 32-bit fraction.  The clock itself is not modelled: the reading is an
 * exact count of microseconds since the Unix epoch, passed in by the caller.
 */
module Timestamps {
  import opened Wire
  import opened Wrappers
  import opened StampErrors

  /** Seconds from 1 January 1900 (NTP epoch) to 1 January 1970 (Unix epoch). */
  const TIMESTAMP_OFFSET: nat := 2208988800
  /** Multiplier of the NTP fraction: the 32-bit mask, not 2^32. */
  const ALL_BITS_MASK: nat := 0xFFFF_FFFF
  /** Multiplier of the PTP fraction: nanoseconds. */
  const ALL_BITS_MASK_PTP: nat := 1_000_000_000
  /** Resolution of the clock reading. */
  const MICROS_PER_SECOND: nat := 1_000_000

  /** The format string both builders take when the caller gives none; it is neither "ntp" nor "ptp". */
  const DEFAULT_TIMESTAMP_FORMAT: string := "TIMESTAMP_FORMAT_NTP"

  /** Value carried in the Z flag of the Error Estimate. */
  datatype TimestampFormat = NtpV4 | PtpV2 {
    function Value(): bit {
      match this
      case NtpV4 => 0
      case PtpV2 => 1
    }
  }

  /** Value carried in the S flag of the Error Estimate. */
  datatype SyncFlag = NoExtSync | ExtSync {
    function Value(): bit {
      match this
      case NoExtSync => 0
      case ExtSync => 1
    }
  }

  datatype Timestamp = Timestamp(seconds: nat, fraction: u32)

  /**
   * The `if timestamp_format == 'ntp' ... elif ... == 'ptp'` selection: only
   * the two exact strings are recognised; any other leaves the format unbound.
   */
  function SelectFormat(timestampFormat: string): (r: Result<TimestampFormat, StampError>)
    ensures r == Ok(NtpV4) <==> timestampFormat == "ntp"
    ensures r == Ok(PtpV2) <==> timestampFormat == "ptp"
    ensures r.Err? ==> r.error == UnsupportedTimestampFormat
  {
    if timestampFormat == "ntp" then Ok(NtpV4)
    else if timestampFormat == "ptp" then Ok(PtpV2)
    else Err(UnsupportedTimestampFormat)
  }

  /** Translation of the `ext_source_sync` argument into the S flag. */
  function SyncFlagOf(extSourceSync: bool): (f: SyncFlag)
    ensures f.Value() == 1 <==> extSourceSync
  {
    if extSourceSync then ExtSync else NoExtSync
  }

  /**
   * NTPv4 64-bit timestamp of a clock reading: whole seconds since 1900 and
   * floor(f * 0xFFFFFFFF) for the sub-second part f (truncated, not rounded).
   */
  function NtpTimestamp(unixMicros: nat): (t: Timestamp)
    ensures t.seconds == unixMicros / MICROS_PER_SECOND + TIMESTAMP_OFFSET
    ensures t.fraction * MICROS_PER_SECOND
              <= (unixMicros % MICROS_PER_SECOND) * ALL_BITS_MASK
              < (t.fraction + 1) * MICROS_PER_SECOND
    ensures t.fraction < ALL_BITS_MASK
  {
    var micros := unixMicros % MICROS_PER_SECOND;
    Timestamp(unixMicros / MICROS_PER_SECOND + TIMESTAMP_OFFSET,
              micros * ALL_BITS_MASK / MICROS_PER_SECOND)
  }

  /**
   * "PTP" timestamp of a clock reading as the library computes it: the
   * seconds carry the same 1900-based offset as NTP, and the fraction is
   * floor(f * 10^9), i.e. whole nanoseconds.
   */
  function PtpTimestamp(unixMicros: nat): (t: Timestamp)
    ensures t.seconds == unixMicros / MICROS_PER_SECOND + TIMESTAMP_OFFSET
    ensures t.fraction * MICROS_PER_SECOND
              <= (unixMicros % MICROS_PER_SECOND) * ALL_BITS_MASK_PTP
              < (t.fraction + 1) * MICROS_PER_SECOND
    ensures t.fraction < ALL_BITS_MASK_PTP
  {
    var micros := unixMicros % MICROS_PER_SECOND;
    Timestamp(unixMicros / MICROS_PER_SECOND + TIMESTAMP_OFFSET,
              micros * ALL_BITS_MASK_PTP / MICROS_PER_SECOND)
  }

  /**
   * The timestamp a builder captures for the selected format: seconds since
   * 1900 in both, and the sub-second part f as floor(f * 0xFFFFFFFF) for
   * NTPv4 or floor(f * 10^9) for PTPv2.
   */
  function CurrentTimestamp(format: TimestampFormat, unixMicros: nat): (t: Timestamp)
    ensures t.seconds == unixMicros / MICROS_PER_SECOND + TIMESTAMP_OFFSET
    ensures format == NtpV4 ==>
      && t.fraction * MICROS_PER_SECOND
           <= (unixMicros % MICROS_PER_SECOND) * ALL_BITS_MASK
           < (t.fraction + 1) * MICROS_PER_SECOND
      && t.fraction < ALL_BITS_MASK
    ensures format == PtpV2 ==>
      && t.fraction * MICROS_PER_SECOND
           <= (unixMicros % MICROS_PER_SECOND) * ALL_BITS_MASK_PTP
           < (t.fraction + 1) * MICROS_PER_SECOND
      && t.fraction < ALL_BITS_MASK_PTP
  {
    match format
    case NtpV4 => NtpTimestamp(unixMicros)
    case PtpV2 => PtpTimestamp(unixMicros)
  }

  /** The PTP fraction is exactly the microseconds of the reading scaled to nanoseconds. */
  lemma PtpFractionIsNanoseconds(unixMicros: nat)
    ensures PtpTimestamp(unixMicros).fraction == (unixMicros % MICROS_PER_SECOND) * 1000
  {
  }

  /**
   * Half a second past the Unix epoch: the NTP fraction is 0x7FFFFFFF, not the
   * 0x80000000 that scaling by 2^32 would give, and the seconds are the offset.
   */
  lemma NtpHalfSecond()
    ensures NtpTimestamp(500_000) == Timestamp(TIMESTAMP_OFFSET, 0x7FFF_FFFF)
  {
  }

  /** The declared default format string selects no format. */
  lemma DefaultFormatUnsupported()
    ensures SelectFormat(DEFAULT_TIMESTAMP_FORMAT) == Err(UnsupportedTimestampFormat)
  {
  }
}
