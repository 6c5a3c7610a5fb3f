/** Failure-compatible result type used by every operation that can fail. */
module Wrappers {

  datatype Option<T> = None | Some(value: T)

  datatype Result<T, E> = Ok(value: T) | Err(error: E) {
    predicate IsFailure() { Err? }

    function PropagateFailure<U>(): Result<U, E>
      requires Err?
    {
      Err(error)
    }

    function Extract(): T
      requires Ok?
    {
      value
    }
  }
}

/** The ways building or parsing a STAMP packet can fail. */
module StampErrors {

  datatype StampError =
    | PacketTooShort               // payload shorter than the layout it is dissected with
    | UnsupportedTimestampFormat   // format string neither "ntp" nor "ptp": `timestamp` is never bound
    | EmptySegmentList             // `sidlist[0]` on an empty segment list
}
