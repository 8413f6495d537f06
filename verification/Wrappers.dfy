/** Types shared by the whole model. */
module Wrappers {
  /** A nullable column. */
  datatype Option<+T> = None | Some(value: T)

  /** A field of a PATCH body: absent, an explicit null, or a value. */
  datatype Field<+T> = Unset | Null | Set(value: T) {
    /** The column after the PATCH. */
    function Over(stored: Option<T>): Option<T> {
      match this
      case Unset => stored
      case Null => None
      case Set(v) => Some(v)
    }
  }

  /** The first half of a handler, up to its write: an error answer, or a request that is
      checked and ready to be written. */
  datatype ReadOutcome<+R> = Refused(code: nat) | Proceed(req: R)

  /** The answer of a handler. */
  datatype Outcome = Accepted | Rejected(code: nat)

  /** Instants count microseconds. */
  const MINUTE: nat := 60_000_000
}
