/** Small failure-carrying datatypes shared by the configuration and logger models. */
module Wrappers {

  /** A value that may be absent: an unset setting, a missing panic, a missing error. */
  datatype Option<+T> = None | Some(value: T) {

    /** The carried value, or `default` when there is none. */
    function GetOr(default: T): T {
      match this
      case Some(v) => v
      case None => default
    }
  }

  /** A value or the error returned in its place. */
  datatype Result<+T, +E> = Success(value: T) | Failure(error: E)

  /** The outcome of an operation that may be cut short by a Go panic. */
  datatype Outcome<+T> = Done(value: T) | Panicked(reason: string)
}
