/** The optional value and the success-or-error value used throughout the model. */
module Wrappers {

  /** A value that may be absent, as Python's `None`. */
  datatype Option<+T> = None | Some(value: T) {
    /** `x if x is not None else default` */
    function GetOr(default: T): T {
      match this
      case Some(v) => v
      case None => default
    }
  }

  /** The outcome of an operation that may fail with an error instead of a value. */
  datatype Result<+R, +E> = Success(value: R) | Failure(error: E)
}
