/** Option and Result, the two failure-carrying values used throughout the model. */
module Wrappers {

  /** A value that may be absent: JavaScript's `null` (or `undefined`) as a datatype. */
  datatype Option<+T> = None | Some(value: T) {

    /** The value, or `default` when absent: the meaning of JavaScript's `??` operator. */
    function GetOr(default: T): T {
      match this
      case Some(v) => v
      case None => default
    }
  }

  /** The outcome of an operation that may throw: a value, or the error it would throw. */
  datatype Result<+R, +E> = Success(value: R) | Failure(error: E)
}
