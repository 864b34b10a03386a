/** Option and Result, the failure-carrying values used throughout the model. */
module Wrappers {

  /** A value that may be absent (JavaScript `undefined` or `null`). */
  datatype Option<+T> = None | Some(value: T) {

    /** The carried value, or `default` when absent (JavaScript's `x || default`
        for values that are never falsy). */
    function GetOr(default: T): (got: T) {
      match this
      case Some(v) => v
      case None => default
    }
  }

  /** The outcome of a call that may throw: `Failure` carries the thrown error,
      rendered as a string. */
  datatype Result<+R, +E> = Success(value: R) | Failure(error: E)
}
