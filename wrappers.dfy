/** Option and Result, the two shapes an absent field or a failed call takes in this model. */
module Wrappers {

  /** A value that may be absent: a missing dictionary key, a `None` argument. */
  datatype Option<+T> = None | Some(value: T) {

    /** The carried value, or `default` when absent. */
    function GetOr(default: T): T {
      match this
      case Some(v) => v
      case None => default
    }
  }

  /** The outcome of a call that either returns a value or raises an error. */
  datatype Result<+R, +E> = Success(value: R) | Failure(error: E)
}
