/** Option and Result: the source's `None` values and its raised exceptions, as values. */
module Wrappers {

  datatype Option<+T> = None | Some(value: T) {
    function GetOr(default: T): T {
      match this
      case Some(v) => v
      case None => default
    }
  }

  datatype Result<+R, +E> = Success(value: R) | Failure(error: E)

  /** An operation that either completes or raises with a message. */
  datatype Outcome<+E> = Pass | Fail(error: E)
}
