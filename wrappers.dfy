/** Optional values (Python's None) and results that may carry an error (a raised exception). */
module Wrappers {

  /** A value that may be absent, as a nullable column or a `None` default is. */
  datatype Option<+T> = None | Some(value: T) {

    /** The value, or `default` when absent: Python's `x or default` on a nullable number. */
    function GetOr(default: T): T {
      match this
      case Some(v) => v
      case None => default
    }
  }

  /** The outcome of a call that either returns a value or raises an exception. */
  datatype Result<+T, +E> = Success(value: T) | Failure(error: E)
}
