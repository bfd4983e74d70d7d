/** Optional values and success/failure results, used wherever the source
    works with a value that may be absent (`undefined`) or an operation that
    may throw. */
module Wrappers {

  /** A value that may be absent, such as a missing key of a JSON body. */
  datatype Option<+T> = None | Some(value: T) {

    /** The carried value, or `default` when there is none. */
    function GetOr(default: T): T {
      match this
      case Some(v) => v
      case None => default
    }
  }

  /** The outcome of an operation that either produces a value or fails with an error. */
  datatype Result<+T, +E> = Success(value: T) | Failure(error: E)
}
