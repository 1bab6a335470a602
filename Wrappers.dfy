/** Optional values and results with an error, shared by the graph and the formatter. */
module Wrappers {

  /** A value that may be absent: Java's `null` where the source allows one. */
  datatype Option<+T> = None | Some(value: T) {
    function GetOr(default: T): T {
      match this
      case Some(v) => v
      case None => default
    }
  }

  /** The outcome of an operation that can raise an exception in the source. */
  datatype Result<+R, +E> = Success(value: R) | Failure(error: E)
}
