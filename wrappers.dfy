/** Optional values and results with an error, for the source's nulls and exceptions. */
module Wrappers {

  /** A Java reference that may be null. */
  datatype Option<+T> = None | Some(value: T) {
    /** The value, or `default` when absent. */
    function GetOr(default: T): T {
      match this
      case Some(v) => v
      case None => default
    }
  }

  /** A value computed normally, or the exception that ended the computation. */
  datatype Result<+T, +E> = Success(value: T) | Failure(error: E)
}
