/** Absence and failure as values: the Java code uses `null` for "no value"
    and lets a few exceptions escape; both are explicit here. */
module Wrappers {

  /** A value that may be absent (a Java reference that may be null). */
  datatype Option<+T> = None | Some(value: T) {

    /** The value, or `default` when absent. */
    function GetOr(default: T): T {
      match this
      case Some(v) => v
      case None => default
    }
  }

  /** The outcome of an operation that may end in an exception the source
      does not catch. */
  datatype Result<+R, +E> = Success(value: R) | Failure(error: E)
}
