/** Failure-compatible helper datatypes shared by every module. */
module Wrappers {

  /** A value that may be missing (a JavaScript `undefined`, a SQL query with no row). */
  datatype Option<+T> = None | Some(value: T) {
    function GetOr(default: T): T {
      match this
      case Some(v) => v
      case None => default
    }
  }

  /** The outcome of an operation that may fail with an error value. */
  datatype Result<+T, +E> = Success(value: T) | Failure(error: E)
}
