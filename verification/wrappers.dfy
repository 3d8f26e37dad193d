/** Failure-carrying values used where the source returns a fallback or raises. */
module Wrappers {

  /** A value that may be absent (Python's `None`, a failed lookup, a failed parse). */
  datatype Option<+T> = None | Some(value: T) {

    /** The carried value, or `default` when there is none (`dict.get(key, default)`). */
    function GetOr(default: T): T {
      match this
      case Some(v) => v
      case None => default
    }
  }

  /** A computation that either produced a value or raised an error. */
  datatype Result<+R, +E> = Success(value: R) | Failure(error: E)
}
