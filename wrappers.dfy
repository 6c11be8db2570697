/** Option and Result, used for the dictionary lookups with defaults and the error path. */
module Wrappers {

  /** A value that may be absent, like a key that may be missing from a dict. */
  datatype Option<+T> = None | Some(value: T) {

    /** The value if present, otherwise the default (Python's `dict.get(key, default)`). */
    function GetOr(default: T): T {
      match this
      case Some(v) => v
      case None => default
    }
  }

  datatype Result<+R, +E> = Success(value: R) | Failure(error: E)
}
