/** Option and Result, used wherever the Python code returns None or raises. */
module Wrappers {

  datatype Option<+T> = None | Some(value: T) {
    /** Python's `x or default` / `dict.get(key, default)` for a missing value. */
    function GetOr(default: T): T {
      match this
      case Some(v) => v
      case None => default
    }
  }

  /** An exception raised by the code (KeyError, TypeError, OSError) is a Failure. */
  datatype Result<+R, +E> = Success(value: R) | Failure(error: E)
}
