/** Option, the stand-in for Python's `None`-or-value results. */
module Wrappers {

  datatype Option<+T> = None | Some(value: T) {

    /** Returns the value held in Some, or the given default for None. */
    function GetOr(default: T): T {
      match this
      case Some(v) => v
      case None => default
    }
  }

  /** A value or an error, for operations whose failure the caller sees. */
  datatype Result<+R, +E> = Ok(value: R) | Err(error: E)
}
