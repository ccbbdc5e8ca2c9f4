/** Failure-compatible result types shared by the whole model. */
module Wrappers {

  /** An optional value, standing for Python's `None`-or-value. */
  datatype Option<+T> = None | Some(value: T) {
    function GetOr(default: T): T {
      match this
      case Some(v) => v
      case None => default
    }
  }

  /** The value a Python call returns, or the exception it raises (by its message). */
  datatype Result<+T> = Ok(value: T) | Raised(message: string)
}
