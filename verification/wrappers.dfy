/** Option and Result, the failure-carrying values used throughout the model. */
module Wrappers {

  datatype Option<+T> = None | Some(value: T) {
    function GetOr(default: T): T {
      match this
      case Some(v) => v
      case None => default
    }
  }

  /** An operation that either produced a value or failed with an error of type E. */
  datatype Result<+T, +E> = Ok(value: T) | Err(error: E)
}
