/** Option and Result values used across the model in place of `null`/`undefined`
    and thrown errors. */
module Wrappers {

  datatype Option<+T> = None | Some(value: T) {
    function GetOr(default: T): T {
      match this
      case Some(v) => v
      case None => default
    }
  }

  /** A computation that either returned a value or threw an error. */
  datatype Result<+T, +E> = Success(value: T) | Failure(error: E)
}
