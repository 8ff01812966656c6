/** Failure-carrying wrappers shared by every module of the model. */
module Util {

  /** Python's `None` / a present value. */
  datatype Option<T> = None | Some(value: T) {
    function GetOr(default: T): T {
      match this
      case Some(v) => v
      case None => default
    }
  }

  /** The value a Python call returns, or the exception it raises. */
  datatype Result<T, E> = Ok(value: T) | Err(error: E)
}
