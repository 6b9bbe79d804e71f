/** Optional values and results with an error message, shared by every module. */
module Wrappers {

  /** `undefined` / `null` versus a present value. */
  datatype Option<+T> = None | Some(value: T) {
    function GetOr(default: T): T {
      match this
      case Some(v) => v
      case None => default
    }
  }

  /** The outcome of an operation that can throw: a value, or the message of the error. */
  datatype Result<+T> = Ok(value: T) | Err(message: string)
}
