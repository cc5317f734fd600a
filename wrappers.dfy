/** Option and Result, the two failure-carrying shapes used across the model. */
module Wrappers {

  /** A value that may be absent (TypeScript's `undefined`). */
  datatype Option<+T> = None | Some(value: T) {
    function GetOr(default: T): T {
      match this
      case Some(v) => v
      case None => default
    }
  }

  /** The outcome of an async call: a value, or the message of the Error it throws. */
  datatype Result<+T> = Ok(value: T) | Err(message: string)
}
