/** Failure-carrying values shared by every module of the Loca model. */
module Wrappers {

  /** A value that may be absent: JavaScript's `undefined` / `null`. */
  datatype Option<+T> = None | Some(value: T)

  /** The outcome of an operation that can throw: a value or an error message. */
  datatype Result<+T> = Ok(value: T) | Err(message: string)
}
