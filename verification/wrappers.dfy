/** Failure-carrying datatypes shared by the clock model. */
module Wrappers {

  /** A value that may be absent (Python's `None`). */
  datatype Option<+T> = None | Some(value: T)

  /** A value or the message of the exception that replaced it. */
  datatype Result<+T, +E> = Ok(value: T) | Err(error: E)
}
