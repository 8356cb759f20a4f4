/** The optional value and the result-or-error value the modules share. */
module Wrappers {
  /** A value that may be missing (Python's `None`, JavaScript's `null`). */
  datatype Option<T> = None | Some(value: T)

  /** A value, or the message of the exception raised instead. */
  datatype Result<T> = Ok(value: T) | Err(error: string)
}
