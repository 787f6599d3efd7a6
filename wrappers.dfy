/** Option and Result, standing in for Python's `None` and for raised exceptions. */
module Wrappers {

  /** A value that may be missing (`None` in the source). */
  datatype Option<+T> = None | Some(value: T)

  /** The outcome of an operation that raises on failure: the value, or the error message. */
  datatype Result<+T> = Ok(value: T) | Err(error: string)
}
