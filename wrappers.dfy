/** Optional values and error results shared by the modules of the model. */
module Wrappers {

  /** A value that may be absent (Python's `None`). */
  datatype Option<+T> = None | Some(value: T)

  /** A value or the exception the Python code would raise instead. */
  datatype Result<+T> = Ok(value: T) | Err(error: string)
}
