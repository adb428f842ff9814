/** Optional values and failure results shared by the codec modules. */
module Wrappers {

  /** Python's `None` or a value. */
  datatype Option<+T> = None | Some(value: T)

  /** A value, or the exception the Python code raises instead. */
  datatype Result<+R, +E> = Ok(value: R) | Err(error: E)
}
