/** Optional values and results with an error value, shared by every module. */
module Wrappers {

  /** A value that may be missing (`undefined` in the service's own terms). */
  datatype Option<+T> = None | Some(value: T)

  /** The outcome of an operation that may fail: a value, or an error value. */
  datatype Result<+T, +E> = Ok(value: T) | Err(error: E)
}
