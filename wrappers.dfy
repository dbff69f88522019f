/** Failure-carrying values used by every module of the model. */
module Wrappers {

  datatype Option<+T> = None | Some(value: T)

  /** A value or the exception the Python code raises instead of returning. */
  datatype Result<+T, +E> = Ok(value: T) | Err(error: E)
}
