/** Failure-compatible wrappers shared by the modules of the model. */
module Wrappers {

  /** A value that may be absent (a Go nil pointer, map or slice). */
  datatype Option<+T> = None | Some(value: T)

  /** A value or an error (a Go `(T, error)` pair where exactly one is meaningful). */
  datatype Result<+T, +E> = Ok(value: T) | Err(error: E)
}
