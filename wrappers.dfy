/** Failure-compatible wrappers shared by the other modules. */
module Wrappers {

  /** A value that may be absent: the model of a Go nil pointer or a missing map entry. */
  datatype Option<+T> = None | Some(value: T)

  /** A value or an error: the model of Go's `(value, error)` return pair. */
  datatype Result<+T, +E> = Ok(value: T) | Err(error: E)
}
