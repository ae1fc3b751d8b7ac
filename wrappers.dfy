/** Failure-carrying values used for the Go `(value, error)` returns of the model. */
module Wrappers {

  datatype Option<+T> = None | Some(value: T)

  datatype Result<+T, +E> = Ok(value: T) | Err(error: E)

  /** A check that either passes or fails with a reason (a Go `error` without a value). */
  datatype Outcome<+E> = Pass | Fail(error: E)
}
