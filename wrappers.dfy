/** Failure-compatible result types shared by every module of the model. */
module Wrappers {

  /** A value that may be absent (a Go nil pointer, a missing map entry). */
  datatype Option<+T> = None | Some(value: T)

  /** A Go `(T, error)` pair: either a value or an error. */
  datatype Result<+T, +E> = Success(value: T) | Failure(error: E)

  /** A Go `error` return on its own: nil (Pass) or an error. */
  datatype Outcome<+E> = Pass | Fail(error: E)
}
