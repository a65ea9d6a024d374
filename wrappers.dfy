/** Failure-carrying result types shared by every module of the model. */
module Wrappers {

  datatype Option<+T> = None | Some(value: T)

  /** A computation that yields a value or an error (Go's `(T, error)` pair). */
  datatype Result<+T, +E> = Success(value: T) | Failure(error: E)

  /** A computation that only succeeds or fails (Go's bare `error` result). */
  datatype Outcome<+E> = Pass | Fail(error: E)
}
