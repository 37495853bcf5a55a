/**
 * Failure-carrying result types shared by every module of the model.
 * Go returns `(value, error)` pairs and `nil` pointers; the model uses
 * `Result` for the former and `Option` for the latter.
 */
module Wrappers {

  /** A value that may be absent (a Go nil pointer or an unset sentinel). */
  datatype Option<+T> = None | Some(value: T)

  /** Either a value or the error that replaced it. */
  datatype Result<+T, +E> = Success(value: T) | Failure(error: E)

  /** A unit success value, for Go functions that return only an `error`. */
  datatype Unit = Unit
}
