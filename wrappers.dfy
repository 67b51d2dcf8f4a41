/** Success/failure values standing in for Go's `(T, error)` returns. */
module Wrappers {

  datatype Option<+T> = None | Some(value: T)

  datatype Result<+T, +E> = Success(value: T) | Failure(error: E)

  /** An operation that returns only an `error`: nil or an error value. */
  datatype Outcome<+E> = Pass | Fail(error: E)
}
