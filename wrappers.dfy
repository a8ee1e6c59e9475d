/** Option and Result, the failure-carrying wrappers used throughout the model. */
module Wrappers {

  datatype Option<+T> = None | Some(value: T)

  /** A computation that either succeeds with a value or fails with an error
      (the model of a Python function that returns or raises). */
  datatype Result<+T, +E> = Success(value: T) | Failure(error: E)
}
