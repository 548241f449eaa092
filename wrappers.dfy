/** Failure-compatible wrappers used by every module of the model. */
module Wrappers {

  datatype Option<+T> = None | Some(value: T)

  /** The value a C++ function returns, or the exception it throws. */
  datatype Result<+T, +E> = Success(value: T) | Failure(error: E)

  /** Whether a `void` C++ function returned normally or threw. */
  datatype Outcome<+E> = Pass | Fail(error: E)
}
