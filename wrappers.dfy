/** Failure-carrying results: the model's stand-in for C++ exceptions. */
module Wrappers {

  datatype Option<+T> = None | Some(value: T)

  /** A computation that either returns a value or throws an error. */
  datatype Result<+T, +E> = Success(value: T) | Failure(error: E)

  /** A computation with no result that either completes or throws. */
  datatype Outcome<+E> = Pass | Fail(error: E)
}
