/** Failure-carrying values used in place of Python exceptions. */
module Wrappers {

  datatype Option<+T> = None | Some(value: T)

  /** Success carries the value an operation returns, Failure the exception it raises. */
  datatype Result<+T, +E> = Success(value: T) | Failure(error: E)
}
