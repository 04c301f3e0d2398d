/** Failure-compatible results for the exceptions the modelled Python code raises. */
module Wrappers {

  /** A value, or the exception that was raised instead of producing it. */
  datatype Result<+T, +E> = Success(value: T) | Failure(error: E)

  /** Completion of a statement that produces no value: normal, or via an exception. */
  datatype Outcome<+E> = Pass | Fail(error: E)
}
