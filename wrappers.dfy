/** Failure-carrying results, standing for the exceptions the battery model raises. */
module Wrappers {

  /** A value, or the error that the source raises instead of returning one. */
  datatype Result<+T, +E> = Ok(value: T) | Err(error: E)

  /** Normal completion, or the error raised by an operation that returns nothing. */
  datatype Outcome<+E> = Pass | Fail(error: E)
}
