/** Failure-carrying values used in place of Java's null and exceptions. */
module Wrappers {

  /** A value that may be absent (Java `null`). */
  datatype Option<+T> = None | Some(value: T)

  /** The outcome of an operation that either returns a value or throws. */
  datatype Result<+R, +E> = Success(value: R) | Failure(error: E)
}
