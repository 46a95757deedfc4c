/** Failure-carrying result types used for the services' exceptional paths. */
module Wrappers {

  /** A value that may be absent (Java's null or an empty Optional). */
  datatype Option<+T> = None | Some(value: T)

  /** The outcome of an operation that either returns a value or throws a checked exception. */
  datatype Result<+R, +E> = Success(value: R) | Failure(error: E)
}
