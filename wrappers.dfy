/** Wrappers used for the error paths of the connector supervisor. */
module Wrappers {

  datatype Option<T> = None | Some(value: T)

  /** The outcome of an operation that returns nothing or raises. */
  datatype Outcome<E> = Pass | Fail(error: E)

  /** The outcome of an operation that computes a value or raises. */
  datatype Result<T, E> = Success(value: T) | Failure(error: E)
}
