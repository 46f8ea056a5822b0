/** Failure-carrying results, used where the source raises or returns None. */
module Wrappers {

  datatype Option<T> = None | Some(value: T)

  /** The value an operation computes, or the error it raises. */
  datatype Result<T, E> = Success(value: T) | Failure(error: E)

  /** Completion of an operation that computes no value: it returned, or it raised. */
  datatype Outcome<E> = Pass | Fail(error: E)
}
