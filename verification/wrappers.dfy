/** Failure-carrying result types shared by the normaliser and the synchronisation engine. */
module Wrappers {

  datatype Option<+T> = None | Some(value: T)

  /** The outcome of an operation that produces a value or throws. */
  datatype Result<+R, +E> = Success(value: R) | Failure(error: E)

  /** The outcome of an operation that produces nothing or throws. */
  datatype Outcome<+E> = Pass | Fail(error: E)
}
