/** Failure-carrying values shared by the modules of the model. */
module Wrappers {

  datatype Option<+T> = None | Some(value: T)

  datatype Result<+R, +E> = Success(value: R) | Failure(error: E)

  /** The outcome of an operation that returns nothing (a `Promise<void>`). */
  datatype Outcome<+E> = Pass | Fail(error: E)
}
