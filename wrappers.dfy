/** Failure-carrying values used throughout the model in place of exceptions. */
module Wrappers {

  datatype Option<+T> = None | Some(value: T)

  /** `Failure(e)` stands for the exception `e` being raised. */
  datatype Result<+R, +E> = Success(value: R) | Failure(error: E)
}
