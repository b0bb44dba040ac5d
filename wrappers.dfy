/** Option and Result datatypes shared by every module of the model. */
module Wrappers {

  datatype Option<+T> = None | Some(value: T)

  /** A computation that either produces a value or raises `error`. */
  datatype Result<+T, +E> = Success(value: T) | Failure(error: E)

  /** A computation that has only an effect: it passes or raises `error`. */
  datatype Outcome<+E> = Pass | Fail(error: E)
}
