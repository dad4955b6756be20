/** Option and Result, the two failure-carrying datatypes the model uses
    in place of JavaScript's `undefined` and of thrown assertion errors. */
module Wrappers {

  datatype Option<+T> = None | Some(value: T)

  /** A computation that either produces a value or stops with an error. */
  datatype Result<+T, +E> = Success(value: T) | Failure(error: E)
}
