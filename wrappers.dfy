/** Option, Result and Outcome: the value-or-failure shapes used across the model. */
module Wrappers {

  /** A value that may be missing. */
  datatype Option<+T> = None | Some(value: T)

  /** A computation that either yields a value or raises an error. */
  datatype Result<+R, +E> = Success(value: R) | Failure(error: E)

  /** A step that either completes or raises an error, without a value. */
  datatype Outcome<+E> = Pass | Fail(error: E)
}
