/** Option and Result: the failure-carrying values used across the model. */
module Wrappers {

  /** A value that may be absent (JavaScript `undefined`, a missing map entry). */
  datatype Option<+T> = None | Some(value: T)

  /** The outcome of an operation that can throw: a value or the error it raised. */
  datatype Result<+T, +E> = Success(value: T) | Failure(error: E)
}
