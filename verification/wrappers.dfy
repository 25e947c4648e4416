/** The Option and Result types used across the model. */
module Wrappers {

  /** An optional value: a JavaScript property that may be absent, a DOM lookup that may find nothing. */
  datatype Option<+T> = None | Some(value: T)

  /** The outcome of an operation that may fail with an error value. */
  datatype Result<+R, +E> = Success(value: R) | Failure(error: E)
}
