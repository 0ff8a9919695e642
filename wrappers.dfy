/** Failure-compatible wrappers shared by the model. */
module Wrappers {

  /** A value that may be absent. In the frame model `None` also stands for
      the NaN that pandas writes where a rolling window is not yet full. */
  datatype Option<+T> = None | Some(value: T)

  /** The outcome of an operation that either produces a value or fails. */
  datatype Result<+T, +E> = Success(value: T) | Failure(error: E)
}
