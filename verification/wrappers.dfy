/** Option and Result types for the error paths of the model. */
module Wrappers {

  /** A value that may be missing (pandas' NaN / Python's None). */
  datatype Option<+T> = None | Some(value: T)

  /** The outcome of an operation that can raise. */
  datatype Result<+R, +E> = Success(value: R) | Failure(error: E)
}
