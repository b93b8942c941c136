/** Option and Result wrappers shared by every module of the model. */
module Wrappers {

  /** A value that may be absent (pandas NaN / Python None). */
  datatype Option<+T> = None | Some(value: T)

  /** The outcome of an operation that may raise. */
  datatype Result<+R, +E> = Success(value: R) | Failure(error: E)
}
