/** Option and Result types shared by the whole model. */
module Wrappers {

  datatype Option<+T> = None | Some(value: T)

  /** The outcome of an operation of the source that can throw. */
  datatype Result<+T, +E> = Success(value: T) | Failure(error: E)
}
