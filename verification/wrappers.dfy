/** Failure-carrying result types shared by the modules of this model. */
module Wrappers {

  /** A value that may be absent. */
  datatype Option<+T> = None | Some(value: T)

  /** Either a value or the reason the operation refused its input. */
  datatype Result<+T, +E> = Success(value: T) | Failure(error: E)
}
