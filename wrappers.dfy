/** Option and Result, the two shapes every handler's answer takes. */
module Wrappers {

  datatype Option<+T> = None | Some(value: T)

  /** A handler either succeeds with a payload or fails with one error kind. */
  datatype Result<+R, +E> = Success(value: R) | Failure(error: E)
}
