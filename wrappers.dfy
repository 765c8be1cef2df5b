/** Failure-compatible result types shared by the puzzle modules. */
module Wrappers {

  datatype Option<+T> = None | Some(value: T)

  /** The value of an operation that either succeeds or raises the given error. */
  datatype Result<+T, +E> = Ok(value: T) | Err(error: E)
}
