/** Failure-carrying wrappers used throughout the model. */
module Wrappers {

  /** An optional value: Python's `None` or a present value. */
  datatype Option<+T> = None | Some(value: T)

  /** A value or an error that the source does not catch. */
  datatype Result<+R, +E> = Ok(value: R) | Err(error: E)
}
