/** Option and Result, shared by every module of the model. */
module Wrappers {

  datatype Option<+T> = None | Some(value: T)

  /** A value, or the reason the operation stopped. */
  datatype Result<+T, +E> = Ok(value: T) | Err(error: E)
}
