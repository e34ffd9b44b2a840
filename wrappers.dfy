/** Option and Result, the two wrappers the model uses in place of Python's
    None and of an exception that propagates to the caller. */
module Wrappers {

  /** Python's `None` versus a present value. */
  datatype Option<+T> = None | Some(value: T)

  /** A value, or the exception that would have been raised instead. */
  datatype Result<+T, +E> = Ok(value: T) | Err(error: E)
}
