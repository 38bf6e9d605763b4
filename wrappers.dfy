/** Optional values and results shared by the serving model. */
module Wrappers {

  /** Python's `Optional[T]`: `None` or a present value. */
  datatype Option<+T> = None | Some(value: T)

  /** A value, or the error a Python function would have raised or returned instead. */
  datatype Result<+T, +E> = Ok(value: T) | Err(error: E)
}
