/** Optional values and outcomes that can be rejected, shared by the page's modules. */
module Wrappers {

  /** Python's `None` or a value. */
  datatype Option<+T> = None | Some(value: T)

  /** A handler outcome: the new state, or the reason the input was refused. */
  datatype Result<+T, +E> = Ok(value: T) | Err(error: E)
}
