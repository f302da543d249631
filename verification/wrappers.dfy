/** Optional values and error-carrying results used by the graph model. */
module Wrappers {

  /** A value that may be absent: an unbound input slot is `None`. */
  datatype Option<+T> = None | Some(value: T)

  /** The outcome of an operation that may throw in the original library. */
  datatype Result<+R, +E> = Ok(value: R) | Err(error: E)
}
