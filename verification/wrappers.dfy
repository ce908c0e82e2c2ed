/** Optional values and error-or-value results used across the model. */
module Wrappers {

  /** A value that may be absent (`null`, `undefined`, or an unset key in the source). */
  datatype Option<+T> = None | Some(value: T)

  /** The outcome of a handler that either answers or returns an error object. */
  datatype Result<+T, +E> = Ok(value: T) | Err(error: E)
}
