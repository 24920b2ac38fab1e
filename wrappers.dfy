/** Optional values and results with an error, shared by every module of the model. */
module Wrappers {

  /** A JavaScript value that may be `null`/`undefined` (None) or present (Some). */
  datatype Option<+T> = None | Some(value: T)

  /** The outcome of a handler: a value, or the error the handler reports. */
  datatype Result<+T, +E> = Ok(value: T) | Err(error: E)
}
