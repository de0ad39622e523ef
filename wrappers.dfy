/** Optional values and success-or-error results, shared by every module. */
module Wrappers {

  datatype Option<+T> = None | Some(value: T)

  /** The outcome of a request handler: a value, or the error it answers with. */
  datatype Result<+T, +E> = Ok(value: T) | Err(error: E)
}
