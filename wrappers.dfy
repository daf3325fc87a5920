/** Optional values and failing results: `undefined`-able fields and thrown errors. */
module Wrappers {

  /** A value that may be absent (an optional property or `undefined`). */
  datatype Option<+T> = None | Some(value: T)

  /** The outcome of a call that may throw: a value, or the thrown message. */
  datatype Result<+T, +E> = Ok(value: T) | Err(error: E)
}
