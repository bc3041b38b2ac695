/** Absence and failure values shared by the whole model. */
module Wrappers {

  /** A value that may be missing: JavaScript's `null` / `undefined`. */
  datatype Option<+T> = None | Some(value: T)

  /** The outcome of a request handler: an accepted value or a rejection. */
  datatype Result<+T, +E> = Ok(value: T) | Err(error: E)
}
