/** Failure-carrying values shared by the whole model. */
module Wrappers {

  /** A value that may be absent, as Python's `None`. */
  datatype Option<+T> = None | Some(value: T)

  /** A value or the reason there is none. */
  datatype Result<+T, +E> = Ok(value: T) | Err(error: E)
}
