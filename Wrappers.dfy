/** The optional value used where the source has `undefined` or `null`. */
module Wrappers {

  datatype Option<+T> = None | Some(value: T)

  /** A result that is either a value or the error that stopped it. */
  datatype Result<+T, +E> = Ok(value: T) | Err(error: E)
}
