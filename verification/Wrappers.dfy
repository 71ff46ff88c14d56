/** The failure-compatible datatypes the other modules share. */
module Wrappers {
  datatype Option<+T> = None | Some(value: T)

  /** A value, or the error the source raises in its place. */
  datatype Result<+T, +E> = Ok(value: T) | Err(error: E)
}
