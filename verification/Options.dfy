/** The two result shapes the other modules share. */
module Options {
  datatype Option<+T> = None | Some(value: T)

  /** A Python exception is an `Err` carrying its class. */
  datatype Result<+T, +E> = Ok(value: T) | Err(error: E)
}
