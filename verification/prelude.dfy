/** The result shapes every module speaks in, and the byte. */
module Prelude {
  datatype Option<+T> = None | Some(value: T)

  type Byte = b: nat | b < 256

  datatype Result<+T, +E> = Ok(value: T) | Err(error: E)
}
