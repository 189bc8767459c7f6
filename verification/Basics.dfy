/** Shared vocabulary: byte strings, optional values and results. */
module Basics {
  newtype byte = b: int | 0 <= b < 256

  type Bytes = seq<byte>

  /** The identifier of a wallet, and the code of a token. */
  type Wallet = string
  type Code = string

  datatype Option<+T> = None | Some(value: T)

  datatype Result<+T, +E> = Ok(value: T) | Err(error: E)
}
