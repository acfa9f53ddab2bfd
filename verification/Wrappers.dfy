/** The two result shapes the other modules share. */
module Wrappers {

  datatype Option<+T> = None | Some(value: T)

  /** A TypeScript `throw`, a Solidity `revert` or an error return, as a value. */
  datatype Result<+T, +E> = Ok(value: T) | Err(error: E)
}
