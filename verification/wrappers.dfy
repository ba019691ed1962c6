/** Small types and functions the other modules share. */
module Wrappers {
  datatype Option<+T> = None | Some(value: T)

  datatype Result<+T, +E> = Ok(value: T) | Err(error: E)

  /** The id of a block, an upstream key or an access key. */
  datatype Id = Id(name: string)

  function Max(a: int, b: int): int {
    if a >= b then a else b
  }
}
