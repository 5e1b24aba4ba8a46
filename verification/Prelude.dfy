/** Small datatypes shared by every module. */
module Prelude {

  datatype Option<+T> = None | Some(value: T)

  datatype Result<+T, +E> = Ok(value: T) | Err(error: E)

  function Bit(b: bool): int {
    if b then 1 else 0
  }
}
