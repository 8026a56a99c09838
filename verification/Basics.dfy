/** Values every module shares. */
module Basics {
  const MAX_INT64 := 0x7fff_ffff_ffff_ffff

  datatype Option<+T> = None | Some(value: T)

  datatype Result<+T, +E> = Ok(value: T) | Err(error: E)
}
