/** Small helper datatypes shared by the modules of this model. */
module Wrappers {

  /** A value that may be absent (Java's nullable references). */
  datatype Option<+T> = None | Some(value: T)

  function Max(a: int, b: int): int
  {
    if a < b then b else a
  }

  function Min(a: real, b: real): real
  {
    if a < b then a else b
  }
}
