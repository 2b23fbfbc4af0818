/** Failure-carrying wrappers shared by every module of the quiz model. */
module Common {

  /** `null` / `undefined` in the source, or a value. */
  datatype Option<+T> = None | Some(value: T)

  /** What a source function returns or throws. */
  datatype Result<+T, +E> = Ok(value: T) | Err(error: E)

  function Min(a: int, b: int): int
  {
    if a <= b then a else b
  }

  function Max(a: int, b: int): int
  {
    if a >= b then a else b
  }
}
