/** Failure-carrying wrappers shared by the rest of the model. */
module Base {

  /** A value that may be absent (a Python `Optional`, a row that `fetchone` did not find). */
  datatype Option<+T> = None | Some(value: T)

  /** A computed value or the error that stopped the computation. */
  datatype Result<+T, +E> = Ok(value: T) | Err(error: E)

  /** An operation that returns nothing on success or raises an error. */
  datatype Outcome<+E> = Pass | Fail(error: E)

  function Min(a: int, b: int): int
  {
    if a <= b then a else b
  }
}
