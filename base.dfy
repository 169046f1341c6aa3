/** Small value types shared by every module of the model. */
module Base {

  /** Python's `None` or a present value. */
  datatype Option<T> = None | Some(value: T)

  /** A value, or the exception the source raises instead of returning one. */
  datatype Result<T, E> = Ok(value: T) | Err(error: E)

  function Min(a: int, b: int): int { if a <= b then a else b }

  function Max(a: int, b: int): int { if a <= b then b else a }

  /** Python's `int(x)` on a float: truncation toward zero. */
  function TruncToInt(x: real): (n: int)
    ensures x >= 0.0 ==> n as real <= x < n as real + 1.0
    ensures x < 0.0 ==> n as real - 1.0 < x <= n as real
  {
    if x >= 0.0 then x.Floor else -((-x).Floor)
  }
}
