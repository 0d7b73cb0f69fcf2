/** Small value types shared by the front-end and back-end models. */
module Base {

  /** JavaScript `null` / Python `None` versus a present value. */
  datatype Option<T> = None | Some(value: T)

  /** A computation that either produces a value or is rejected with an error. */
  datatype Result<T, E> = Success(value: T) | Failure(error: E)

  function Min(a: int, b: int): int { if a <= b then a else b }

  /** `x` is a whole number of times `b`: the quotient has no fractional part. */
  predicate WholeMultiple(x: real, b: real)
    requires b != 0.0
  {
    (x / b).Floor as real == x / b
  }

  /** `b * t` is a whole multiple of `b` for every integer `t`. */
  lemma TimesWhole(b: real, t: int)
    requires b != 0.0
    ensures WholeMultiple(b * t as real, b)
  {
    assert (b * t as real) / b == t as real;
  }
}
