/**
 * `calculate_factorial` and `logarithm` of backend/app/routes/api.py: the guards that
 * reject their inputs, the exact factorial, and which logarithm is taken.
 */
module Scientific {
  import opened Base
  import opened PyRuntime

  /** n!, the product 1 * 2 * ... * n. */
  function Factorial(n: nat): nat
    decreases n
  {
    if n == 0 then 1 else n * Factorial(n - 1)
  }

  /** The largest argument the endpoint accepts (171! no longer fits a float). */
  const FactorialLimit: nat := 170

  datatype FactorialError = NegativeArgument | TooLarge

  /** POST /api/scientific/factorial: negative and too large arguments are rejected,
      every other argument gets its exact factorial. */
  function CalculateFactorial(n: int): (r: Result<nat, FactorialError>)
    ensures r == Failure(NegativeArgument) <==> n < 0
    ensures r == Failure(TooLarge) <==> n > FactorialLimit
    ensures r.Success? <==> 0 <= n <= FactorialLimit
    ensures r.Success? ==> r.value == Factorial(n) && r.value >= 1
  {
    if n < 0 then Failure(NegativeArgument)
    else if n > FactorialLimit then Failure(TooLarge)
    else
      FactorialPositive(n);
      Success(Factorial(n))
  }

  lemma {:induction false} FactorialPositive(n: nat)
    ensures Factorial(n) >= 1
    decreases n
  {
    if n > 0 {
      FactorialPositive(n - 1);
    }
  }

  /** n! is a multiple of every number k from 1 to n: this is the whole number n! / k. */
  function FactorialQuotient(n: nat, k: nat): (q: nat)
    requires 1 <= k <= n
    ensures k * q == Factorial(n)
    decreases n
  {
    if k == n then Factorial(n - 1)
    else
      var c := FactorialQuotient(n - 1, k);
      Regroup(n, k, c);
      n * c
  }

  lemma Regroup(n: nat, k: nat, q: nat)
    ensures n * (k * q) == k * (n * q)
  {
  }

  /** n! never decreases as n grows. */
  lemma {:induction false} FactorialMonotone(a: nat, b: nat)
    requires a <= b
    ensures Factorial(a) <= Factorial(b)
    decreases b
  {
    if a < b {
      FactorialMonotone(a, b - 1);
      AtLeastOnce(b, Factorial(b - 1));
    }
  }

  lemma AtLeastOnce(b: nat, x: nat)
    requires b >= 1
    ensures b * x >= x
  {
  }

  /** Which logarithm the endpoint takes: natural, base 10, base 2, or a custom base. */
  datatype LogBase = NaturalLog | Log10 | Log2 | CustomBase(base: real)

  datatype LogarithmError = NonPositiveValue | InvalidBase

  /** The logarithm requested and the base text shown in the response. */
  datatype LogChoice = LogChoice(kind: LogBase, baseText: string)

  /** POST /api/scientific/logarithm, up to the numeric value of the logarithm. */
  function Logarithm(m: PyMath, value: real, base: Option<real>): (r: Result<LogChoice, LogarithmError>)
    // the value must be positive, whatever the base
    ensures r == Failure(NonPositiveValue) <==> value <= 0.0
    // a custom base must be positive and different from 1
    ensures r == Failure(InvalidBase) <==>
      value > 0.0 && base.Some? && (base.value <= 0.0 || base.value == 1.0)
    // no base means the natural logarithm; 10 and 2 get their own functions
    ensures r.Success? ==>
      && (base.None? ==> r.value == LogChoice(NaturalLog, "e"))
      && (base == Some(10.0) ==> r.value == LogChoice(Log10, "10"))
      && (base == Some(2.0) ==> r.value == LogChoice(Log2, "2"))
      && (r.value.kind.CustomBase? ==>
            base == Some(r.value.kind.base) && r.value.kind.base > 0.0 && r.value.kind.base != 1.0
            && r.value.kind.base != 10.0 && r.value.kind.base != 2.0
            && r.value.baseText == m.str(r.value.kind.base))
    // every other valid base takes the logarithm in that base, shown with `str`
    ensures value > 0.0 && base.Some? && base.value > 0.0
            && base.value != 1.0 && base.value != 2.0 && base.value != 10.0 ==>
      r == Success(LogChoice(CustomBase(base.value), m.str(base.value)))
  {
    if value <= 0.0 then Failure(NonPositiveValue)
    else
      match base
      case None => Success(LogChoice(NaturalLog, "e"))
      case Some(b) =>
        if b == 10.0 then Success(LogChoice(Log10, "10"))
        else if b == 2.0 then Success(LogChoice(Log2, "2"))
        else if b <= 0.0 || b == 1.0 then Failure(InvalidBase)
        else Success(LogChoice(CustomBase(b), m.str(b)))
  }
}
