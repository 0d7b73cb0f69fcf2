/**
 * The JavaScript values the calculator front end (frontend/src/App.jsx) stores and
 * combines, and its evaluation function `calculate`.
 *
 * Numbers are exact reals: IEEE-754 rounding, infinities and -0 are not modelled.
 * Formatting a number (`String(x)`) is a parameter `show` that is never interpreted.
 */
module JsNumbers {
  import opened Base

  /** A value held in `previousValue` or produced by `calculate`: a finite number,
      NaN, or a string (the 'Error' sentinel and anything concatenated onto it). */
  datatype JsValue = Num(r: real) | NaN | Text(s: string)

  /** What `parseFloat` and numeric operators produce: never a string. */
  type Number = v: JsValue | !v.Text? witness NaN

  /** The sentinel `calculate` and `squareRoot` put in place of a number. */
  const ErrorText: string := "Error"
  const ErrorValue: JsValue := Text(ErrorText)

  /** The operator symbols `calculate` recognises; every other symbol ('=' included)
      passes its second operand through. */
  const Plus: string := "+"
  const Minus: string := "-"
  const Times: string := "×"
  const Divide: string := "÷"
  const Percent: string := "%"

  predicate IsArithmetic(op: string) {
    op == Plus || op == Minus || op == Times || op == Divide || op == Percent
  }

  /** JavaScript truthiness: 0, NaN and the empty string are falsy. */
  predicate Truthy(v: JsValue) {
    match v
    case Num(r) => r != 0.0
    case NaN => false
    case Text(s) => s != ""
  }

  /** `v || 0`: a truthy operand is kept, every falsy one becomes the number 0. */
  function OrZero(v: JsValue): (r: JsValue)
    ensures Truthy(v) ==> r == v
    ensures !Truthy(v) ==> r == Num(0.0)
    ensures r.Text? ==> r == v
  {
    if Truthy(v) then v else Num(0.0)
  }

  /** Numeric coercion of an operand of `-`, `*`, `/`, `%`. Every string the calculator
      can hold begins with "Error", which no JavaScript numeric literal does, so a
      string always coerces to NaN here. */
  function ToNumber(v: JsValue): (n: Number)
    ensures v.Text? ==> n == NaN
    ensures !v.Text? ==> n == v
  {
    if v.Text? then NaN else v
  }

  /** `String(v)`, with the formatting of finite numbers left to `show`. */
  function Show(show: real -> string, v: JsValue): string {
    match v
    case Num(r) => show(r)
    case NaN => "NaN"
    case Text(s) => s
  }

  /** Truncation toward zero, as JavaScript's `%` uses it. */
  function Trunc(q: real): (t: int)
    ensures q >= 0.0 ==> t as real <= q < t as real + 1.0
    ensures q < 0.0 ==> t as real - 1.0 < q <= t as real
  {
    if q >= 0.0 then q.Floor else -((-q).Floor)
  }

  /** JavaScript `a % b` on numbers: the remainder of truncating division, NaN when
      either side is NaN or the divisor is 0 (the source does not guard `%`). */
  function Remainder(a: Number, b: Number): (r: Number)
    ensures r.NaN? <==> a.NaN? || b.NaN? || b == Num(0.0)
  {
    if a.NaN? || b.NaN? || b.r == 0.0 then NaN
    else Num(a.r - b.r * (Trunc(a.r / b.r) as real))
  }

  function Abs(x: real): real { if x < 0.0 then -x else x }

  lemma AbsOfProduct(x: real, y: real)
    ensures Abs(x * y) == Abs(x) * Abs(y)
  {
    if x < 0.0 && y < 0.0 { assert x * y == (-x) * (-y); }
    else if x < 0.0 { assert -(x * y) == (-x) * y; }
    else if y < 0.0 { assert -(x * y) == x * (-y); }
  }

  lemma ScaledDown(x: real, f: real)
    requires x > 0.0 && 0.0 <= f < 1.0
    ensures x * f < x
  {
    assert x * (1.0 - f) > 0.0;
  }

  lemma BelowOne(x: real, y: real, z: real)
    requires y > 0.0 && x * y == z && z < y
    ensures x < 1.0
  {
  }

  lemma QuotientBelowOne(a: real, b: real)
    requires b != 0.0 && Abs(a) < Abs(b)
    ensures Abs(a / b) < 1.0
  {
    var q := a / b;
    assert q * b == a;
    AbsOfProduct(q, b);
    BelowOne(Abs(q), Abs(b), Abs(a));
  }

  /** The remainder is `b * f` where `f = a / b - Trunc(a / b)` has `|f| < 1` and the
      sign of `a / b`. */
  lemma RemainderAsFraction(a: real, b: real) returns (f: real)
    requires b != 0.0
    ensures Remainder(Num(a), Num(b)) == Num(b * f)
    ensures Abs(f) < 1.0 && f * (a / b) >= 0.0
    ensures Abs(a) < Abs(b) ==> f == a / b
  {
    var q := a / b;
    f := q - Trunc(q) as real;
    assert a == b * q;
    if Abs(a) < Abs(b) {
      QuotientBelowOne(a, b);
    }
  }

  lemma SameSignProduct(b: real, f: real, q: real)
    requires f * q >= 0.0
    ensures (b * f) * (b * q) >= 0.0
  {
    assert (b * f) * (b * q) == (b * b) * (f * q);
  }

  /** The remainder differs from the dividend by a whole multiple of the divisor, is
      smaller than the divisor in magnitude, has the sign of the dividend, and leaves a
      dividend smaller than the divisor unchanged. */
  lemma RemainderBounds(a: real, b: real)
    requires b != 0.0
    ensures Remainder(Num(a), Num(b)).Num?
    ensures WholeMultiple(a - Remainder(Num(a), Num(b)).r, b)
    ensures Abs(Remainder(Num(a), Num(b)).r) < Abs(b)
    ensures Remainder(Num(a), Num(b)).r * a >= 0.0
    ensures Abs(a) < Abs(b) ==> Remainder(Num(a), Num(b)).r == a
  {
    var t := Trunc(a / b);
    assert a - Remainder(Num(a), Num(b)).r == b * t as real;
    TimesWhole(b, t);
    var f := RemainderAsFraction(a, b);
    RemainderBelowDivisor(b, f);
    RemainderSign(a, b, f);
    if Abs(a) < Abs(b) {
      assert b * (a / b) == a;
    }
  }

  lemma RemainderBelowDivisor(b: real, f: real)
    requires b != 0.0 && Abs(f) < 1.0
    ensures Abs(b * f) < Abs(b)
  {
    AbsOfProduct(b, f);
    ScaledDown(Abs(b), Abs(f));
  }

  lemma RemainderSign(a: real, b: real, f: real)
    requires b != 0.0 && f * (a / b) >= 0.0
    ensures (b * f) * a >= 0.0
  {
    var q := a / b;
    assert a == b * q;
    SameSignProduct(b, f, q);
  }

  /** Numeric `+`, `-`, `*`, `/` with NaN propagation. */
  function Sum(a: Number, b: Number): Number {
    if a.NaN? || b.NaN? then NaN else Num(a.r + b.r)
  }

  function Difference(a: Number, b: Number): Number {
    if a.NaN? || b.NaN? then NaN else Num(a.r - b.r)
  }

  function Product(a: Number, b: Number): Number {
    if a.NaN? || b.NaN? then NaN else Num(a.r * b.r)
  }

  function Quotient(a: Number, b: Number): Number
    requires b != Num(0.0)
  {
    if a.NaN? || b.NaN? then NaN else Num(a.r / b.r)
  }

  /**
   * `calculate(firstValue, secondValue, operation)` of App.jsx. The second operand is
   * always a `parseFloat` result; the first may be the 'Error' sentinel fed back in.
   */
  function Calculate(show: real -> string, first: JsValue, second: Number, op: string): (r: JsValue)
    // the only error produced on a numeric first operand is division by zero
    ensures !first.Text? ==> (r.Text? <==> op == Divide && second == Num(0.0))
    ensures op == Divide && second == Num(0.0) ==> r == ErrorValue
    // '=' and every unknown symbol return the second operand unchanged
    ensures !IsArithmetic(op) ==> r == second
    // modulo by zero is not guarded: it yields NaN, not the sentinel
    ensures op == Percent && second == Num(0.0) ==> r == NaN
    // exact arithmetic on two finite numbers
    ensures first.Num? && second.Num? ==>
      && (op == Plus ==> r == Num(first.r + second.r))
      && (op == Minus ==> r == Num(first.r - second.r))
      && (op == Times ==> r == Num(first.r * second.r))
      && (op == Divide && second.r != 0.0 ==> r == Num(first.r / second.r))
      && (op == Percent ==> r == Remainder(first, second))
    // NaN on either side of a numeric operator gives NaN
    ensures (IsArithmetic(op) && !first.Text? && (first.NaN? || second.NaN?)
             && !(op == Divide && second == Num(0.0))) ==> r == NaN
    // a string first operand is concatenated by '+' and is NaN for the others
    ensures first.Text? && op == Plus ==> r.Text? && first.s <= r.s
    ensures (first.Text? && IsArithmetic(op) && op != Plus
             && !(op == Divide && second == Num(0.0))) ==> r == NaN
  {
    if op == Plus then
      if first.Text? then Text(first.s + Show(show, second)) else Sum(first, second)
    else if op == Minus then Difference(ToNumber(first), second)
    else if op == Times then Product(ToNumber(first), second)
    else if op == Divide then
      if second != Num(0.0) then Quotient(ToNumber(first), second) else ErrorValue
    else if op == Percent then Remainder(ToNumber(first), second)
    else second
  }
}
