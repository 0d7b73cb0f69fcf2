/**
 * The pieces of Python the back end (backend/app/main.py, backend/app/routes/api.py)
 * leans on: `str.lower`, the floored `%` on floats, and the float functions whose exact
 * IEEE-754 results are not modelled.
 */
module PyRuntime {
  import opened Base

  /**
   * Float behaviour taken from Python and never inspected: `str(x)` (also used by
   * f-strings), `round(x, ndigits)`, `math.sqrt` and `math.pow` (None where it raises
   * ValueError or OverflowError).
   */
  datatype PyMath = PyMath(
    str: real -> string,
    round: (real, int) -> real,
    sqrt: real -> real,
    pow: (real, real) -> Option<real>)

  /** The KELVIN SIGN, which Python lower-cases to the ASCII letter 'k'. */
  const KelvinSign: char := '\U{212A}'

  /** `str.lower` on one character, for the characters whose lower case is ASCII: the
      ASCII capitals and the Kelvin sign. Every other character is kept. */
  function LowerChar(c: char): (l: char)
    ensures 'A' <= c <= 'Z' ==> 'a' <= l <= 'z' && l as int - 'a' as int == c as int - 'A' as int
    ensures c == KelvinSign ==> l == 'k'
    ensures !('A' <= c <= 'Z') && c != KelvinSign ==> l == c
  {
    if 'A' <= c <= 'Z' then (c as int - 'A' as int + 'a' as int) as char
    else if c == KelvinSign then 'k'
    else c
  }

  function Lower(s: string): (r: string)
    ensures |r| == |s|
    ensures forall i :: 0 <= i < |s| ==> r[i] == LowerChar(s[i])
  {
    seq(|s|, i requires 0 <= i < |s| => LowerChar(s[i]))
  }

  /** A string that `str.lower` leaves as it is: no ASCII capital and no Kelvin sign. */
  predicate IsLowerCase(s: string) {
    forall c :: c in s ==> !('A' <= c <= 'Z') && c != KelvinSign
  }

  /** Lower-casing a lower-case string changes nothing. */
  lemma LowerOfLowerCase(s: string)
    requires IsLowerCase(s)
    ensures Lower(s) == s
  {
    forall i | 0 <= i < |s|
      ensures Lower(s)[i] == s[i]
    {
      assert s[i] in s;
    }
  }

  /** A lower-cased string has no upper-case ASCII letter left. */
  lemma LowerHasNoCapitals(s: string)
    ensures forall i :: 0 <= i < |s| ==> !('A' <= Lower(s)[i] <= 'Z')
  {
  }

  /** Lower-casing twice is lower-casing once. */
  lemma LowerIdempotent(s: string)
    ensures Lower(Lower(s)) == Lower(s)
  {
  }

  /** Python's `a % b` on floats: the remainder of floor division, with the sign of the
      divisor. */
  function FlooredMod(a: real, b: real): (r: real)
    requires b != 0.0
  {
    a - b * ((a / b).Floor as real)
  }

  lemma ScaledFraction(b: real, f: real, r: real)
    requires 0.0 <= f < 1.0 && r == b * f
    ensures b > 0.0 ==> 0.0 <= r < b
    ensures b < 0.0 ==> b < r <= 0.0
  {
    if b > 0.0 {
      assert b * (1.0 - f) > 0.0;
    } else if b < 0.0 {
      assert (-b) * (1.0 - f) > 0.0;
      assert (-b) * f >= 0.0;
    }
  }

  /** The floored remainder differs from the dividend by a whole multiple of the
      divisor, lies between 0 and the divisor on the divisor's side, and a dividend
      already in that range is its own remainder. */
  lemma FlooredModBounds(a: real, b: real)
    requires b != 0.0
    ensures b > 0.0 ==> 0.0 <= FlooredMod(a, b) < b
    ensures b < 0.0 ==> b < FlooredMod(a, b) <= 0.0
    ensures (0.0 <= a < b || b < a <= 0.0) ==> FlooredMod(a, b) == a
    ensures WholeMultiple(a - FlooredMod(a, b), b)
  {
    var q := a / b;
    FlooredModMultiple(a, b);
    var fl := q.Floor as real;
    var f := q - fl;
    assert 0.0 <= f < 1.0;
    assert a == b * q;
    assert b * f == b * q - b * fl;
    ScaledFraction(b, f, FlooredMod(a, b));
    if 0.0 <= a < b || b < a <= 0.0 {
      FractionBelowOne(a, b, q);
      assert q.Floor == 0;
      assert FlooredMod(a, b) == a;
    }
  }

  lemma FlooredModMultiple(a: real, b: real)
    requires b != 0.0
    ensures WholeMultiple(a - FlooredMod(a, b), b)
  {
    var t := (a / b).Floor;
    assert a - FlooredMod(a, b) == b * t as real;
    TimesWhole(b, t);
  }

  lemma FractionBelowOne(a: real, b: real, q: real)
    requires (0.0 <= a < b || b < a <= 0.0) && a == b * q
    ensures 0.0 <= q < 1.0
  {
    if b > 0.0 {
      UnitFraction(q, b, a);
    } else {
      UnitFraction(q, -b, -a);
    }
  }

  lemma UnitFraction(x: real, y: real, z: real)
    requires y > 0.0 && x * y == z && 0.0 <= z < y
    ensures 0.0 <= x < 1.0
  {
  }
}
