/**
 * Typing digits and the decimal point into the calculator display
 * (`inputDigit` and `inputDecimal` of frontend/src/App.jsx), and what any run of such
 * key presses leaves on the display.
 */
module DisplayEntry {

  /** The argument of `inputDigit`: the buttons and the keyboard only pass 0 to 9. */
  type Digit = d: int | 0 <= d <= 9

  predicate IsDigitChar(c: char) { '0' <= c <= '9' }

  /** `String(digit)` for a single digit. */
  function DigitChar(d: Digit): (c: char)
    ensures IsDigitChar(c) && c as int - '0' as int == d
  {
    (d + '0' as int) as char
  }

  /** The display after `inputDigit(d)`: a fresh operand starts with the digit, a lone
      "0" is replaced, anything else is extended. */
  function AfterDigit(display: string, waiting: bool, d: Digit): (r: string)
    ensures |r| > 0 && r[|r| - 1] == DigitChar(d)
    ensures (waiting || display == "0") ==> r == [DigitChar(d)]
    ensures (!waiting && display != "0") ==> r[..|r| - 1] == display
  {
    if waiting || display == "0" then [DigitChar(d)] else display + [DigitChar(d)]
  }

  /** The display after `inputDecimal()`: "0." on a fresh operand, otherwise a point is
      appended only when the display has none. */
  function AfterDecimal(display: string, waiting: bool): (r: string)
    ensures waiting ==> r == "0."
    ensures !waiting ==> ('.' in display <==> r == display)
    ensures (!waiting && '.' !in display) ==> r == display + "."
    ensures '.' in r
  {
    if waiting then "0."
    else if '.' !in display then display + "."
    else display
  }

  /** A second decimal press never changes the display again. */
  lemma AfterDecimalIdempotent(display: string, waiting: bool)
    ensures AfterDecimal(AfterDecimal(display, waiting), false) == AfterDecimal(display, waiting)
  {
  }

  /** No "0" directly followed by another digit at the front of the display. */
  predicate NoLeadingZero(s: string) {
    (|s| >= 2 && s[0] == '0') ==> !IsDigitChar(s[1])
  }

  /** The number of decimal points in a string. */
  function DotCount(s: string): nat {
    if s == [] then 0 else DotCount(s[..|s| - 1]) + (if s[|s| - 1] == '.' then 1 else 0)
  }

  lemma DotCountAppend(s: string, c: char)
    ensures DotCount(s + [c]) == DotCount(s) + (if c == '.' then 1 else 0)
  {
    assert (s + [c])[..|s|] == s;
  }

  lemma {:induction false} DotCountZero(s: string)
    ensures '.' !in s <==> DotCount(s) == 0
  {
    if s != [] {
      var p := s[..|s| - 1];
      DotCountZero(p);
      assert s == p + [s[|s| - 1]];
    }
  }

  /** A display in entry form: no redundant leading zero and at most one point. */
  predicate EntryForm(s: string) {
    NoLeadingZero(s) && DotCount(s) <= 1
  }

  lemma AfterDigitKeepsEntryForm(display: string, waiting: bool, d: Digit)
    requires EntryForm(display)
    ensures EntryForm(AfterDigit(display, waiting, d))
  {
    DotCountAppend(display, DigitChar(d));
    DotCountAppend([], DigitChar(d));
  }

  lemma AfterDecimalKeepsEntryForm(display: string, waiting: bool)
    requires EntryForm(display)
    ensures EntryForm(AfterDecimal(display, waiting))
  {
    if waiting {
      DotCountAppend("0", '.');
      DotCountAppend([], '0');
      assert "0" + ['.'] == "0.";
    } else if '.' !in display {
      DotCountZero(display);
      DotCountAppend(display, '.');
    }
  }

  /** One digit or decimal-point press. */
  datatype EntryKey = DigitKey(d: Digit) | PointKey

  function Press(display: string, waiting: bool, k: EntryKey): string {
    match k
    case DigitKey(d) => AfterDigit(display, waiting, d)
    case PointKey => AfterDecimal(display, waiting)
  }

  /** The display after pressing `keys` in order; `waiting` (the flag set by an
      operator) only affects the first press, since every press clears it. */
  function Replay(display: string, waiting: bool, keys: seq<EntryKey>): string
    decreases |keys|
  {
    if keys == [] then display
    else Press(Replay(display, waiting, keys[..|keys| - 1]), waiting && |keys| == 1, keys[|keys| - 1])
  }

  /** Any run of digit and point presses keeps the display in entry form. */
  lemma {:induction false} ReplayKeepsEntryForm(display: string, waiting: bool, keys: seq<EntryKey>)
    requires EntryForm(display)
    ensures EntryForm(Replay(display, waiting, keys))
    decreases |keys|
  {
    if keys != [] {
      var p := keys[..|keys| - 1];
      ReplayKeepsEntryForm(display, waiting, p);
      var before := Replay(display, waiting, p);
      match keys[|keys| - 1]
      case DigitKey(d) => AfterDigitKeepsEntryForm(before, waiting && |keys| == 1, d);
      case PointKey => AfterDecimalKeepsEntryForm(before, waiting && |keys| == 1);
    }
  }

  /** After an operator (`waiting`), typing behaves exactly as on a fresh "0". */
  lemma {:induction false} ReplayAfterOperator(display: string, keys: seq<EntryKey>)
    requires keys != []
    ensures Replay(display, true, keys) == Replay("0", false, keys)
    decreases |keys|
  {
    if |keys| > 1 {
      ReplayAfterOperator(display, keys[..|keys| - 1]);
    }
  }

  // ----- the reference: the typed text with redundant characters removed -----

  function KeyChar(k: EntryKey): char {
    match k
    case DigitKey(d) => DigitChar(d)
    case PointKey => '.'
  }

  /** The characters the keys name, in order. */
  function Chars(keys: seq<EntryKey>): (s: string)
    ensures |s| == |keys|
    decreases |keys|
  {
    if keys == [] then [] else Chars(keys[..|keys| - 1]) + [KeyChar(keys[|keys| - 1])]
  }

  lemma {:induction false} CharsAt(keys: seq<EntryKey>, i: nat)
    requires i < |keys|
    ensures Chars(keys)[i] == KeyChar(keys[i])
    decreases |keys|
  {
    if i < |keys| - 1 {
      var p := keys[..|keys| - 1];
      CharsAt(p, i);
    }
  }

  /** The text with every point after the first one dropped. */
  function FirstPointOnly(s: string): string
    decreases |s|
  {
    if s == [] then []
    else
      var p := s[..|s| - 1];
      if s[|s| - 1] == '.' && '.' in p then FirstPointOnly(p) else FirstPointOnly(p) + [s[|s| - 1]]
  }

  lemma {:induction false} FirstPointOnlyHasPoint(s: string)
    ensures '.' in FirstPointOnly(s) <==> '.' in s
    decreases |s|
  {
    if s != [] {
      var p := s[..|s| - 1];
      FirstPointOnlyHasPoint(p);
      assert s == p + [s[|s| - 1]];
    }
  }

  lemma {:induction false} FirstPointOnlyNoOp(s: string)
    requires DotCount(s) <= 1
    ensures FirstPointOnly(s) == s
    decreases |s|
  {
    if s != [] {
      var p := s[..|s| - 1];
      assert s == p + [s[|s| - 1]];
      DotCountAppend(p, s[|s| - 1]);
      FirstPointOnlyNoOp(p);
      if s[|s| - 1] == '.' {
        DotCountZero(p);
      }
    }
  }

  /** The text with its leading zeros removed. */
  function StripZeros(s: string): (g: string)
    ensures g == [] || g[0] != '0'
    decreases |s|
  {
    if |s| > 0 && s[0] == '0' then StripZeros(s[1..]) else s
  }

  lemma {:induction false} StripZerosAppend(s: string, c: char)
    ensures StripZeros(s + [c]) == if StripZeros(s) == [] then StripZeros([c]) else StripZeros(s) + [c]
    decreases |s|
  {
    if |s| > 0 && s[0] == '0' {
      assert (s + [c])[1..] == s[1..] + [c];
      StripZerosAppend(s[1..], c);
    }
  }

  lemma {:induction false} StripZerosHasPoint(s: string)
    ensures '.' in StripZeros(s) <==> '.' in s
    decreases |s|
  {
    if |s| > 0 && s[0] == '0' {
      StripZerosHasPoint(s[1..]);
      assert s == [s[0]] + s[1..];
    }
  }

  /** A zero in front of a leading point, "0" for nothing at all. */
  function Pad(g: string): string {
    if g == [] then "0" else if g[0] == '.' then "0" + g else g
  }

  /** What the display should read after typing `keys` from "0": the typed text with
      later points dropped, leading zeros removed, and a zero put back before a
      leading point or in place of nothing. */
  function Canonical(keys: seq<EntryKey>): string {
    Pad(StripZeros(FirstPointOnly(Chars(keys))))
  }

  /** Digit and point entry from the initial display yields exactly the canonical
      text of the keys typed. */
  lemma {:induction false} ReplayIsCanonical(keys: seq<EntryKey>)
    ensures Replay("0", false, keys) == Canonical(keys)
    decreases |keys|
  {
    if keys != [] {
      var p := keys[..|keys| - 1];
      var k := keys[|keys| - 1];
      ReplayIsCanonical(p);
      var before := Replay("0", false, p);
      var f := FirstPointOnly(Chars(p));
      var g := StripZeros(f);
      assert before == Pad(g);
      assert Chars(keys) == Chars(p) + [KeyChar(k)];
      assert (Chars(p) + [KeyChar(k)])[..|p|] == Chars(p);
      assert (Pad(g) == "0") <==> g == [];
      match k
      case DigitKey(d) =>
        var c := DigitChar(d);
        assert FirstPointOnly(Chars(keys)) == f + [c];
        StripZerosAppend(f, c);
        if g != [] {
          assert Pad(g + [c]) == Pad(g) + [c];
        }
      case PointKey =>
        FirstPointOnlyHasPoint(Chars(p));
        StripZerosHasPoint(f);
        assert ('.' in Pad(g)) <==> '.' in g;
        if '.' !in Chars(p) {
          assert FirstPointOnly(Chars(keys)) == f + ['.'];
          StripZerosAppend(f, '.');
          if g != [] {
            assert Pad(g + ['.']) == Pad(g) + ['.'];
          }
        }
    }
  }

  /** After an operator the next number is also typed canonically. */
  lemma AfterOperatorIsCanonical(display: string, keys: seq<EntryKey>)
    requires keys != []
    ensures Replay(display, true, keys) == Canonical(keys)
  {
    ReplayAfterOperator(display, keys);
    ReplayIsCanonical(keys);
  }

  /** A number typed from a non-zero digit with at most one point reads exactly as the
      concatenation of what was typed. */
  lemma ReplayIsLiteral(keys: seq<EntryKey>)
    requires keys != [] && keys[0].DigitKey? && keys[0].d != 0
    requires DotCount(Chars(keys)) <= 1
    ensures Replay("0", false, keys) == Chars(keys)
  {
    ReplayIsCanonical(keys);
    FirstPointOnlyNoOp(Chars(keys));
    CharsAt(keys, 0);
  }
}
