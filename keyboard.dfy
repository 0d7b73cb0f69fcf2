/**
 * The key classification inside `handleKeyPress`
 * (frontend/src/components/KeyboardHandler.jsx): each `event.key` string selects at
 * most one callback through an else-if chain.
 */
module Keyboard {
  import opened Base
  import opened DisplayEntry
  import JsNumbers

  /** The callback a key press invokes, with its argument. */
  datatype KeyEvent =
    | OnDigit(d: Digit)
    | OnOperator(symbol: string)
    | OnDecimal
    | OnEquals
    | OnClear
    | OnBackspace

  /** `/^[0-9]$/.test(key)`: exactly one character, a decimal digit. */
  predicate IsDigitKey(key: string) {
    |key| == 1 && IsDigitChar(key[0])
  }

  /** The callback for `key`, or None when the key is ignored. `hasBackspace` says
      whether an `onBackspace` callback was supplied. */
  function Classify(key: string, hasBackspace: bool): (r: Option<KeyEvent>)
    // digits: a single character 0-9, passed on as its value (`parseInt(key)`)
    ensures IsDigitKey(key) <==> (r.Some? && r.value.OnDigit?)
    ensures (r.Some? && r.value.OnDigit?) ==> DigitChar(r.value.d) == key[0]
    // operators: several spellings of multiplication, '/' becomes the division sign
    ensures key in {"*", "x", "X"} ==> r == Some(OnOperator(JsNumbers.Times))
    ensures key == "/" ==> r == Some(OnOperator(JsNumbers.Divide))
    ensures key in {"+", "-", "%"} ==> r == Some(OnOperator(key))
    ensures (r.Some? && r.value.OnOperator?) ==> JsNumbers.IsArithmetic(r.value.symbol)
    // the remaining callbacks, each for exactly its keys
    ensures r == Some(OnDecimal) <==> key in {".", ","}
    ensures r == Some(OnEquals) <==> key in {"Enter", "="}
    ensures r == Some(OnClear) <==> key in {"Escape", "c", "C"}
    ensures r == Some(OnBackspace) <==> key == "Backspace" && hasBackspace
    // every other key does nothing
    ensures r.None? <==>
      !IsDigitKey(key)
      && key !in {"+", "-", "*", "x", "X", "/", "%", ".", ",", "Enter", "=", "Escape", "c", "C"}
      && (key == "Backspace" ==> !hasBackspace)
  {
    if IsDigitKey(key) then Some(OnDigit(key[0] as int - '0' as int))
    else if key == "+" then Some(OnOperator("+"))
    else if key == "-" then Some(OnOperator("-"))
    else if key == "*" || key == "x" || key == "X" then Some(OnOperator("×"))
    else if key == "/" then Some(OnOperator("÷"))
    else if key == "%" then Some(OnOperator("%"))
    else if key == "." || key == "," then Some(OnDecimal)
    else if key == "Enter" || key == "=" then Some(OnEquals)
    else if key == "Escape" || key == "c" || key == "C" then Some(OnClear)
    else if key == "Backspace" && hasBackspace then Some(OnBackspace)
    else None
  }
}
