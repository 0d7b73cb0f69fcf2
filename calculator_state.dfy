/**
 * The calculator state machine of frontend/src/App.jsx as pure transitions: the five
 * `useState` slots form a `State`, each click handler is a function from the old state
 * to the new one, and `Step`/`Run` replay any stream of events.
 */
module CalculatorState {
  import opened Base
  import opened JsNumbers
  import opened DisplayEntry

  /** What the front end takes from the JavaScript runtime and never inspects:
      `parseFloat`, `String(number)` and `Math.sqrt`. */
  datatype Host = Host(parseFloat: string -> Number, show: real -> string, sqrt: real -> real)

  /** One history record `${first} ${op} ${second} = ${result}`, kept as its parts. */
  datatype Entry = Entry(first: JsValue, op: string, second: Number, result: JsValue)

  /** The text the history panel shows for an entry; it always ends in " = result". */
  function EntryText(show: real -> string, e: Entry): (t: string)
    ensures var tail := " = " + Show(show, e.result);
            |t| >= |tail| && t[|t| - |tail|..] == tail
  {
    Show(show, e.first) + " " + e.op + " " + Show(show, e.second) + " = " + Show(show, e.result)
  }

  const HistoryLimit: nat := 10

  /** `[historyEntry, ...history.slice(0, 9)]`: the new entry first, then the nine
      newest older ones. */
  function Record(history: seq<Entry>, e: Entry): (r: seq<Entry>)
    ensures |r| == Min(|history| + 1, HistoryLimit)
    ensures r[0] == e
    ensures forall i :: 1 <= i < |r| ==> r[i] == history[i - 1]
  {
    [e] + history[..Min(|history|, HistoryLimit - 1)]
  }

  /** The five state slots of the component. */
  datatype State = State(
    display: string,
    previousValue: Option<JsValue>,
    operation: Option<string>,
    waitingForOperand: bool,
    history: seq<Entry>)

  /** The `useState` initial values. */
  const Initial: State := State("0", None, None, false, [])

  /** The history is bounded, and a string stored as the previous value is the 'Error'
      sentinel or something concatenated onto it (so it coerces to NaN). */
  predicate Valid(s: State) {
    && |s.history| <= HistoryLimit
    && (s.previousValue.Some? && s.previousValue.value.Text? ==> ErrorText <= s.previousValue.value.s)
  }

  /** `if (operation)`: a stored operator symbol counts only when it is non-empty. */
  predicate Pending(operation: Option<string>) {
    operation.Some? && operation.value != ""
  }

  function InputDigit(s: State, d: Digit): (t: State)
    ensures t.display == AfterDigit(s.display, s.waitingForOperand, d)
    ensures !t.waitingForOperand
    ensures t.previousValue == s.previousValue && t.operation == s.operation && t.history == s.history
  {
    s.(display := AfterDigit(s.display, s.waitingForOperand, d), waitingForOperand := false)
  }

  function InputDecimal(s: State): (t: State)
    ensures t.display == AfterDecimal(s.display, s.waitingForOperand)
    ensures !t.waitingForOperand
    ensures t.previousValue == s.previousValue && t.operation == s.operation && t.history == s.history
  {
    if s.waitingForOperand then s.(display := "0.", waitingForOperand := false)
    else if '.' !in s.display then s.(display := s.display + ".")
    else s
  }

  /** `clear` (AC): everything back to the initial values except the history. */
  function Clear(s: State): (t: State)
    ensures t == Initial.(history := s.history)
  {
    State("0", None, None, false, s.history)
  }

  /** `clearEntry` (CE): only the display is reset. */
  function ClearEntry(s: State): (t: State)
    ensures t == s.(display := "0")
  {
    s.(display := "0")
  }

  /** The record `performOperation` makes when an operator is pending: the stored
      operand (or 0 when falsy), the pending symbol, the parsed display and the result. */
  function Evaluation(host: Host, s: State): (e: Entry)
    requires s.previousValue.Some? && Pending(s.operation)
    ensures e.first == OrZero(s.previousValue.value) && e.op == s.operation.value
    ensures e.second == host.parseFloat(s.display)
    ensures e.result == Calculate(host.show, e.first, e.second, e.op)
  {
    var currentValue := OrZero(s.previousValue.value);
    var inputValue := host.parseFloat(s.display);
    Entry(currentValue, s.operation.value, inputValue, Calculate(host.show, currentValue, inputValue, s.operation.value))
  }

  /** `performOperation(nextOperation)`: the first operator stores the operand; with an
      operator pending it evaluates eagerly, records the evaluation and shows its result;
      in every case it waits for a new operand with `next` pending. */
  function PerformOperation(host: Host, s: State, next: string): (t: State)
    ensures t.waitingForOperand && t.operation == Some(next)
    ensures s.previousValue.None? ==>
      var stored: JsValue := host.parseFloat(s.display);
      t.previousValue == Some(stored) && t.display == s.display && t.history == s.history
    ensures (s.previousValue.Some? && !Pending(s.operation)) ==>
      && t.previousValue == s.previousValue
      && t.display == s.display && t.history == s.history
    ensures (s.previousValue.Some? && Pending(s.operation)) ==>
      && t.history == Record(s.history, Evaluation(host, s))
      && t.previousValue == Some(t.history[0].result)
      && t.display == Show(host.show, t.history[0].result)
  {
    var inputValue := host.parseFloat(s.display);
    var u :=
      if s.previousValue.None? then s.(previousValue := Some(inputValue))
      else if Pending(s.operation) then
        var e := Evaluation(host, s);
        s.(history := Record(s.history, e), display := Show(host.show, e.result), previousValue := Some(e.result))
      else s;
    u.(waitingForOperand := true, operation := Some(next))
  }

  /** `percentage`: the display divided by 100; nothing else changes. */
  function Percentage(host: Host, s: State): (t: State)
    ensures t == s.(display := t.display)
    ensures host.parseFloat(s.display).Num? ==>
      t.display == host.show(host.parseFloat(s.display).r / 100.0)
    ensures host.parseFloat(s.display).NaN? ==> t.display == "NaN"
  {
    var value := host.parseFloat(s.display);
    s.(display := Show(host.show, Quotient(value, Num(100.0))))
  }

  /** `toggleSign`: the display negated; nothing else changes. */
  function ToggleSign(host: Host, s: State): (t: State)
    ensures t == s.(display := t.display)
    ensures host.parseFloat(s.display).Num? ==>
      t.display == host.show(-host.parseFloat(s.display).r)
    ensures host.parseFloat(s.display).NaN? ==> t.display == "NaN"
  {
    var value := host.parseFloat(s.display);
    var negated := Product(value, Num(-1.0));
    assert negated.Num? ==> negated.r == -value.r;
    s.(display := Show(host.show, negated))
  }

  /** `squareRoot`: the root of a non-negative display, the 'Error' sentinel for a
      negative or unparsable one; nothing else changes. */
  function SquareRoot(host: Host, s: State): (t: State)
    ensures t == s.(display := t.display)
    ensures var v := host.parseFloat(s.display);
      if v.Num? && v.r >= 0.0 then t.display == host.show(host.sqrt(v.r)) else t.display == ErrorText
  {
    var value := host.parseFloat(s.display);
    if value.Num? && value.r >= 0.0 then s.(display := host.show(host.sqrt(value.r)))
    else s.(display := ErrorText)
  }

  /** `clearHistory`: only the history is emptied. */
  function ClearHistory(s: State): (t: State)
    ensures t == s.(history := [])
  {
    s.(history := [])
  }

  /** The buttons of the calculator. */
  datatype Event =
    | DigitPressed(d: Digit)
    | DecimalPressed
    | ClearPressed
    | ClearEntryPressed
    | OperationPressed(symbol: string)
    | PercentagePressed
    | ToggleSignPressed
    | SquareRootPressed
    | ClearHistoryPressed

  function Step(host: Host, s: State, e: Event): State {
    match e
    case DigitPressed(d) => InputDigit(s, d)
    case DecimalPressed => InputDecimal(s)
    case ClearPressed => Clear(s)
    case ClearEntryPressed => ClearEntry(s)
    case OperationPressed(symbol) => PerformOperation(host, s, symbol)
    case PercentagePressed => Percentage(host, s)
    case ToggleSignPressed => ToggleSign(host, s)
    case SquareRootPressed => SquareRoot(host, s)
    case ClearHistoryPressed => ClearHistory(s)
  }

  /** The state after the events, processed one at a time in order. */
  function Run(host: Host, s: State, events: seq<Event>): State
    decreases |events|
  {
    if events == [] then s else Run(host, Step(host, s, events[0]), events[1..])
  }

  /** Every handler keeps the history at ten entries or fewer and the sentinel prefix. */
  lemma StepKeepsValid(host: Host, s: State, e: Event)
    requires Valid(s)
    ensures Valid(Step(host, s, e))
  {
    if e.OperationPressed? && s.previousValue.Some? && Pending(s.operation) {
      var en := Evaluation(host, s);
      if en.result.Text? && en.first.Text? {
        assert en.first == s.previousValue.value;
      }
    }
  }

  lemma {:induction false} RunKeepsValid(host: Host, s: State, events: seq<Event>)
    requires Valid(s)
    ensures Valid(Run(host, s, events))
    decreases |events|
  {
    if events != [] {
      StepKeepsValid(host, s, events[0]);
      RunKeepsValid(host, Step(host, s, events[0]), events[1..]);
    }
  }

  /** From start-up, no sequence of clicks ever holds more than ten history entries. */
  lemma HistoryBounded(host: Host, events: seq<Event>)
    ensures |Run(host, Initial, events).history| <= HistoryLimit
  {
    RunKeepsValid(host, Initial, events);
  }

  /** Only an evaluating operator adds to the history, and only by one entry. */
  lemma StepHistory(host: Host, s: State, e: Event)
    ensures var t := Step(host, s, e);
      || t.history == s.history
      || (e.ClearHistoryPressed? && t.history == [])
      || (e.OperationPressed? && s.previousValue.Some? && Pending(s.operation)
          && t.history == Record(s.history, Evaluation(host, s)))
  {
  }

  /** `3 + 4 + 5 =` evaluates eagerly: the display reads 12 and the history holds
      "7 + 5 = 12" above "3 + 4 = 7". */
  lemma ChainEvaluatesEagerly(host: Host)
    requires host.parseFloat("3") == Num(3.0) && host.parseFloat("4") == Num(4.0)
    requires host.parseFloat("5") == Num(5.0) && host.show(12.0) == "12"
    ensures var t := Run(host, Initial, [DigitPressed(3), OperationPressed(Plus), DigitPressed(4),
                                         OperationPressed(Plus), DigitPressed(5), OperationPressed("=")]);
      && t.display == "12"
      && t.history == [Entry(Num(7.0), Plus, Num(5.0), Num(12.0)), Entry(Num(3.0), Plus, Num(4.0), Num(7.0))]
      && t.previousValue == Some(Num(12.0)) && t.operation == Some("=")
  {
    var e1, e2, e3 := DigitPressed(3), OperationPressed(Plus), DigitPressed(4);
    var e4, e5, e6 := OperationPressed(Plus), DigitPressed(5), OperationPressed("=");
    var first := Entry(Num(3.0), Plus, Num(4.0), Num(7.0));
    var s1 := Step(host, Initial, e1);
    assert s1 == State("3", None, None, false, []);
    var s2 := Step(host, s1, e2);
    assert s2 == State("3", Some(Num(3.0)), Some(Plus), true, []);
    var s3 := Step(host, s2, e3);
    assert s3 == State("4", Some(Num(3.0)), Some(Plus), false, []);
    var s4 := Step(host, s3, e4);
    assert Evaluation(host, s3) == first;
    assert s4.history == [first];
    assert s4.previousValue == Some(Num(7.0)) && s4.operation == Some(Plus);
    var s5 := Step(host, s4, e5);
    assert s5 == s4.(display := "5", waitingForOperand := false);
    var s6 := Step(host, s5, e6);
    assert Evaluation(host, s5) == Entry(Num(7.0), Plus, Num(5.0), Num(12.0));
    assert Run(host, s5, [e6]) == s6;
    assert Run(host, s4, [e5, e6]) == s6;
    assert Run(host, s3, [e4, e5, e6]) == s6;
    assert Run(host, s2, [e3, e4, e5, e6]) == s6;
    assert Run(host, s1, [e2, e3, e4, e5, e6]) == s6;
  }

  /** `5 ÷ 0 =` records the evaluation and then shows the sentinel; AC afterwards
      restores the initial state with that record kept. */
  lemma DivisionByZeroRecordsThenShowsError(host: Host)
    requires host.parseFloat("5") == Num(5.0) && host.parseFloat("0") == Num(0.0)
    ensures var t := Run(host, Initial, [DigitPressed(5), OperationPressed(Divide), DigitPressed(0),
                                         OperationPressed("=")]);
      && t.display == ErrorText
      && t.history == [Entry(Num(5.0), Divide, Num(0.0), ErrorValue)]
      && Clear(t) == Initial.(history := t.history)
  {
    var e1, e2, e3, e4 := DigitPressed(5), OperationPressed(Divide), DigitPressed(0), OperationPressed("=");
    var s1 := Step(host, Initial, e1);
    assert s1 == State("5", None, None, false, []);
    var s2 := Step(host, s1, e2);
    assert s2 == State("5", Some(Num(5.0)), Some(Divide), true, []);
    var s3 := Step(host, s2, e3);
    assert s3 == State("0", Some(Num(5.0)), Some(Divide), false, []);
    var s4 := Step(host, s3, e4);
    assert Evaluation(host, s3) == Entry(Num(5.0), Divide, Num(0.0), ErrorValue);
    assert Run(host, s3, [e4]) == s4;
    assert Run(host, s2, [e3, e4]) == s4;
    assert Run(host, s1, [e2, e3, e4]) == s4;
  }

  /** `7 + 9 CE 2 =` keeps the stored 7 and the pending `+`: the result is 9. */
  lemma ClearEntryKeepsPendingOperation(host: Host)
    requires host.parseFloat("7") == Num(7.0) && host.parseFloat("2") == Num(2.0)
    requires host.show(9.0) == "9"
    ensures var t := Run(host, Initial, [DigitPressed(7), OperationPressed(Plus), DigitPressed(9),
                                         ClearEntryPressed, DigitPressed(2), OperationPressed("=")]);
      t.display == "9" && t.history == [Entry(Num(7.0), Plus, Num(2.0), Num(9.0))]
  {
    var e1, e2, e3 := DigitPressed(7), OperationPressed(Plus), DigitPressed(9);
    var e4, e5, e6 := ClearEntryPressed, DigitPressed(2), OperationPressed("=");
    var s1 := Step(host, Initial, e1);
    assert s1 == State("7", None, None, false, []);
    var s2 := Step(host, s1, e2);
    assert s2 == State("7", Some(Num(7.0)), Some(Plus), true, []);
    var s3 := Step(host, s2, e3);
    assert s3 == State("9", Some(Num(7.0)), Some(Plus), false, []);
    var s4 := Step(host, s3, e4);
    assert s4 == State("0", Some(Num(7.0)), Some(Plus), false, []);
    var s5 := Step(host, s4, e5);
    assert s5 == State("2", Some(Num(7.0)), Some(Plus), false, []);
    var s6 := Step(host, s5, e6);
    assert Evaluation(host, s5) == Entry(Num(7.0), Plus, Num(2.0), Num(9.0));
    assert Run(host, s5, [e6]) == s6;
    assert Run(host, s4, [e5, e6]) == s6;
    assert Run(host, s3, [e4, e5, e6]) == s6;
    assert Run(host, s2, [e3, e4, e5, e6]) == s6;
    assert Run(host, s1, [e2, e3, e4, e5, e6]) == s6;
  }

  /** A digit typed while the sentinel is shown is appended to it: there is no reset. */
  lemma DigitAfterErrorAppends(s: State, d: Digit)
    requires s.display == ErrorText && !s.waitingForOperand
    ensures InputDigit(s, d).display == ErrorText + [DigitChar(d)]
  {
  }

  /** '=' is stored like any operator: the next operator evaluates it, which passes the
      newly entered operand through and records "a = b = b". */
  lemma EqualsIsStoredAsOperator(host: Host, s: State, next: string)
    requires s.previousValue.Some? && s.operation == Some("=")
    ensures var t := PerformOperation(host, s, next);
      var b := host.parseFloat(s.display);
      var stored: JsValue := b;
      t.history[0] == Entry(OrZero(s.previousValue.value), "=", b, b) && t.previousValue == Some(stored)
  {
  }
}
