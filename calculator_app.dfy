/**
 * The `App` component of frontend/src/App.jsx as an object: one field per `useState`
 * slot, one method per click handler. Each method updates the fields as the handler's
 * setters do and is proved to agree with the transition of the same name in
 * CalculatorState, where the properties of the state machine are proved.
 */
module CalculatorApp {
  import opened Base
  import opened JsNumbers
  import opened DisplayEntry
  import CS = CalculatorState

  class Calculator {
    const host: CS.Host
    var display: string
    var previousValue: Option<JsValue>
    var operation: Option<string>
    var waitingForOperand: bool
    var history: seq<CS.Entry>

    /** The five slots as a value. */
    function Snapshot(): CS.State
      reads this
    {
      CS.State(display, previousValue, operation, waitingForOperand, history)
    }

    ghost predicate Valid()
      reads this
    {
      CS.Valid(Snapshot())
    }

    constructor(host: CS.Host)
      ensures this.host == host
      ensures Snapshot() == CS.Initial && Valid()
    {
      this.host := host;
      display := "0";
      previousValue := None;
      operation := None;
      waitingForOperand := false;
      history := [];
    }

    method InputDigit(d: Digit)
      requires Valid()
      modifies this
      ensures Valid() && Snapshot() == CS.InputDigit(old(Snapshot()), d)
    {
      if waitingForOperand {
        display := [DigitChar(d)];
        waitingForOperand := false;
      } else {
        display := if display == "0" then [DigitChar(d)] else display + [DigitChar(d)];
      }
    }

    method InputDecimal()
      requires Valid()
      modifies this
      ensures Valid() && Snapshot() == CS.InputDecimal(old(Snapshot()))
    {
      if waitingForOperand {
        display := "0.";
        waitingForOperand := false;
      } else if '.' !in display {
        display := display + ".";
      }
    }

    method Clear()
      requires Valid()
      modifies this
      ensures Valid() && Snapshot() == CS.Clear(old(Snapshot()))
    {
      display := "0";
      previousValue := None;
      operation := None;
      waitingForOperand := false;
    }

    method ClearEntry()
      requires Valid()
      modifies this
      ensures Valid() && Snapshot() == CS.ClearEntry(old(Snapshot()))
    {
      display := "0";
    }

    method PerformOperation(nextOperation: string)
      requires Valid()
      modifies this
      ensures Valid() && Snapshot() == CS.PerformOperation(host, old(Snapshot()), nextOperation)
    {
      ghost var before := Snapshot();
      var inputValue := host.parseFloat(display);
      if previousValue.None? {
        previousValue := Some(inputValue);
      } else if operation.Some? && operation.value != "" {
        var currentValue := OrZero(previousValue.value);
        var newValue := Calculate(host.show, currentValue, inputValue, operation.value);
        history := CS.Record(history, CS.Entry(currentValue, operation.value, inputValue, newValue));
        display := Show(host.show, newValue);
        previousValue := Some(newValue);
      }
      waitingForOperand := true;
      operation := Some(nextOperation);
      CS.StepKeepsValid(host, before, CS.OperationPressed(nextOperation));
    }

    method Percentage()
      requires Valid()
      modifies this
      ensures Valid() && Snapshot() == CS.Percentage(host, old(Snapshot()))
    {
      var value := host.parseFloat(display);
      display := Show(host.show, Quotient(value, Num(100.0)));
    }

    method ToggleSign()
      requires Valid()
      modifies this
      ensures Valid() && Snapshot() == CS.ToggleSign(host, old(Snapshot()))
    {
      var value := host.parseFloat(display);
      display := Show(host.show, Product(value, Num(-1.0)));
    }

    method SquareRoot()
      requires Valid()
      modifies this
      ensures Valid() && Snapshot() == CS.SquareRoot(host, old(Snapshot()))
    {
      var value := host.parseFloat(display);
      if value.Num? && value.r >= 0.0 {
        display := host.show(host.sqrt(value.r));
      } else {
        display := ErrorText;
      }
    }

    method ClearHistory()
      requires Valid()
      modifies this
      ensures Valid() && Snapshot() == CS.ClearHistory(old(Snapshot()))
    {
      history := [];
    }

    /** The small line above the display: `${previousValue} ${operation}` while an
        operator is pending on a stored operand, nothing otherwise. */
    function Readout(): (r: Option<string>)
      reads this
      ensures r.Some? <==> CS.Pending(operation) && previousValue.Some?
      ensures r.Some? ==> r.value == Show(host.show, previousValue.value) + " " + operation.value
    {
      if CS.Pending(operation) && previousValue.Some? then
        Some(Show(host.show, previousValue.value) + " " + operation.value)
      else None
    }
  }
}
