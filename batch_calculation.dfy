/**
 * `batch_calculate` of backend/app/routes/api.py: a loop over the requested operations
 * that records one result per operation, a failure entry in place of any exception, and
 * finally counts the successes and failures.
 *
 * Operands are JSON numbers read as exact reals; `str`, `round` and `math.sqrt` are the
 * uninterpreted functions of `PyMath`.
 */
module BatchCalculation {
  import opened Base
  import opened PyRuntime

  /** One requested operation: the values under 'num1', 'num2' and 'operation', None
      where the key is absent or null. */
  datatype BatchOp = BatchOp(num1: Option<real>, num2: Option<real>, operation: Option<string>)

  /** Why an entry failed: missing parameters, or the exception its computation raised. */
  datatype BatchError =
    | MissingParameters
    | DivisionByZero
    | NoDivisor
    | MathDomain
    | Unrecognized(op: string)

  /** One entry of `results`, carrying its position in the request. */
  datatype BatchResult =
    | Succeeded(index: nat, result: real, expression: string)
    | Failed(index: nat, error: BatchError)

  /** The batch response. */
  datatype BatchSummary = BatchSummary(total: nat, successful: nat, failed: nat, results: seq<BatchResult>)

  /** Python truthiness of an optional number: None and 0 are falsy. */
  predicate Truthy(x: Option<real>) {
    x.Some? && x.value != 0.0
  }

  /** `x or d`: a falsy `x` (None or zero) is replaced by `d`. */
  function Or(x: Option<real>, d: real): (r: real)
    ensures !Truthy(x) ==> r == d
    ensures Truthy(x) ==> r == x.value
  {
    if Truthy(x) then x.value else d
  }

  /** The operator symbols the batch recognises (without lower-casing). */
  predicate IsBatchOperator(op: string) {
    op in {"+", "-", "*", "×", "/", "÷", "sqrt", "square"}
  }

  /** The body of the `try`: the unrounded result, or the exception it raises. */
  function Attempt(m: PyMath, num1: real, num2: Option<real>, op: string): (r: Result<real, BatchError>)
    // the exceptions
    ensures r == Failure(Unrecognized(op)) <==> !IsBatchOperator(op)
    ensures r == Failure(DivisionByZero) <==> op in {"/", "÷"} && num2 == Some(0.0)
    ensures r == Failure(NoDivisor) <==> op in {"/", "÷"} && num2.None?
    ensures r == Failure(MathDomain) <==> op == "sqrt" && num1 < 0.0
    // a missing or zero num2 counts as 0 for '+' and '-', and as 1 for '*'
    ensures op == "+" ==> r == Success(num1 + Or(num2, 0.0))
    ensures op == "-" ==> r == Success(num1 - Or(num2, 0.0))
    ensures op in {"*", "×"} ==> r == Success(num1 * Or(num2, 1.0))
    ensures op in {"*", "×"} && num2 == Some(0.0) ==> r == Success(num1)
    ensures op in {"/", "÷"} && Truthy(num2) ==> r.Success? && r.value * num2.value == num1
    ensures op == "sqrt" && num1 >= 0.0 ==> r == Success(m.sqrt(num1))
    ensures op == "square" ==> r.Success? && r.value >= 0.0 && r.value == num1 * num1
  {
    if op == "+" then Success(num1 + Or(num2, 0.0))
    else if op == "-" then Success(num1 - Or(num2, 0.0))
    else if op == "*" || op == "×" then Success(num1 * Or(num2, 1.0))
    else if op == "/" || op == "÷" then
      if num2 == Some(0.0) then Failure(DivisionByZero)
      else if num2.None? then Failure(NoDivisor)
      else Success(num1 / num2.value)
    else if op == "sqrt" then
      if num1 < 0.0 then Failure(MathDomain) else Success(m.sqrt(num1))
    else if op == "square" then Success(num1 * num1)
    else Failure(Unrecognized(op))
  }

  /** The expression of a successful entry: `num2` is shown only when truthy. */
  function BatchExpression(m: PyMath, num1: real, op: string, num2: Option<real>): (r: string)
    ensures var head := m.str(num1) + " " + op + " ";
      && |r| >= |head| && r[..|head|] == head
      && (!Truthy(num2) ==> r == head)
      && (Truthy(num2) ==> r[|head|..] == m.str(num2.value))
  {
    m.str(num1) + " " + op + " " + (if Truthy(num2) then m.str(num2.value) else "")
  }

  /** The entry recorded for the operation at position `index`. */
  function ItemOutcome(m: PyMath, item: BatchOp, index: nat): (r: BatchResult)
    ensures r.index == index
    ensures r == Failed(index, MissingParameters) <==> item.num1.None? || item.operation.None?
    ensures r.Succeeded? <==>
      item.num1.Some? && item.operation.Some?
      && Attempt(m, item.num1.value, item.num2, item.operation.value).Success?
    ensures r.Succeeded? ==>
      && r.result == m.round(Attempt(m, item.num1.value, item.num2, item.operation.value).value, 10)
      && r.expression == BatchExpression(m, item.num1.value, item.operation.value, item.num2)
    ensures (r.Failed? && r.error != MissingParameters) ==>
      r.error == Attempt(m, item.num1.value, item.num2, item.operation.value).error
  {
    if item.num1.None? || item.operation.None? then Failed(index, MissingParameters)
    else
      var num1, op := item.num1.value, item.operation.value;
      match Attempt(m, num1, item.num2, op)
      case Success(v) => Succeeded(index, m.round(v, 10), BatchExpression(m, num1, op, item.num2))
      case Failure(e) => Failed(index, e)
  }

  function CountSucceeded(results: seq<BatchResult>): (n: nat)
    ensures n <= |results|
    decreases |results|
  {
    if results == [] then 0
    else CountSucceeded(results[..|results| - 1]) + (if results[|results| - 1].Succeeded? then 1 else 0)
  }

  function CountFailed(results: seq<BatchResult>): (n: nat)
    ensures n <= |results|
    decreases |results|
  {
    if results == [] then 0
    else CountFailed(results[..|results| - 1]) + (if results[|results| - 1].Failed? then 1 else 0)
  }

  /** Every entry is either a success or a failure, so the two counts add up to the
      number of entries. */
  lemma {:induction false} CountsAddUp(results: seq<BatchResult>)
    ensures CountSucceeded(results) + CountFailed(results) == |results|
    decreases |results|
  {
    if results != [] {
      CountsAddUp(results[..|results| - 1]);
    }
  }

  /** POST /api/batch-calculate. */
  method BatchCalculate(m: PyMath, operations: seq<BatchOp>) returns (summary: BatchSummary)
    ensures |summary.results| == |operations|
    ensures forall i :: 0 <= i < |operations| ==> summary.results[i] == ItemOutcome(m, operations[i], i)
    ensures summary.total == |operations|
    ensures summary.successful == CountSucceeded(summary.results)
    ensures summary.failed == CountFailed(summary.results)
    ensures summary.total == summary.successful + summary.failed
  {
    var results: seq<BatchResult> := [];
    var idx := 0;
    while idx < |operations|
      invariant 0 <= idx <= |operations|
      invariant |results| == idx
      invariant forall i :: 0 <= i < idx ==> results[i] == ItemOutcome(m, operations[i], i)
    {
      var item := operations[idx];
      if item.num1.None? || item.operation.None? {
        results := results + [Failed(idx, MissingParameters)];
        idx := idx + 1;
        continue;
      }
      var num1, num2, op := item.num1.value, item.num2, item.operation.value;
      var outcome := Attempt(m, num1, num2, op);
      if outcome.Success? {
        results := results + [Succeeded(idx, m.round(outcome.value, 10), BatchExpression(m, num1, op, num2))];
      } else {
        results := results + [Failed(idx, outcome.error)];
      }
      idx := idx + 1;
    }
    CountsAddUp(results);
    summary := BatchSummary(|operations|, CountSucceeded(results), CountFailed(results), results);
  }
}
