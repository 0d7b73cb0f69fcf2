/**
 * The `/calculate` endpoint of backend/app/main.py: an operation name, lower-cased and
 * matched against fixed alias lists, selects one of twelve operations on `num1` and the
 * optional `num2`; a successful result is rounded, returned, and appended to the
 * in-memory history, which keeps the newest 100 items.
 *
 * Floats are exact reals; `str`, `round`, `math.sqrt` and `math.pow` are the
 * uninterpreted functions of `PyMath`.
 */
module BackendCalculator {
  import opened Base
  import opened PyRuntime

  datatype OpKind =
    | Add | Subtract | Multiply | Divide | Modulo | Power
    | SquareRoot | Square | Absolute | Negate | Percent | Inverse

  /** The operations that need `num2`. */
  predicate IsBinary(k: OpKind) {
    k in {Add, Subtract, Multiply, Divide, Modulo, Power}
  }

  /** The lower-case names each operation is requested by. */
  function Aliases(k: OpKind): seq<string> {
    match k
    case Add => ["+", "add", "suma"]
    case Subtract => ["-", "subtract", "resta"]
    case Multiply => ["*", "x", "×", "multiply", "multiplicacion"]
    case Divide => ["/", "÷", "divide", "division"]
    case Modulo => ["%", "mod", "modulo"]
    case Power => ["^", "**", "pow", "power", "potencia"]
    case SquareRoot => ["sqrt", "raiz", "square_root"]
    case Square => ["square", "cuadrado"]
    case Absolute => ["abs", "absolute", "valor_absoluto"]
    case Negate => ["negate", "negativo", "toggle_sign"]
    case Percent => ["percent", "porcentaje"]
    case Inverse => ["inverse", "inverso"]
  }

  /** Names are lower-cased before they are matched, so an alias is reachable only if
      it is its own lower case; every alias is. */
  lemma AliasesAreLowerCase(k: OpKind, name: string)
    requires name in Aliases(k)
    ensures Lower(name) == name
  {
    if k == Add || k == Subtract || k == Multiply || k == Divide {
      ArithmeticAliasesLowerCase(k, name);
    } else if k == Modulo || k == Power || k == SquareRoot || k == Square {
      PowerAliasesLowerCase(k, name);
    } else {
      UnaryAliasesLowerCase(k, name);
    }
    LowerOfLowerCase(name);
  }

  /** The aliases of the four arithmetic operations are lower case. */
  lemma ArithmeticAliasesLowerCase(k: OpKind, name: string)
    requires k == Add || k == Subtract || k == Multiply || k == Divide
    requires name in Aliases(k)
    ensures IsLowerCase(name)
  {
    match k {
      case Add => assert name in ["+", "add", "suma"];
      case Subtract => assert name in ["-", "subtract", "resta"];
      case Multiply => assert name in ["*", "x", "×", "multiply", "multiplicacion"];
      case Divide => assert name in ["/", "÷", "divide", "division"];
    }
  }

  /** The aliases of modulo, powers and roots are lower case. */
  lemma PowerAliasesLowerCase(k: OpKind, name: string)
    requires k == Modulo || k == Power || k == SquareRoot || k == Square
    requires name in Aliases(k)
    ensures IsLowerCase(name)
  {
    match k {
      case Modulo => assert name in ["%", "mod", "modulo"];
      case Power => assert name in ["^", "**", "pow", "power", "potencia"];
      case SquareRoot => assert name in ["sqrt", "raiz", "square_root"];
      case Square => assert name in ["square", "cuadrado"];
    }
  }

  /** The aliases of absolute value, negation, percent and inverse are lower case. */
  lemma UnaryAliasesLowerCase(k: OpKind, name: string)
    requires k == Absolute || k == Negate || k == Percent || k == Inverse
    requires name in Aliases(k)
    ensures IsLowerCase(name)
  {
    match k {
      case Absolute => assert name in ["abs", "absolute", "valor_absoluto"];
      case Negate => assert name in ["negate", "negativo", "toggle_sign"];
      case Percent => assert name in ["percent", "porcentaje"];
      case Inverse => assert name in ["inverse", "inverso"];
    }
  }

  /** The operation an (already lower-cased) name selects, trying the alias lists in
      the order of the if/elif chain. No name is an alias of two operations, so the
      operation found is the only one the name belongs to. */
  function KindOf(name: string): (k: Option<OpKind>)
    ensures k.Some? ==> name in Aliases(k.value)
    ensures k.None? ==> forall kind :: name !in Aliases(kind)
  {
    if name in Aliases(Add) then Some(Add)
    else if name in Aliases(Subtract) then Some(Subtract)
    else if name in Aliases(Multiply) then Some(Multiply)
    else if name in Aliases(Divide) then Some(Divide)
    else if name in Aliases(Modulo) then Some(Modulo)
    else if name in Aliases(Power) then Some(Power)
    else if name in Aliases(SquareRoot) then Some(SquareRoot)
    else if name in Aliases(Square) then Some(Square)
    else if name in Aliases(Absolute) then Some(Absolute)
    else if name in Aliases(Negate) then Some(Negate)
    else if name in Aliases(Percent) then Some(Percent)
    else if name in Aliases(Inverse) then Some(Inverse)
    else None
  }

  /** Each alias selects its own operation: no name is listed for two operations. */
  lemma KindOfAlias(kind: OpKind, name: string)
    requires name in Aliases(kind)
    ensures KindOf(name) == Some(kind)
  {
    match kind
    case Add => AddAliases(name);
    case Subtract => SubtractAliases(name);
    case Multiply => MultiplyAliases(name);
    case Divide => DivideAliases(name);
    case Modulo => ModuloAliases(name);
    case Power => PowerAliases(name);
    case SquareRoot => SquareRootAliases(name);
    case Square => SquareAliases(name);
    case Absolute => AbsoluteAliases(name);
    case Negate => NegateAliases(name);
    case Percent => PercentAliases(name);
    case Inverse => InverseAliases(name);
  }

  lemma AddAliases(name: string)
    requires name in Aliases(Add)
    ensures KindOf(name) == Some(Add)
  {
    assert name in ["+", "add", "suma"];
  }

  lemma SubtractAliases(name: string)
    requires name in Aliases(Subtract)
    ensures KindOf(name) == Some(Subtract)
  {
    assert name in ["-", "subtract", "resta"];
  }

  lemma MultiplyAliases(name: string)
    requires name in Aliases(Multiply)
    ensures KindOf(name) == Some(Multiply)
  {
    assert name in ["*", "x", "×", "multiply", "multiplicacion"];
  }

  lemma DivideAliases(name: string)
    requires name in Aliases(Divide)
    ensures KindOf(name) == Some(Divide)
  {
    assert name in ["/", "÷", "divide", "division"];
  }

  lemma ModuloAliases(name: string)
    requires name in Aliases(Modulo)
    ensures KindOf(name) == Some(Modulo)
  {
    assert name in ["%", "mod", "modulo"];
  }

  lemma PowerAliases(name: string)
    requires name in Aliases(Power)
    ensures KindOf(name) == Some(Power)
  {
    assert name in ["^", "**", "pow", "power", "potencia"];
  }

  lemma SquareRootAliases(name: string)
    requires name in Aliases(SquareRoot)
    ensures KindOf(name) == Some(SquareRoot)
  {
    assert name in ["sqrt", "raiz", "square_root"];
  }

  lemma SquareAliases(name: string)
    requires name in Aliases(Square)
    ensures KindOf(name) == Some(Square)
  {
    assert name in ["square", "cuadrado"];
  }

  lemma AbsoluteAliases(name: string)
    requires name in Aliases(Absolute)
    ensures KindOf(name) == Some(Absolute)
  {
    assert name in ["abs", "absolute", "valor_absoluto"];
  }

  lemma NegateAliases(name: string)
    requires name in Aliases(Negate)
    ensures KindOf(name) == Some(Negate)
  {
    assert name in ["negate", "negativo", "toggle_sign"];
  }

  lemma PercentAliases(name: string)
    requires name in Aliases(Percent)
    ensures KindOf(name) == Some(Percent)
  {
    assert name in ["percent", "porcentaje"];
  }

  lemma InverseAliases(name: string)
    requires name in Aliases(Inverse)
    ensures KindOf(name) == Some(Inverse)
  {
    assert name in ["inverse", "inverso"];
  }

  /** Why a calculation is rejected: the HTTP 400 cases, and a `math.pow` that raises. */
  datatype CalcError =
    | MissingOperand(kind: OpKind)
    | DivisionByZero
    | ModuloByZero
    | NegativeRoot
    | InverseOfZero
    | PowerFailed
    | Unrecognized(name: string)

  /** The unrounded result and the expression text before ` = result`. */
  datatype Computed = Computed(value: real, expression: string)

  /** The symbol shown between the operands of a binary operation. */
  function Symbol(k: OpKind): (symbol: string)
    requires IsBinary(k)
    ensures symbol in Aliases(k)
  {
    match k
    case Add => "+"
    case Subtract => "-"
    case Multiply => "×"
    case Divide => "÷"
    case Modulo => "%"
    case Power => "^"
  }

  /** A binary operation once `num2` is known to be present. */
  function Binary(m: PyMath, k: OpKind, a: real, b: real): (r: Result<Computed, CalcError>)
    requires IsBinary(k)
    // the only rejections: a zero divisor for `/` and `%`, and a `math.pow` that raises
    ensures r == Failure(DivisionByZero) <==> k == Divide && b == 0.0
    ensures r == Failure(ModuloByZero) <==> k == Modulo && b == 0.0
    ensures r == Failure(PowerFailed) <==> k == Power && m.pow(a, b).None?
    ensures r.Failure? ==> r.error in {DivisionByZero, ModuloByZero, PowerFailed}
    // the value of a successful operation
    ensures r.Success? ==>
      var v := r.value.value;
      && (k == Add ==> v == a + b)
      && (k == Subtract ==> v + b == a)
      && (k == Multiply ==> v == a * b)
      && (k == Divide ==> b != 0.0 && v * b == a)
      && (k == Modulo ==> b != 0.0 && v == FlooredMod(a, b))
      && (k == Power ==> m.pow(a, b) == Some(v))
    // the expression names both operands around the operation's symbol
    ensures r.Success? ==> r.value.expression == m.str(a) + " " + Symbol(k) + " " + m.str(b)
  {
    var expression := m.str(a) + " " + Symbol(k) + " " + m.str(b);
    match k
    case Add => Success(Computed(a + b, expression))
    case Subtract => Success(Computed(a - b, expression))
    case Multiply => Success(Computed(a * b, expression))
    case Divide =>
      if b == 0.0 then Failure(DivisionByZero) else Success(Computed(a / b, expression))
    case Modulo =>
      if b == 0.0 then Failure(ModuloByZero) else Success(Computed(FlooredMod(a, b), expression))
    case Power =>
      match m.pow(a, b)
      case None => Failure(PowerFailed)
      case Some(p) => Success(Computed(p, expression))
  }

  /** A unary operation; `num2` is never looked at. */
  function Unary(m: PyMath, k: OpKind, a: real): (r: Result<Computed, CalcError>)
    requires !IsBinary(k)
    // the only rejections: the square root of a negative number and the inverse of zero
    ensures r == Failure(NegativeRoot) <==> k == SquareRoot && a < 0.0
    ensures r == Failure(InverseOfZero) <==> k == Inverse && a == 0.0
    ensures r.Failure? ==> r.error in {NegativeRoot, InverseOfZero}
    // the value of a successful operation
    ensures r.Success? ==>
      var v := r.value.value;
      && (k == SquareRoot ==> a >= 0.0 && v == m.sqrt(a))
      && (k == Square ==> v >= 0.0 && v == a * a)
      && (k == Absolute ==> v >= 0.0 && (v == a || v == -a))
      && (k == Negate ==> v + a == 0.0)
      && (k == Percent ==> v * 100.0 == a)
      && (k == Inverse ==> a != 0.0 && v * a == 1.0)
  {
    var shown := m.str(a);
    match k
    case SquareRoot =>
      if a < 0.0 then Failure(NegativeRoot) else Success(Computed(m.sqrt(a), "√" + shown))
    case Square => Success(Computed(a * a, shown + "²"))
    case Absolute => Success(Computed(if a < 0.0 then -a else a, "|" + shown + "|"))
    case Negate => Success(Computed(-a, "-(" + shown + ")"))
    case Percent => Success(Computed(a / 100.0, shown + "%"))
    case Inverse =>
      if a == 0.0 then Failure(InverseOfZero) else Success(Computed(1.0 / a, "1/" + shown))
  }

  /** The branch of the if/elif chain for operation `k`: binary operations first check
      that `num2` is present. */
  function Apply(m: PyMath, k: OpKind, num1: real, num2: Option<real>): (r: Result<Computed, CalcError>)
    ensures r == Failure(MissingOperand(k)) <==> IsBinary(k) && num2.None?
    ensures r.Failure? && r.error.MissingOperand? ==> r.error.kind == k
    ensures IsBinary(k) && num2.Some? ==> r == Binary(m, k, num1, num2.value)
    ensures !IsBinary(k) ==> r == Unary(m, k, num1)
  {
    if !IsBinary(k) then Unary(m, k, num1)
    else if num2.None? then Failure(MissingOperand(k))
    else Binary(m, k, num1, num2.value)
  }

  /** `calculate` on a lower-cased operation name: a name outside every alias list is
      rejected, any other is the operation it names. */
  function Evaluate(m: PyMath, num1: real, num2: Option<real>, name: string): (r: Result<Computed, CalcError>)
    ensures KindOf(name).None? <==> r == Failure(Unrecognized(name))
    ensures KindOf(name).Some? ==> r == Apply(m, KindOf(name).value, num1, num2)
  {
    match KindOf(name)
    case None => Failure(Unrecognized(name))
    case Some(k) => Apply(m, k, num1, num2)
  }

  /** Any alias of an operation, whatever its position in the lists, runs that
      operation. */
  lemma EvaluateAlias(m: PyMath, num1: real, num2: Option<real>, kind: OpKind, name: string)
    requires name in Aliases(kind)
    ensures Evaluate(m, num1, num2, name) == Apply(m, kind, num1, num2)
  {
    KindOfAlias(kind, name);
  }

  /** A unary operation gives the same outcome whatever `num2` holds. */
  lemma UnaryIgnoresSecond(m: PyMath, num1: real, a: Option<real>, b: Option<real>, name: string)
    requires KindOf(name).Some? && !IsBinary(KindOf(name).value)
    ensures Evaluate(m, num1, a, name) == Evaluate(m, num1, b, name)
  {
  }

  /** A successful modulo lies between 0 and the divisor, as Python's floored `%` does. */
  lemma ModuloBounds(m: PyMath, a: real, b: real)
    requires b != 0.0
    ensures Binary(m, Modulo, a, b).Success?
    ensures b > 0.0 ==> 0.0 <= Binary(m, Modulo, a, b).value.value < b
    ensures b < 0.0 ==> b < Binary(m, Modulo, a, b).value.value <= 0.0
  {
    FlooredModBounds(a, b);
  }

  // ----- the response and the history -----

  datatype HistoryItem = HistoryItem(expression: string, result: real)

  datatype CalculationResponse = CalculationResponse(result: real, operation: string, expression: string)

  const HistoryCapacity: nat := 100
  const HistoryPage: nat := 50

  /** The last step of `calculate`: round an evaluated result to 10 places and
      complete the expression with ` = result`; a failure passes through. */
  function Complete(m: PyMath, name: string, evaluated: Result<Computed, CalcError>): (r: Result<CalculationResponse, CalcError>)
    ensures evaluated.Failure? <==> r.Failure?
    ensures r.Failure? ==> r.error == evaluated.error
    ensures r.Success? ==>
      var shown := " = " + m.str(r.value.result);
      && r.value.operation == name
      && r.value.result == m.round(evaluated.value.value, 10)
      && |r.value.expression| >= |shown|
      && r.value.expression[|r.value.expression| - |shown|..] == shown
  {
    match evaluated
    case Failure(e) => Failure(e)
    case Success(c) =>
      var result := m.round(c.value, 10);
      var expression := c.expression + " = " + m.str(result);
      assert expression[|c.expression|..] == " = " + m.str(result);
      Success(CalculationResponse(result, name, expression))
  }

  /** The whole of `calculate`: lower-case the name, evaluate, round to 10 places and
      complete the expression with ` = result`. */
  function Respond(m: PyMath, num1: real, num2: Option<real>, operation: string): (r: Result<CalculationResponse, CalcError>)
    ensures Evaluate(m, num1, num2, Lower(operation)).Failure? <==> r.Failure?
    ensures r.Failure? ==> r.error == Evaluate(m, num1, num2, Lower(operation)).error
    ensures r.Success? ==>
      var shown := " = " + m.str(r.value.result);
      && r.value.operation == Lower(operation)
      && r.value.result == m.round(Evaluate(m, num1, num2, Lower(operation)).value.value, 10)
      && |r.value.expression| >= |shown|
      && r.value.expression[|r.value.expression| - |shown|..] == shown
  {
    var name := Lower(operation);
    Complete(m, name, Evaluate(m, num1, num2, name))
  }

  /** Operation names are case-insensitive: a name and its lower-case form give the
      same response. */
  lemma RespondIgnoresCase(m: PyMath, num1: real, num2: Option<real>, operation: string)
    ensures Respond(m, num1, num2, Lower(operation)) == Respond(m, num1, num2, operation)
  {
    LowerIdempotent(operation);
  }

  /** The history after `append` and the `pop(0)` that keeps it at 100 items: the
      newest item last, preceded by the newest of the old items. */
  function Appended(items: seq<HistoryItem>, item: HistoryItem): (r: seq<HistoryItem>)
    ensures |items| <= HistoryCapacity ==> |r| == Min(|items| + 1, HistoryCapacity)
    ensures |r| > 0 && r[|r| - 1] == item
    ensures |r| <= |items| + 1
    ensures r == (items + [item])[|items| + 1 - |r|..]
  {
    var grown := items + [item];
    if |grown| > HistoryCapacity then grown[1..] else grown
  }

  /** `list(reversed(s))`. */
  function Reversed<T>(s: seq<T>): (r: seq<T>)
    ensures |r| == |s|
    ensures forall i :: 0 <= i < |s| ==> r[i] == s[|s| - 1 - i]
    decreases |s|
  {
    if s == [] then [] else Reversed(s[1..]) + [s[0]]
  }

  /** What `get_history` lists: `reversed(history[-50:])`, the newest 50 items (or all of
      them), newest first. */
  function Recent(items: seq<HistoryItem>): (r: seq<HistoryItem>)
    ensures |r| == Min(|items|, HistoryPage)
    ensures forall i :: 0 <= i < |r| ==> r[i] == items[|items| - 1 - i]
  {
    Reversed(items[|items| - Min(|items|, HistoryPage)..])
  }

  /** `calculation_history`, the module-level list the endpoints share. */
  class CalculationHistory {
    var items: seq<HistoryItem>

    ghost predicate Valid()
      reads this
    {
      |items| <= HistoryCapacity
    }

    constructor()
      ensures items == [] && Valid()
    {
      items := [];
    }

    /** POST /calculate. A rejected request leaves the history as it was; a successful
        one appends exactly one item, whose result and expression are the response's. */
    method Calculate(m: PyMath, num1: real, num2: Option<real>, operation: string)
      returns (r: Result<CalculationResponse, CalcError>)
      requires Valid()
      modifies this
      ensures Valid()
      ensures r == Respond(m, num1, num2, operation)
      ensures r.Failure? ==> items == old(items)
      ensures r.Success? ==> items == Appended(old(items), HistoryItem(r.value.expression, r.value.result))
    {
      var name := Lower(operation);
      var outcome := Evaluate(m, num1, num2, name);
      if outcome.Failure? {
        return Failure(outcome.error);
      }
      var result := m.round(outcome.value.value, 10);
      var expression := outcome.value.expression + " = " + m.str(result);
      items := items + [HistoryItem(expression, result)];
      if |items| > HistoryCapacity {
        items := items[1..];
      }
      r := Success(CalculationResponse(result, name, expression));
    }

    /** GET /history: the full count and the newest 50 items, newest first. */
    method GetHistory() returns (count: nat, history: seq<HistoryItem>)
      ensures count == |items|
      ensures |history| == Min(|items|, HistoryPage)
      ensures forall i :: 0 <= i < |history| ==> history[i] == items[|items| - 1 - i]
    {
      count := |items|;
      history := Recent(items);
    }

    /** DELETE /history. */
    method ClearHistory()
      modifies this
      ensures items == [] && Valid()
    {
      items := [];
    }
  }
}
