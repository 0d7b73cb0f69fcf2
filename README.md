# Classic calculator: a Dafny model

This project models the core of a two-part calculator. The front end is a React calculator. The back end is a FastAPI service.

- **Front-end state machine** (`frontend/src/App.jsx`). It has five state slots: `display`, `previousValue`, `operation`, `waitingForOperand` and `history`.
  - The click handlers update those slots.
  - The evaluation function `calculate` combines the stored operand, the parsed display and the pending operator.
  - The history keeps the ten newest records.
  - Two forms are modelled. Module `CalculatorState` holds pure transitions on a `State` value; the properties are proved there. Class `CalculatorApp.Calculator` holds the same slots as fields, and each of its methods is proved to agree with its transition.
  - Module `DisplayEntry` covers digit and decimal-point entry. It proves that any run of such presses types the number in a canonical form.
  - Module `JsNumbers` covers the JavaScript values the machine handles (numbers, NaN and the `'Error'` string) and `calculate`.
- **Keyboard mapping** (`frontend/src/components/KeyboardHandler.jsx`). Module `Keyboard` classifies a key into at most one callback.
- **Back-end `/calculate` and its history** (`backend/app/main.py`). This is module `BackendCalculator`.
  - The operation name is lower-cased and matched against twelve alias lists, and each operation has its own guards.
  - The result is rounded and appended to an in-memory history of at most 100 items.
  - Class `CalculationHistory` holds that list, with `Calculate`, `GetHistory` and `ClearHistory`.
- **The other computing endpoints** (`backend/app/routes/api.py`):
  - the batch loop (`BatchCalculation`)
  - statistics over a list (`Statistics`)
  - temperature conversion (`Temperature`)
  - factorial and logarithm (`Scientific`)
- **Shared Python semantics** (`PyRuntime`): `str.lower`, the floored `%` on floats, and the float functions that are taken as given.

Numbers are exact reals. `parseFloat`, `String(x)`, `Math.sqrt`, and Python's `str`, `round`, `math.sqrt` and `math.pow` are never interpreted. They are fields of the `Host` and `PyMath` datatypes, passed in as parameters. Every property proved holds whatever these functions do, unless a lemma states an assumption about them in its `requires`.

## Model

| member | source | states |
|---|---|---|
| JsNumbers.OrZero | frontend/src/App.jsx:46 | `previousValue \|\| 0`: a truthy value is kept; 0, NaN and the empty string become 0 |
| JsNumbers.Show | frontend/src/App.jsx:49-52 | `String(v)`: a number is formatted by the host, NaN is "NaN" and a string is itself (no contract; it is a definition) |
| JsNumbers.ToNumber | frontend/src/App.jsx:64-71 | numeric coercion of a first operand for `- × ÷ %`: a string becomes NaN, numbers are unchanged |
| JsNumbers.Trunc | frontend/src/App.jsx:71 | truncation toward zero: within one below a non-negative quotient and within one above a negative one |
| JsNumbers.Remainder | frontend/src/App.jsx:71 | JavaScript `%` is NaN exactly when an operand is NaN or the divisor is 0 |
| JsNumbers.RemainderBounds | frontend/src/App.jsx:71 | on numbers with a nonzero divisor, the dividend minus the remainder is a whole multiple of the divisor, the remainder is smaller than the divisor in magnitude and has the dividend's sign, and a dividend smaller than the divisor is returned unchanged |
| JsNumbers.Calculate | frontend/src/App.jsx:60-75 | `÷` by 0 returns the 'Error' sentinel, and on a numeric first operand it is the only error; `%` by 0 gives NaN; on two numbers `+ - × ÷` are exact and `%` is the truncating remainder; NaN propagates; '=' and unknown symbols return the second operand; a sentinel first operand is concatenated by `+` and gives NaN for the other operators, except that `÷` by 0 still gives the sentinel |
| DisplayEntry.DigitChar | frontend/src/App.jsx:13 | `String(digit)` is the one decimal-digit character whose value is the digit |
| DisplayEntry.AfterDigit | frontend/src/App.jsx:11-18 | the display ends with the new digit; it is that digit alone when waiting or when the display was "0", otherwise the old display followed by the digit |
| DisplayEntry.AfterDecimal | frontend/src/App.jsx:20-27 | "0." when waiting; otherwise a point is appended exactly when there is none; the result always has a point |
| DisplayEntry.AfterDecimalIdempotent | frontend/src/App.jsx:24-26 | a second decimal press is a no-op |
| DisplayEntry.AfterDigitKeepsEntryForm | frontend/src/App.jsx:12-17 | a digit press keeps the display free of a leading "0" before a digit and with at most one point |
| DisplayEntry.AfterDecimalKeepsEntryForm | frontend/src/App.jsx:21-26 | a decimal press keeps the same entry form |
| DisplayEntry.ReplayKeepsEntryForm | frontend/src/App.jsx:11-27 | any run of digit and point presses keeps that entry form |
| DisplayEntry.ReplayAfterOperator | frontend/src/App.jsx:12-14 | after an operator, typing gives the same display as typing from a fresh "0" |
| DisplayEntry.ReplayIsCanonical | frontend/src/App.jsx:11-27 | from "0", the display is the typed characters with later points dropped, leading zeros removed, and "0" put back before a leading point or for nothing |
| DisplayEntry.AfterOperatorIsCanonical | frontend/src/App.jsx:11-27 | the same canonical text after an operator |
| DisplayEntry.ReplayIsLiteral | frontend/src/App.jsx:16 | a number typed from a nonzero digit with at most one point reads as the literal concatenation of the keys |
| CalculatorState.EntryText | frontend/src/App.jsx:49 | a history line always ends in " = " followed by the result |
| CalculatorState.Record | frontend/src/App.jsx:50 | the new entry is at index 0, old entries 0..8 move to 1..9, and the length is min(old + 1, 10) |
| CalculatorState.InputDigit | frontend/src/App.jsx:11-18 | only the display (as `AfterDigit`) and the waiting flag (cleared) change |
| CalculatorState.InputDecimal | frontend/src/App.jsx:20-27 | only the display (as `AfterDecimal`) and the waiting flag change, and the flag always ends cleared |
| CalculatorState.Clear | frontend/src/App.jsx:29-34 | everything returns to the initial values except the history |
| CalculatorState.ClearEntry | frontend/src/App.jsx:36-38 | only the display changes, to "0" |
| CalculatorState.Evaluation | frontend/src/App.jsx:45-49 | the record holds `previousValue \|\| 0`, the pending symbol, the parsed display and `calculate` of the three |
| CalculatorState.PerformOperation | frontend/src/App.jsx:40-58 | with nothing stored, it stores the parsed display and leaves the history alone; with an operator pending, it records one evaluation and shows and stores its result; an empty operator changes neither; in every case it ends waiting with `next` pending |
| CalculatorState.Percentage | frontend/src/App.jsx:77-80 | only the display changes, to the parsed value divided by 100 (or "NaN") |
| CalculatorState.ToggleSign | frontend/src/App.jsx:82-85 | only the display changes, to the negated parsed value (or "NaN") |
| CalculatorState.SquareRoot | frontend/src/App.jsx:87-94 | only the display changes: to the root of a value that is at least 0, otherwise to "Error" |
| CalculatorState.ClearHistory | frontend/src/App.jsx:96-98 | only the history changes, to empty |
| CalculatorState.Pending | frontend/src/App.jsx:45 | an operator is pending when `operation` is a non-empty string, as JavaScript truthiness decides (no contract; it is a definition) |
| CalculatorState.Step | frontend/src/App.jsx:11-98 | one click runs exactly one handler (no contract; `StepKeepsValid` and `StepHistory` state its properties) |
| CalculatorState.Run | frontend/src/App.jsx:11-98 | clicks are handled one at a time, in order (no contract; `RunKeepsValid` and `HistoryBounded` state its properties) |
| CalculatorState.StepKeepsValid | frontend/src/App.jsx:40-98 | every handler keeps the history at 10 entries or fewer and keeps any stored string starting with "Error" |
| CalculatorState.RunKeepsValid | frontend/src/App.jsx:11-98 | any sequence of clicks keeps that invariant |
| CalculatorState.HistoryBounded | frontend/src/App.jsx:50 | from start-up, the history never exceeds 10 entries |
| CalculatorState.StepHistory | frontend/src/App.jsx:50 | the history changes only by one evaluating operator (one record prepended) or by clear-history |
| CalculatorState.ChainEvaluatesEagerly | frontend/src/App.jsx:40-58 | `3 + 4 + 5 =` shows 12, with history "7 + 5 = 12" above "3 + 4 = 7" |
| CalculatorState.DivisionByZeroRecordsThenShowsError | frontend/src/App.jsx:47-53 | `5 ÷ 0 =` records the evaluation with the sentinel and shows "Error"; AC restores the initial state with the record kept |
| CalculatorState.ClearEntryKeepsPendingOperation | frontend/src/App.jsx:36-58 | `7 + 9 CE 2 =` shows 9 |
| CalculatorState.DigitAfterErrorAppends | frontend/src/App.jsx:16 | a digit typed on the "Error" display when not waiting for an operand is appended to it |
| CalculatorState.EqualsIsStoredAsOperator | frontend/src/App.jsx:57 | '=' is kept as the pending operator; the next operator records "a = b = b" and stores b |
| CalculatorApp.Calculator.constructor | frontend/src/App.jsx:5-9 | the fields start at the `useState` initial values |
| CalculatorApp.Calculator.InputDigit | frontend/src/App.jsx:11-18 | the fields become `CalculatorState.InputDigit` of the old fields, and the invariant is kept |
| CalculatorApp.Calculator.InputDecimal | frontend/src/App.jsx:20-27 | the fields become `CalculatorState.InputDecimal` of the old fields |
| CalculatorApp.Calculator.Clear | frontend/src/App.jsx:29-34 | the fields become `CalculatorState.Clear` of the old fields |
| CalculatorApp.Calculator.ClearEntry | frontend/src/App.jsx:36-38 | the fields become `CalculatorState.ClearEntry` of the old fields |
| CalculatorApp.Calculator.PerformOperation | frontend/src/App.jsx:40-58 | the fields become `CalculatorState.PerformOperation` of the old fields |
| CalculatorApp.Calculator.Percentage | frontend/src/App.jsx:77-80 | the fields become `CalculatorState.Percentage` of the old fields |
| CalculatorApp.Calculator.ToggleSign | frontend/src/App.jsx:82-85 | the fields become `CalculatorState.ToggleSign` of the old fields |
| CalculatorApp.Calculator.SquareRoot | frontend/src/App.jsx:87-94 | the fields become `CalculatorState.SquareRoot` of the old fields |
| CalculatorApp.Calculator.ClearHistory | frontend/src/App.jsx:96-98 | the fields become `CalculatorState.ClearHistory` of the old fields |
| CalculatorApp.Calculator.Readout | frontend/src/App.jsx:114 | the line above the display is shown exactly when an operator is pending and a value is stored, and then reads "previous operator" |
| Keyboard.Classify | frontend/src/components/KeyboardHandler.jsx:16-52 | a single digit key gives that digit; `* x X` give ×, `/` gives ÷, `+ - %` give themselves, and every operator is one `calculate` knows; `. ,` give decimal, `Enter =` give equals, `Escape c C` give clear; Backspace gives a callback only when one is supplied; every other key gives nothing |
| PyRuntime.LowerChar | backend/app/main.py:66 | an ASCII capital becomes the matching small letter, the Kelvin sign U+212A becomes "k", and every other character is unchanged |
| PyRuntime.Lower | backend/app/main.py:66 | the result has the same length and lower-cases each character |
| PyRuntime.LowerHasNoCapitals | backend/app/main.py:66 | a lower-cased name holds no ASCII capital |
| PyRuntime.LowerIdempotent | backend/app/main.py:66 | lower-casing twice is lower-casing once |
| PyRuntime.LowerOfLowerCase | backend/app/main.py:66 | a string with no ASCII capital and no Kelvin sign is its own lower case |
| PyRuntime.FlooredModBounds | backend/app/main.py:103 | the dividend minus Python's float `%` is a whole multiple of the divisor; the result lies in [0, b) for b > 0 and in (b, 0] for b < 0, and is the dividend itself when that is already in range |
| PyRuntime.FlooredMod | backend/app/main.py:103 | Python's float `%`: the dividend minus the divisor times the floor of their quotient (no contract; `FlooredModBounds` states its properties) |
| BackendCalculator.KindOf | backend/app/main.py:72-145 | the operation found has the name among its aliases; no operation is found exactly when the name is in no list |
| BackendCalculator.KindOfAlias | backend/app/main.py:72-135 | every alias selects its own operation, so the alias lists are disjoint |
| BackendCalculator.Aliases | backend/app/main.py:72-135 | the twelve alias lists of the if/elif chain, in order (no contract; it is a definition) |
| BackendCalculator.AliasesAreLowerCase | backend/app/main.py:66-135 | every alias is its own lower case, so each one can be reached after `operation.lower()` |
| BackendCalculator.Symbol | backend/app/main.py:76-110 | the symbol shown in a binary expression is one of that operation's own aliases |
| BackendCalculator.Binary | backend/app/main.py:75-110 | `/` and `%` reject exactly a zero divisor and `^` fails exactly when `math.pow` raises; otherwise `+ - × ÷` are exact, `%` is the floored remainder and `^` is `math.pow`; the expression is "num1 symbol num2" |
| BackendCalculator.Unary | backend/app/main.py:113-139 | sqrt rejects exactly a negative operand and inverse exactly zero; square is non-negative; abs is non-negative and ±num1; negate is −num1; percent is num1/100; inverse times num1 is 1 |
| BackendCalculator.Apply | backend/app/main.py:72-139 | a binary operation is rejected for a missing `num2` exactly when it is binary and `num2` is absent; otherwise the operation's own branch decides |
| BackendCalculator.Evaluate | backend/app/main.py:66-145 | an unrecognised name, and only that, is rejected as unrecognised; a known name runs its operation |
| BackendCalculator.EvaluateAlias | backend/app/main.py:72-135 | any alias of an operation runs that operation |
| BackendCalculator.UnaryIgnoresSecond | backend/app/main.py:113-139 | a unary operation's outcome does not depend on `num2` |
| BackendCalculator.ModuloBounds | backend/app/main.py:98-104 | a modulo with a nonzero divisor succeeds and lies between 0 and the divisor |
| BackendCalculator.Respond | backend/app/main.py:63-165 | the request fails exactly when evaluating the lower-cased name fails, and then with that error; a result is the evaluated value rounded to 10 places, the operation is echoed lower-cased, and the expression ends in " = result" |
| BackendCalculator.Complete | backend/app/main.py:147-165 | the last step of `Respond`: a failure passes through with its error; a success is rounded to 10 places and its expression ends in " = result" |
| BackendCalculator.RespondIgnoresCase | backend/app/main.py:66 | an operation name and its lower-case form give the same response |
| BackendCalculator.Appended | backend/app/main.py:155-159 | after the append and the pop, the list is a suffix of the old list plus the new item, ends with the new item, and has min(old + 1, 100) items |
| BackendCalculator.Reversed | backend/app/main.py:181 | `reversed`: the same length, with element i being the old element n−1−i |
| BackendCalculator.Recent | backend/app/main.py:181 | the newest min(n, 50) items, newest first |
| BackendCalculator.CalculationHistory.constructor | backend/app/main.py:38 | the history starts empty |
| BackendCalculator.CalculationHistory.Calculate | backend/app/main.py:58-165 | returns `Respond`; a rejected request leaves the history unchanged; a success appends exactly the returned expression and result; the history stays at 100 items or fewer |
| BackendCalculator.CalculationHistory.GetHistory | backend/app/main.py:174-182 | the count is the full length, and the list is the newest 50 items, newest first |
| BackendCalculator.CalculationHistory.ClearHistory | backend/app/main.py:184-190 | the history becomes empty |
| BatchCalculation.Or | backend/app/routes/api.py:68-72 | `num2 or d`: a missing or zero `num2` becomes d, any other is kept |
| BatchCalculation.BatchExpression | backend/app/routes/api.py:88 | the expression starts with "num1 op " and then shows `num2` when it is truthy and nothing when it is missing or zero |
| BatchCalculation.Attempt | backend/app/routes/api.py:64-82 | unknown operators, a zero divisor, a missing divisor and the square root of a negative number each fail, and only those; `+`/`-` treat a missing or zero `num2` as 0; `×` treats it as 1, so a zero multiplier leaves num1; a successful quotient times the divisor is num1 |
| BatchCalculation.ItemOutcome | backend/app/routes/api.py:51-96 | the entry carries its index; it is a missing-parameters failure exactly when `num1` or `operation` is absent; it succeeds exactly when the computation does, with the result rounded to 10 places |
| BatchCalculation.CountSucceeded | backend/app/routes/api.py:100 | the number of successful entries is at most the number of entries |
| BatchCalculation.CountFailed | backend/app/routes/api.py:101 | the number of failed entries is at most the number of entries |
| BatchCalculation.CountsAddUp | backend/app/routes/api.py:98-101 | successes plus failures equal the number of entries |
| BatchCalculation.BatchCalculate | backend/app/routes/api.py:43-103 | one entry per operation, entry i being `ItemOutcome` at index i; total = successful + failed = number of operations |
| Statistics.Insert | backend/app/routes/api.py:113 | inserting into a sorted list keeps it sorted and adds exactly that element |
| Statistics.Sort | backend/app/routes/api.py:113 | `sorted`: ascending, and a permutation of the input |
| Statistics.SumSort | backend/app/routes/api.py:117 | the sum of the sorted list is the sum of the input |
| Statistics.Sum | backend/app/routes/api.py:117 | `sum`: the elements added from the first to the last (no contract; `SumSort` and `Mean` state what is used of it) |
| Statistics.MinOf | backend/app/routes/api.py:119 | `min`: an element that is at most every element |
| Statistics.MaxOf | backend/app/routes/api.py:120 | `max`: an element that is at least every element |
| Statistics.Lowest | backend/app/routes/api.py:113-119 | `min` of the sorted numbers is one of the numbers and at most every one of them |
| Statistics.Highest | backend/app/routes/api.py:113-120 | `max` of the sorted numbers is one of the numbers and at least every one of them |
| Statistics.Median | backend/app/routes/api.py:124-127 | on an odd length the middle element; on an even length the point halfway between the two middle elements; on a sorted list it lies between the two middle elements |
| Statistics.MedianIsMiddle | backend/app/routes/api.py:124-127 | on a sorted list, the median is at least every element of the lower half and at most every element of the upper half |
| Statistics.MedianOf | backend/app/routes/api.py:113-127 | the median of the numbers is `Median` of the sorted numbers, and lies between their minimum and maximum |
| Statistics.SortedMean | backend/app/routes/api.py:113-118 | the mean of the sorted list equals the mean of the numbers as given |
| Statistics.Mean | backend/app/routes/api.py:118 | the mean times the count is the sum |
| Statistics.MeanBounds | backend/app/routes/api.py:118 | numbers within [lo, hi] have their mean within [lo, hi] |
| Statistics.SortKeepsElements | backend/app/routes/api.py:113 | sorting keeps the length and exactly the same values |
| Statistics.SameExtremes | backend/app/routes/api.py:119-120 | the minimum and maximum of the sorted list are input values that bound every input value |
| Statistics.SquaredDeviations | backend/app/routes/api.py:134 | the sum of squared deviations is non-negative |
| Statistics.Variance | backend/app/routes/api.py:130-134 | the variance is absent exactly for one number; when present it is non-negative and times the count equals the sum of squared deviations from the mean |
| Statistics.Describe | backend/app/routes/api.py:110-135 | fails exactly on an empty list; count and sum are those of the input; the mean is `Mean` of the input and the median is `MedianOf` it; min and max bound every input; min ≤ median ≤ max; min ≤ mean ≤ max; range = max − min ≥ 0; the variance is `Variance` of the sorted list about that mean, absent exactly for n = 1, and std_dev is the root of a non-negative variance |
| Statistics.CalculateStatistics | backend/app/routes/api.py:105-147 | fails exactly on an empty list; otherwise count is n and every other field is the matching `Describe` field rounded to 10 places, variance and std_dev being absent exactly for n = 1 |
| Temperature.UnitOf | backend/app/routes/api.py:171-188 | exactly "celsius"/"c", "fahrenheit"/"f" and "kelvin"/"k" name the three units |
| Temperature.ToCelsius | backend/app/routes/api.py:171-178 | Celsius is kept; Fahrenheit satisfies C·9 = (F − 32)·5; Kelvin satisfies C + 273.15 = K |
| Temperature.FromCelsius | backend/app/routes/api.py:181-188 | Celsius is kept; Fahrenheit satisfies (F − 32)·5 = C·9; Kelvin satisfies K − 273.15 = C |
| Temperature.CelsiusInverse | backend/app/routes/api.py:171-186 | over the reals, the to-Celsius and from-Celsius formulas undo each other in both orders |
| Temperature.Convert | backend/app/routes/api.py:167-188 | an unknown source unit is reported first, then an unknown target unit; a result has the same Celsius value as the input |
| Temperature.ConvertRoundTrip | backend/app/routes/api.py:167-188 | converting a→b and back b→a returns the original value |
| Temperature.ConvertSameUnit | backend/app/routes/api.py:171-186 | converting to the same unit returns the value |
| Temperature.ConvertIgnoresCase | backend/app/routes/api.py:167-168 | unit names are case-insensitive |
| Temperature.KelvinSignIsKelvin | backend/app/routes/api.py:167-176 | a unit given as the Kelvin sign U+212A lower-cases to "k" and converts as kelvin |
| Temperature.ConvertTemperature | backend/app/routes/api.py:162-195 | fails exactly when `Convert` does; otherwise it rounds to 2 places and echoes the value and the lower-cased unit names |
| Scientific.CalculateFactorial | backend/app/routes/api.py:202-207 | rejects exactly n < 0 and exactly n > 170, and otherwise returns n! (at least 1) |
| Scientific.Factorial | backend/app/routes/api.py:207 | `math.factorial`: the product 1 · 2 · … · n (no contract; `FactorialPositive`, `FactorialQuotient` and `FactorialMonotone` state its properties) |
| Scientific.FactorialPositive | backend/app/routes/api.py:207 | n! ≥ 1 |
| Scientific.FactorialQuotient | backend/app/routes/api.py:207 | n! is a whole multiple of every k from 1 to n |
| Scientific.FactorialMonotone | backend/app/routes/api.py:207 | n! never decreases as n grows |
| Scientific.Logarithm | backend/app/routes/api.py:260-277 | rejects exactly a value ≤ 0; with a positive value, a given base ≤ 0 or = 1 is rejected, and only that; no base is the natural log "e"; 10 and 2 use their own functions; every other base takes the logarithm in that base, shown with `str` |

## Left out

- Floating point. Numbers are exact reals, with no rounding, overflow, infinities or −0. `parseFloat`, `String(x)`, `Math.sqrt`, and Python's `str`, `round`, `math.sqrt` and `math.pow` are parameters that are never interpreted.
- Scientific.Logarithm: the numeric value (`math.log`, `math.log10`, `math.log2`, and `math.log(value, base)`) is not computed. The model states which logarithm is taken and the base text, not the rounded result or the expression string.
- Scientific.CalculateFactorial: the response's echo of `n` and its `"n!"` expression are not modelled.
- PyRuntime.LowerChar and PyRuntime.Lower: fold the ASCII capitals and the Kelvin sign U+212A, which are the only characters whose lower case in Python is ASCII. So name and unit matching agrees with Python on every input. Other non-ASCII capitals are kept, so the echoed `operation` and unit strings differ from Python's for them. For example, "É" stays "É" where Python gives "é", and "İ" stays one character where Python gives two.
- The trigonometry endpoint is not part of this model: it is transcendental functions throughout.
- The constant endpoints are left out because they only return fixed dictionaries: root, health, operations, API status, constants and memory.
- HTTP plumbing is left out. This covers FastAPI and pydantic validation, CORS and the router set-up. Status codes are reduced to an error datatype, so the 400 and 500 cases are not distinguished.
- The batch items are modelled as numbers. JSON values of other types in a batch item (strings, booleans and so on) are not modelled.
- React rendering, styling and the history panel are left out, as are `Button.jsx`, `Display.jsx` and `History.jsx`.
- Browser event wiring is left out: `addEventListener`, `preventDefault` and the `useEffect` dependencies.
- A front-end history entry is kept as its four parts. `EntryText` gives the string the source stores.
- Concurrency is left out. Requests on the shared history list are taken one at a time.

## Behaviour worth knowing

- The 'Error' sentinel fed back into arithmetic follows JavaScript's own coercions:
  - `'Error' || 0` keeps the string.
  - `+` concatenates onto it.
  - `-`, `×`, `%`, and `÷` by a nonzero number turn it into NaN.
  - `÷` by 0 still gives "Error" (App.jsx:69).
  - The invariant `CalculatorState.Valid` keeps every stored string starting with "Error", which makes that coercion to NaN exact.
- A digit is appended to an "Error" display only when the calculator is not waiting for an operand (`DigitAfterErrorAppends`). After `5 ÷ 0 =` the waiting flag is set (App.jsx:56), so the next digit replaces "Error" (App.jsx:12-14). The square root of a negative number (App.jsx:92) leaves the flag as it was, so, when the calculator was not waiting for an operand, digits typed after it extend "Error".
- `=` is stored as an ordinary pending operator. The next operator then evaluates it, and the evaluation passes the second operand through and records it (`EqualsIsStoredAsOperator`).
- `%` by zero is not guarded in the front end and yields NaN, not the sentinel.
- A number typed from a nonzero first digit with at most one point reads as the literal keys (`ReplayIsLiteral`). In general, leading zeros are dropped, later points are ignored, and a leading point gets a "0" (`ReplayIsCanonical`).
- In a batch, `num2 or 1` replaces a zero multiplier by 1, so `5 × 0` gives 5.
