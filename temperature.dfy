/**
 * `convert_temperature` of backend/app/routes/api.py: both unit names are lower-cased,
 * the value is converted to Celsius and from Celsius to the target unit, and the
 * result is rounded to 2 places.
 */
module Temperature {
  import opened Base
  import opened PyRuntime

  datatype Unit = Celsius | Fahrenheit | Kelvin

  /** The unit a lower-cased name selects: its full name or its initial. */
  function UnitOf(name: string): (u: Option<Unit>)
    ensures u == Some(Celsius) <==> name in {"celsius", "c"}
    ensures u == Some(Fahrenheit) <==> name in {"fahrenheit", "f"}
    ensures u == Some(Kelvin) <==> name in {"kelvin", "k"}
  {
    if name == "celsius" || name == "c" then Some(Celsius)
    else if name == "fahrenheit" || name == "f" then Some(Fahrenheit)
    else if name == "kelvin" || name == "k" then Some(Kelvin)
    else None
  }

  /** The first step: a value in unit `u` expressed in degrees Celsius. */
  function ToCelsius(u: Unit, value: real): (c: real)
    ensures u == Celsius ==> c == value
    ensures u == Fahrenheit ==> c * 9.0 == (value - 32.0) * 5.0
    ensures u == Kelvin ==> c + 273.15 == value
  {
    match u
    case Celsius => value
    case Fahrenheit => (value - 32.0) * 5.0 / 9.0
    case Kelvin => value - 273.15
  }

  /** The second step: degrees Celsius expressed in unit `u`. */
  function FromCelsius(u: Unit, celsius: real): (v: real)
    ensures u == Celsius ==> v == celsius
    ensures u == Fahrenheit ==> (v - 32.0) * 5.0 == celsius * 9.0
    ensures u == Kelvin ==> v - 273.15 == celsius
  {
    match u
    case Celsius => celsius
    case Fahrenheit => celsius * 9.0 / 5.0 + 32.0
    case Kelvin => celsius + 273.15
  }

  /** Over the reals the two steps undo each other, in both orders. */
  lemma CelsiusInverse(u: Unit, value: real, celsius: real)
    ensures ToCelsius(u, FromCelsius(u, celsius)) == celsius
    ensures FromCelsius(u, ToCelsius(u, value)) == value
  {
  }

  datatype TemperatureError = UnknownSourceUnit | UnknownTargetUnit

  /** The unrounded conversion between two unit names, case-insensitively. */
  function Convert(value: real, fromUnit: string, toUnit: string): (r: Result<real, TemperatureError>)
    ensures r == Failure(UnknownSourceUnit) <==> UnitOf(Lower(fromUnit)).None?
    ensures r == Failure(UnknownTargetUnit) <==>
      UnitOf(Lower(fromUnit)).Some? && UnitOf(Lower(toUnit)).None?
    ensures r.Success? ==>
      var a, b := UnitOf(Lower(fromUnit)).value, UnitOf(Lower(toUnit)).value;
      ToCelsius(b, r.value) == ToCelsius(a, value)
  {
    match UnitOf(Lower(fromUnit))
    case None => Failure(UnknownSourceUnit)
    case Some(a) =>
      var celsius := ToCelsius(a, value);
      match UnitOf(Lower(toUnit))
      case None => Failure(UnknownTargetUnit)
      case Some(b) =>
        CelsiusInverse(b, value, celsius);
        Success(FromCelsius(b, celsius))
  }

  /** Converting to a unit and back returns the original value (before rounding). */
  lemma ConvertRoundTrip(value: real, fromUnit: string, toUnit: string)
    requires Convert(value, fromUnit, toUnit).Success?
    ensures Convert(Convert(value, fromUnit, toUnit).value, toUnit, fromUnit) == Success(value)
  {
    var a, b := UnitOf(Lower(fromUnit)).value, UnitOf(Lower(toUnit)).value;
    CelsiusInverse(b, value, ToCelsius(a, value));
    CelsiusInverse(a, value, ToCelsius(a, value));
  }

  /** Converting a value to its own unit leaves it unchanged. */
  lemma ConvertSameUnit(value: real, unit: string)
    requires UnitOf(Lower(unit)).Some?
    ensures Convert(value, unit, unit) == Success(value)
  {
    CelsiusInverse(UnitOf(Lower(unit)).value, value, 0.0);
  }

  /** The Kelvin sign lower-cases to "k", so it names the kelvin scale. */
  lemma KelvinSignIsKelvin(value: real)
    ensures Convert(value, [KelvinSign], "c") == Success(value - 273.15)
  {
    assert Lower([KelvinSign]) == "k";
    assert Lower("c") == "c";
  }

  datatype Conversion = Conversion(originalValue: real, originalUnit: string, convertedValue: real, convertedUnit: string)

  /** POST /api/convert/temperature: the conversion rounded to 2 places, with the unit
      names echoed in lower case. */
  function ConvertTemperature(m: PyMath, value: real, fromUnit: string, toUnit: string): (r: Result<Conversion, TemperatureError>)
    ensures r.Failure? <==> Convert(value, fromUnit, toUnit).Failure?
    ensures r.Failure? ==> r.error == Convert(value, fromUnit, toUnit).error
    ensures r.Success? ==>
      && r.value.convertedValue == m.round(Convert(value, fromUnit, toUnit).value, 2)
      && r.value.originalValue == value
      && r.value.originalUnit == Lower(fromUnit) && r.value.convertedUnit == Lower(toUnit)
  {
    match Convert(value, fromUnit, toUnit)
    case Failure(e) => Failure(e)
    case Success(v) => Success(Conversion(value, Lower(fromUnit), m.round(v, 2), Lower(toUnit)))
  }

  /** Unit names are case-insensitive. */
  lemma ConvertIgnoresCase(value: real, fromUnit: string, toUnit: string)
    ensures Convert(value, Lower(fromUnit), Lower(toUnit)) == Convert(value, fromUnit, toUnit)
  {
    LowerIdempotent(fromUnit);
    LowerIdempotent(toUnit);
  }
}
