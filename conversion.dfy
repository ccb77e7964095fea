/** The unit dispatch of `get_forecast`: the provider's temperature is in degrees
    Fahrenheit, and the script converts and rounds it for the selected unit. */
module Conversion {
  import opened Wrappers
  import opened WeatherOptions
  import opened Rounding

  /** Degrees Celsius for a Fahrenheit reading, before rounding. */
  function FahrenheitToCelsius(t: real): (c: real)
    ensures c * 9.0 / 5.0 + 32.0 == t
    ensures t == 32.0 ==> c == 0.0
  {
    (t - 32.0) * 5.0 / 9.0
  }

  /** The displayed temperature for a known unit: conversion first, then rounding. */
  function InUnit(u: Unit, t: real): (n: int)
    ensures u == Fahrenheit ==> Dist(n, t) <= 0.5
    ensures u == Celsius ==> Dist(n, FahrenheitToCelsius(t)) <= 0.5
  {
    match u
    case Celsius => Round(FahrenheitToCelsius(t))
    case Fahrenheit => Round(t)
  }

  /** The branch in `get_forecast`: `celsius` is tested before `farenheit`. */
  function ConvertTemperature(o: Options, t: real): (r: Result<int, Error>)
    ensures r.Err? <==> !o.farenheit && !o.celsius
    ensures r.Err? ==> r.error == MissingUnit
    ensures o.celsius ==> r == Ok(InUnit(Celsius, t))
    ensures !o.celsius && o.farenheit ==> r == Ok(InUnit(Fahrenheit, t))
  {
    if o.celsius then Ok(InUnit(Celsius, t))
    else if o.farenheit then Ok(InUnit(Fahrenheit, t))
    else Err(MissingUnit)
  }

  /** On options with at most one flag the dispatch converts to exactly the selected unit. */
  lemma ConvertsToSelectedUnit(o: Options, t: real)
    requires !(o.farenheit && o.celsius)
    ensures ConvertTemperature(o, t).Ok? <==> SelectedUnit(o).Some?
    ensures SelectedUnit(o).Some? ==>
      ConvertTemperature(o, t) == Ok(InUnit(SelectedUnit(o).value, t))
  {
  }

  /** The result stays within one half degree of the exact converted value. */
  lemma ConvertedWithinHalfDegree(o: Options, t: real)
    requires ConvertTemperature(o, t).Ok?
    ensures var n := ConvertTemperature(o, t).value;
      if o.celsius then Dist(n, FahrenheitToCelsius(t)) <= 0.5 else Dist(n, t) <= 0.5
  {
  }

  /** A warmer reading never displays as a colder temperature, in either unit. */
  lemma InUnitMonotonic(u: Unit, t: real, t': real)
    requires t <= t'
    ensures InUnit(u, t) <= InUnit(u, t')
  {
    match u
    case Celsius =>
      assert FahrenheitToCelsius(t) <= FahrenheitToCelsius(t');
      RoundMonotonic(FahrenheitToCelsius(t), FahrenheitToCelsius(t'));
    case Fahrenheit =>
      RoundMonotonic(t, t');
  }

  /** Exact readings with exact Celsius values: freezing, 50 degrees and boiling. */
  lemma CelsiusExamples()
    ensures InUnit(Celsius, 32.0) == 0
    ensures InUnit(Celsius, 50.0) == 10
    ensures InUnit(Celsius, 212.0) == 100
  {
    RoundOfInteger(0);
    RoundOfInteger(10);
    RoundOfInteger(100);
  }

  /** A whole-degree Fahrenheit reading is shown unchanged. */
  lemma FahrenheitWholeDegrees(n: int)
    ensures InUnit(Fahrenheit, n as real) == n
  {
    RoundOfInteger(n);
  }
}
