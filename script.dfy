/** The script's top level: options, then the forecast's temperature and icon, then the
    glyphs, then the printed line. The location lookup and the forecast request are
    network calls; their results enter as the parameters `temperature` and `icon`. */
module Script {
  import opened Wrappers
  import opened WeatherOptions
  import opened Rounding
  import opened Conversion
  import opened Glyphs
  import opened Decimal
  import opened Output

  /** From parsed options and the current conditions to the printed line or the raised error. */
  function Run(parsed: Options, temperature: real, icon: string): (r: Result<string, Error>)
    ensures r.Ok? <==> HasApiKey(parsed) && SelectedUnit(parsed).Some?
  {
    var options :- Validate(parsed);
    var temp :- ConvertTemperature(options, temperature);
    match HexCodes(options, icon)
    case Err(e) => Err(e)
    case Ok((degreesHex, iconHex)) => Ok(Line(iconHex, IntToString(temp), degreesHex))
  }

  /** Which error ends the run: the key, then the flag pair, then the missing unit. */
  lemma RunErrors(o: Options, temperature: real, icon: string)
    ensures !HasApiKey(o) ==> Run(o, temperature, icon) == Err(MissingApiKey)
    ensures HasApiKey(o) && o.farenheit && o.celsius ==>
      Run(o, temperature, icon) == Err(ConflictingUnits)
    ensures HasApiKey(o) && !o.farenheit && !o.celsius ==>
      Run(o, temperature, icon) == Err(MissingUnit)
  {
  }

  /** The printed line shows the condition glyph, then the temperature in the selected unit,
      then that same unit's glyph. */
  lemma RunOutput(o: Options, temperature: real, icon: string)
    requires HasApiKey(o) && SelectedUnit(o).Some?
    ensures var u := SelectedUnit(o).value;
      Run(o, temperature, icon)
        == Ok(Line(ConditionGlyph(icon), IntToString(InUnit(u, temperature)), UnitHex(u)))
  {
    ConvertsToSelectedUnit(o, temperature);
    UnitGlyphOfSelectedUnit(o);
  }

  /** A printed line gives back the condition glyph, the temperature and the unit glyph. */
  lemma RunOutputReadsBack(o: Options, temperature: real, icon: string)
    requires Run(o, temperature, icon).Ok?
    ensures var u := SelectedUnit(o).value;
      && SelectedUnit(o).Some?
      && Unformat(Run(o, temperature, icon).value)
        == Some((ConditionGlyph(icon), IntToString(InUnit(u, temperature)), UnitHex(u)))
  {
    RunOutput(o, temperature, icon);
    var u := SelectedUnit(o).value;
    UnformatLine(ConditionGlyph(icon), IntToString(InUnit(u, temperature)), UnitHex(u));
  }

  /** The two dispatches test the flags in opposite orders; without the check in
      `get_options`, both flags would print a Celsius value beside the Fahrenheit glyph. */
  lemma BothFlagsWouldMismatch(o: Options, temperature: real, icon: string)
    requires o.farenheit && o.celsius
    ensures ConvertTemperature(o, temperature) == Ok(InUnit(Celsius, temperature))
    ensures HexCodes(o, icon).Ok? && HexCodes(o, icon).value.0 == FahrenheitHex
    ensures FahrenheitHex != UnitHex(Celsius)
  {
  }

  /** With a unit selected, the temperature and the glyph always name the same unit. */
  lemma UnitsAgree(o: Options, temperature: real, icon: string)
    requires Validate(o).Ok? && SelectedUnit(o).Some?
    ensures var u := SelectedUnit(o).value;
      && ConvertTemperature(o, temperature) == Ok(InUnit(u, temperature))
      && HexCodes(o, icon) == Ok((UnitHex(u), ConditionGlyph(icon)))
  {
    ConvertsToSelectedUnit(o, temperature);
    UnitGlyphOfSelectedUnit(o);
  }

  /** The worked example: rain at 50 degrees Fahrenheit, shown in Celsius. */
  lemma RainInCelsiusExample()
    ensures Run(Options(false, true, Some("key")), 50.0, "rain")
      == Ok("<span font='Weather Icons'>&#xf019;</span> <span>10</span>"
            + "<span font='Weather Icons'>&#xf03c;</span>")
  {
    var o := Options(false, true, Some("key"));
    CelsiusExamples();
    assert ConvertTemperature(o, 50.0) == Ok(10);
    assert IntToString(10) == [DigitChar(1)] + [DigitChar(0)] == "10";
    assert HexCodes(o, "rain") == Ok(("f03c", "f019"));
    assert Run(o, 50.0, "rain") == Ok(Line("f019", "10", "f03c"));
    assert GlyphSpan("f019") == "<span font='Weather Icons'>&#xf019;</span>";
    assert GlyphSpan("f03c") == "<span font='Weather Icons'>&#xf03c;</span>";
    assert GlyphSpan("f019") + TempOpen + "10" + TempClose
      == "<span font='Weather Icons'>&#xf019;</span> <span>10</span>";
  }

  /** An unknown condition code is shown with the default glyph in either unit. */
  lemma UnknownConditionExample(o: Options, temperature: real)
    requires HasApiKey(o) && SelectedUnit(o).Some?
    ensures Unformat(Run(o, temperature, "blizzard-vortex").value).Some?
    ensures Unformat(Run(o, temperature, "blizzard-vortex").value).value.0 == DefaultGlyph
  {
    RunOutputReadsBack(o, temperature, "blizzard-vortex");
  }
}
