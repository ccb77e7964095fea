/** `get_hex_codes`: the Weather Icons code points for the unit and the condition. */
module Glyphs {
  import opened Wrappers
  import opened WeatherOptions

  const FahrenheitHex: string := "f045"
  const CelsiusHex: string := "f03c"

  /** The glyph shown for a condition the table does not list. */
  const DefaultGlyph: string := "f07b"

  /** The condition table as a mapping from the provider's icon names to code points. */
  const ConditionGlyphs: map<string, string> := map[
    "clear-day" := "f00d",
    "clear-night" := "f02e",
    "rain" := "f019",
    "snow" := "f01b",
    "sleet" := "f0b5",
    "wind" := "f050",
    "fog" := "f014",
    "cloudy" := "f013",
    "partly-cloudy-day" := "f002",
    "partly-cloudy-night" := "f083",
    "thunderstorm" := "f016",
    "hail" := "f015",
    "tornado" := "f056"
  ]

  predicate IsLowerHexDigit(c: char)
  {
    '0' <= c <= '9' || 'a' <= c <= 'f'
  }

  /** A code point written as the four lower-case hexadecimal digits `&#x...;` expects. */
  predicate IsGlyphCode(s: string)
  {
    |s| == 4 && forall i :: 0 <= i < |s| ==> IsLowerHexDigit(s[i])
  }

  /** The unit half of `get_hex_codes`: `farenheit` is tested before `celsius`. */
  function UnitGlyph(o: Options): (r: Result<string, Error>)
    ensures r.Err? <==> !o.farenheit && !o.celsius
    ensures r.Err? ==> r.error == MissingUnit
    ensures o.farenheit ==> r == Ok(FahrenheitHex)
    ensures !o.farenheit && o.celsius ==> r == Ok(CelsiusHex)
    ensures r.Ok? ==> IsGlyphCode(r.value)
  {
    if o.farenheit then Ok(FahrenheitHex)
    else if o.celsius then Ok(CelsiusHex)
    else Err(MissingUnit)
  }

  /** The glyph of a selected unit. */
  function UnitHex(u: Unit): (hex: string)
    ensures IsGlyphCode(hex)
    ensures hex == FahrenheitHex <==> u == Fahrenheit
    ensures hex == CelsiusHex <==> u == Celsius
  {
    match u
    case Fahrenheit => FahrenheitHex
    case Celsius => CelsiusHex
  }

  /** The if/elif chain over the condition string. */
  function ConditionGlyph(icon: string): (g: string)
    ensures IsGlyphCode(g)
  {
    if icon == "clear-day" then "f00d"
    else if icon == "clear-night" then "f02e"
    else if icon == "rain" then "f019"
    else if icon == "snow" then "f01b"
    else if icon == "sleet" then "f0b5"
    else if icon == "wind" then "f050"
    else if icon == "fog" then "f014"
    else if icon == "cloudy" then "f013"
    else if icon == "partly-cloudy-day" then "f002"
    else if icon == "partly-cloudy-night" then "f083"
    else if icon == "thunderstorm" then "f016"
    else if icon == "hail" then "f015"
    else if icon == "tornado" then "f056"
    else "f07b"
  }

  /** `get_hex_codes` as a whole: the pair (unit glyph, condition glyph), or the unit error. */
  function HexCodes(o: Options, icon: string): (r: Result<(string, string), Error>)
    ensures r.Err? <==> !o.farenheit && !o.celsius
    ensures r.Err? ==> r.error == MissingUnit
    ensures r.Ok? ==> Ok(r.value.0) == UnitGlyph(o) && r.value.1 == ConditionGlyph(icon)
  {
    var degreesHex :- UnitGlyph(o);
    Ok((degreesHex, ConditionGlyph(icon)))
  }

  /** The chain agrees with the table: a listed name gets its entry, any other the default. */
  lemma ConditionGlyphMatchesTable(icon: string)
    ensures icon in ConditionGlyphs ==> ConditionGlyph(icon) == ConditionGlyphs[icon]
    ensures icon !in ConditionGlyphs ==> ConditionGlyph(icon) == DefaultGlyph
  {
  }

  /** Every glyph of the table is a well-formed code point, distinct from the default. */
  lemma TableGlyphsWellFormed()
    ensures forall k :: k in ConditionGlyphs ==> IsGlyphCode(ConditionGlyphs[k])
    ensures DefaultGlyph !in ConditionGlyphs.Values
    ensures IsGlyphCode(DefaultGlyph) && IsGlyphCode(FahrenheitHex) && IsGlyphCode(CelsiusHex)
  {
  }

  /** The default glyph is shown exactly when the condition is not in the table. */
  lemma DefaultIffUnknown(icon: string)
    ensures ConditionGlyph(icon) == DefaultGlyph <==> icon !in ConditionGlyphs
  {
    ConditionGlyphMatchesTable(icon);
    TableGlyphsWellFormed();
    if icon in ConditionGlyphs {
      assert ConditionGlyphs[icon] in ConditionGlyphs.Values;
    }
  }

  /** Different listed conditions are shown with different glyphs. */
  lemma ConditionGlyphInjective(a: string, b: string)
    requires a in ConditionGlyphs && b in ConditionGlyphs
    requires ConditionGlyph(a) == ConditionGlyph(b)
    ensures a == b
  {
  }

  /** The two unit glyphs differ from each other and from every condition glyph. */
  lemma UnitGlyphsDistinct(icon: string)
    ensures FahrenheitHex != CelsiusHex
    ensures ConditionGlyph(icon) != FahrenheitHex && ConditionGlyph(icon) != CelsiusHex
  {
  }

  /** On options with at most one flag the unit glyph is that of the selected unit. */
  lemma UnitGlyphOfSelectedUnit(o: Options)
    requires !(o.farenheit && o.celsius)
    ensures UnitGlyph(o).Ok? <==> SelectedUnit(o).Some?
    ensures SelectedUnit(o).Some? ==> UnitGlyph(o) == Ok(UnitHex(SelectedUnit(o).value))
  {
  }

  /** The condition glyph does not depend on the unit flags. */
  lemma ConditionIndependentOfUnit(o1: Options, o2: Options, icon: string)
    requires HexCodes(o1, icon).Ok? && HexCodes(o2, icon).Ok?
    ensures HexCodes(o1, icon).value.1 == HexCodes(o2, icon).value.1
  {
  }
}
