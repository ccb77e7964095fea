# i3blocks-weather: the display pipeline

A model of `i3blocks-weather.py`, an i3blocks status-bar helper that shows the current
weather. The script reads three options from the command line: `-f` for Fahrenheit, `-c`
for Celsius and `-k` for a Dark Sky API key. It gets the current temperature and the
condition icon name from the forecast service. It converts and rounds the temperature,
looks up Weather Icons code points for the condition and the unit, and prints one line of
Pango markup:

    <span font='Weather Icons'>&#x{condition};</span> <span>{temp}</span><span font='Weather Icons'>&#x{unit};</span>

Modules, in pipeline order:

- `Wrappers` (`wrappers.dfy`): `Option` and a failure-compatible `Result`.
- `WeatherOptions` (`options.dfy`): the parsed options record, the script's three errors
  and their messages, and the checks `get_options` makes.
- `Rounding` (`rounding.dfy`): Python 3 `round(x)` on exact reals. It returns the nearest
  integer, and a tie goes to the even neighbour.
- `Conversion` (`conversion.dfy`): the unit branch of `get_forecast`.
- `Glyphs` (`glyphs.dfy`): `get_hex_codes`, the unit constants and the condition table,
  given twice. `ConditionGlyph` is the if/elif chain. `ConditionGlyphs` is a map
  written separately, and a lemma proves the two agree.
- `Decimal` (`decimal.dfy`): Python `str` of an integer. This is what the `{1}` field of
  the format prints. `ParseInt` is its inverse.
- `Output` (`output.dfy`): the line built at lines 106-107. `Unformat` is its inverse.
- `Script` (`script.dfy`): the top level as one function, `Run`. It takes the parsed
  options and the forecast's temperature and icon. It returns the printed line or the
  raised error.

## Notes on the source

- `get_options` (lines 21-27) does not reject options with no unit flag. It rejects only
  a missing or empty key and, after that, both flags set together. The missing-unit error
  is raised at line 51, in `get_forecast`. `NoUnitPassesValidation` and `RunErrors` state
  this.
- This revision builds a line of three spans and prints the rounded integer temperature
  (lines 106-107).
- There is no precision option, no address option and no click handling.
- The comment on line 45 says Fahrenheit is the default, but lines 50-51 raise when
  neither flag is set.

## Model

| member | source | states |
|---|---|---|
| WeatherOptions.Validate | i3blocks-weather.py:21-27 | validation passes iff the key is present and non-empty and the two unit flags are not both set; a missing/empty key is reported before a flag clash; on success the options come back unchanged |
| WeatherOptions.NoUnitPassesValidation | i3blocks-weather.py:21-27 | options with a key and neither unit flag are accepted unchanged, and select no unit |
| WeatherOptions.ValidatedSelectsAtMostOne | i3blocks-weather.py:24-25 | after validation, a unit is selected exactly when some unit flag is set |
| WeatherOptions.HasApiKey | i3blocks-weather.py:22 | Python truthiness of the key: false for `None` and for the empty string, true iff a non-empty key is given |
| WeatherOptions.Message | i3blocks-weather.py:23-72 | each of the three errors is raised with its own text (lines 23, 25, 51 and 72), and the error can be recovered from that text |
| Rounding.Round | i3blocks-weather.py:47-49 | the result is strictly the nearest integer, or, at a distance of exactly one half, the even neighbour |
| Rounding.RoundIsNearest | i3blocks-weather.py:47-49 | no integer is closer to x than Round(x) |
| Rounding.RoundUnique | i3blocks-weather.py:47-49 | any integer meeting the half-to-even rule for x is Round(x), so the rule defines the rounding completely |
| Rounding.RoundOfInteger | i3blocks-weather.py:47-49 | an integral value rounds to itself |
| Rounding.RoundMonotonic | i3blocks-weather.py:47-49 | x <= y implies Round(x) <= Round(y) |
| Conversion.FahrenheitToCelsius | i3blocks-weather.py:47 | the exact Celsius value of line 47, before rounding, is the one that converts back (c*9/5+32) to the Fahrenheit reading; 32 F is 0 C |
| Conversion.InUnit | i3blocks-weather.py:46-49 | the displayed value is within one half of the reading in Fahrenheit, or within one half of (t-32)*5/9 in Celsius |
| Conversion.ConvertTemperature | i3blocks-weather.py:45-51 | fails with the missing-unit error iff neither flag is set; `celsius` wins when set (the Celsius value), otherwise `farenheit` gives the rounded reading |
| Conversion.ConvertsToSelectedUnit | i3blocks-weather.py:45-51 | on options without both flags, conversion succeeds iff a unit is selected, and then converts to exactly that unit |
| Conversion.ConvertedWithinHalfDegree | i3blocks-weather.py:47-49 | a successful conversion is within half a degree of the exact value in the unit it chose |
| Conversion.InUnitMonotonic | i3blocks-weather.py:47-49 | a warmer reading never shows a lower number, in either unit |
| Conversion.CelsiusExamples | i3blocks-weather.py:47 | 32 F shows 0, 50 F shows 10, 212 F shows 100 in Celsius |
| Conversion.FahrenheitWholeDegrees | i3blocks-weather.py:49 | a whole-degree Fahrenheit reading is shown unchanged |
| Glyphs.UnitGlyph | i3blocks-weather.py:63-72 | `farenheit` gives f045, else `celsius` gives f03c, and neither flag is the missing-unit error; every result is a 4-digit lower-case hex code |
| Glyphs.ConditionGlyph | i3blocks-weather.py:74-101 | total: every string maps to a 4-digit lower-case hex code |
| Glyphs.HexCodes | i3blocks-weather.py:66-102 | fails iff neither unit flag is set, and only with the missing-unit error; on success returns the pair (unit glyph, condition glyph) |
| Glyphs.ConditionGlyphMatchesTable | i3blocks-weather.py:74-101 | each of the 13 listed names gets exactly its table glyph; every other string gets f07b |
| Glyphs.TableGlyphsWellFormed | i3blocks-weather.py:63-101 | all table glyphs, the default and both unit constants are 4-digit lower-case hex codes; the default f07b is not a table glyph |
| Glyphs.DefaultIffUnknown | i3blocks-weather.py:100-101 | the default glyph is returned iff the condition is not in the table |
| Glyphs.ConditionGlyphInjective | i3blocks-weather.py:74-99 | two listed conditions with the same glyph are the same condition |
| Glyphs.UnitGlyphsDistinct | i3blocks-weather.py:63-101 | the two unit glyphs differ from each other and from every condition glyph |
| Glyphs.UnitGlyphOfSelectedUnit | i3blocks-weather.py:66-72 | on options without both flags, the unit glyph exists iff a unit is selected and is that unit's glyph |
| Glyphs.UnitHex | i3blocks-weather.py:63-64 | the glyph of a unit is a 4-digit lower-case hex code: f045 exactly for Fahrenheit, f03c exactly for Celsius |
| Glyphs.ConditionIndependentOfUnit | i3blocks-weather.py:66-102 | the condition glyph is the same whatever unit flags are set |
| Decimal.NatToString | i3blocks-weather.py:106 | a natural number prints as a non-empty digit string with no leading zero |
| Decimal.IntToString | i3blocks-weather.py:106 | the printed form begins with '-' iff the number is negative; the rest is canonical digits |
| Decimal.NatToStringRoundTrip | i3blocks-weather.py:106 | reading the printed digits back gives the number |
| Decimal.IntToStringRoundTrip | i3blocks-weather.py:106 | parsing the printed integer gives the integer |
| Decimal.IntToStringInjective | i3blocks-weather.py:106 | distinct temperatures print differently |
| Decimal.IntToStringCharacters | i3blocks-weather.py:106 | the printed temperature contains only digits and a leading minus sign, so no markup |
| Output.GlyphSpan | i3blocks-weather.py:106-107 | a glyph span is the icon-font span opening, then the glyph code, then `;</span>` |
| Output.Line | i3blocks-weather.py:106-107 | exactly the string joined at lines 106-107: the condition glyph span and ` <span>`, then the temperature, then `</span>` and the unit glyph span |
| Output.UnformatLine | i3blocks-weather.py:106-107 | from a line with 4-character glyphs, the condition glyph, the temperature and the unit glyph are read back exactly, in that order |
| Output.UnformatSound | i3blocks-weather.py:106-107 | every string Unformat accepts is the line built from the fields it returns |
| Output.LineInjective | i3blocks-weather.py:106-107 | two lines with 4-character glyphs are equal only if the three fields are equal |
| Script.Run | i3blocks-weather.py:57-107 | runs option validation, the unit branch of `get_forecast`, `get_hex_codes` and the output line, in the script's order; a line is produced iff the key is present and non-empty and exactly one unit flag is set |
| Script.RunErrors | i3blocks-weather.py:57-107 | a missing key is reported first, then both flags, then the missing unit that `get_forecast` raises |
| Script.RunOutput | i3blocks-weather.py:57-107 | the line is the condition glyph, then the temperature converted to the selected unit and printed, then that unit's glyph |
| Script.RunOutputReadsBack | i3blocks-weather.py:57-107 | those three fields can be read back from any printed line |
| Script.BothFlagsWouldMismatch | i3blocks-weather.py:46-70 | with both flags set, conversion picks Celsius while the glyph lookup picks Fahrenheit; this is why the check at line 24 is needed |
| Script.UnitsAgree | i3blocks-weather.py:46-70 | for validated options with a selected unit, the temperature and the unit glyph name the same unit |
| Script.RainInCelsiusExample | i3blocks-weather.py:57-107 | rain at 50 F in Celsius prints `<span font='Weather Icons'>&#xf019;</span> <span>10</span><span font='Weather Icons'>&#xf03c;</span>` |
| Script.UnknownConditionExample | i3blocks-weather.py:100-107 | the unknown condition "blizzard-vortex" shows the default glyph in either unit |

## Left out

- Location lookup (`get_lat_lon`, lines 29-38): an HTTP request and JSON decoding. Its
  result, a latitude and longitude, is only passed on to the forecast service.
- The forecast request (`forecastio.load_forecast` and `currently()`, lines 41-43 and 53):
  a call into an external service. Its temperature and icon name are parameters of `Run`
  and `ConvertTemperature`.
- Flag parsing with `optparse` (lines 8-19): a library. The model starts from the
  `Options` record that parsing produces.
- Script.Run: in the script, `get_lat_lon` (line 59) and `load_forecast` (line 41) both
  run before the missing-unit error at line 51. `Run` takes their results as parameters,
  so it says nothing about that order.
- Rounding.Round: uses exact real arithmetic, so it does not model the float error in
  `(t - 32) * 5/9` or in the reading itself. It models Python 3's `round`; Python 2's
  `round` breaks ties away from zero and returns a float, which prints as `10.0`.
- Conversion.ConvertTemperature: follows Python 3 throughout, including true division
  for `/` at line 47. Under Python 2 with an integer reading, `(t - 32) * 5/9` would
  divide as integers and round down first: t = 51 gives 10, where the model gives 11.
- Printing (line 108) and the error trace: `Run` returns the line or the error, and
  `WeatherOptions.Message` keeps the text each error is raised with.
