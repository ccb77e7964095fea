/** The command-line options after parsing, and the checks `get_options` makes on them. */
module WeatherOptions {
  import opened Wrappers

  /** The record `optparse` builds: two store-true unit flags and an optional key. */
  datatype Options = Options(farenheit: bool, celsius: bool, apiKey: Option<string>)

  /** Every `RuntimeError` the script raises on its own account. */
  datatype Error = MissingApiKey | ConflictingUnits | MissingUnit

  /** The unit a user can ask for. */
  datatype Unit = Fahrenheit | Celsius

  /** The text each error is raised with; `ErrorOfMessage` recovers the error from it. */
  function Message(e: Error): (m: string)
    ensures ErrorOfMessage(m) == Some(e)
  {
    match e
    case MissingApiKey => "A Dark Sky API key is required. Go to darksky.net/dev"
    case ConflictingUnits => "Only one degree unit may be specified"
    case MissingUnit => "A degree unit must be specified"
  }

  /** Which error a raised message names, if any. */
  function ErrorOfMessage(m: string): Option<Error>
  {
    if m == "A Dark Sky API key is required. Go to darksky.net/dev" then Some(MissingApiKey)
    else if m == "Only one degree unit may be specified" then Some(ConflictingUnits)
    else if m == "A degree unit must be specified" then Some(MissingUnit)
    else None
  }

  /** Python truthiness of `options.api_key`: neither `None` nor the empty string. */
  predicate HasApiKey(o: Options)
    ensures o.apiKey == None ==> !HasApiKey(o)
    ensures o.apiKey == Some("") ==> !HasApiKey(o)
    ensures HasApiKey(o) <==> o.apiKey.Some? && |o.apiKey.value| > 0
  {
    o.apiKey.Some? && o.apiKey.value != ""
  }

  /** The unit the user selected, when exactly one flag is set. */
  function SelectedUnit(o: Options): (u: Option<Unit>)
    ensures u == Some(Fahrenheit) <==> o.farenheit && !o.celsius
    ensures u == Some(Celsius) <==> o.celsius && !o.farenheit
    ensures u == None <==> o.farenheit == o.celsius
  {
    if o.farenheit && !o.celsius then Some(Fahrenheit)
    else if o.celsius && !o.farenheit then Some(Celsius)
    else None
  }

  /** The checks at the end of `get_options`: the key first, then the pair of unit flags. */
  function Validate(o: Options): (r: Result<Options, Error>)
    ensures r.Ok? <==> HasApiKey(o) && !(o.farenheit && o.celsius)
    ensures r.Ok? ==> r.value == o
    ensures !HasApiKey(o) ==> r == Err(MissingApiKey)
    ensures HasApiKey(o) && o.farenheit && o.celsius ==> r == Err(ConflictingUnits)
  {
    if !HasApiKey(o) then Err(MissingApiKey)
    else if o.farenheit && o.celsius then Err(ConflictingUnits)
    else Ok(o)
  }

  /** Validation lets options with no unit flag through; the unit check comes later. */
  lemma NoUnitPassesValidation(o: Options)
    requires HasApiKey(o) && !o.farenheit && !o.celsius
    ensures Validate(o) == Ok(o)
    ensures SelectedUnit(o) == None
  {
  }

  /** Options that pass validation select at most one unit. */
  lemma ValidatedSelectsAtMostOne(o: Options)
    requires Validate(o).Ok?
    ensures SelectedUnit(o).Some? <==> (o.farenheit || o.celsius)
  {
  }
}
