/** weather-rule.ts: the current weather condition and a temperature rule. */
module WeatherRules {
  import opened Wrappers
  import opened JsValues
  import Rules

  /** The string enum of weather conditions, as the weather service reports them. */
  datatype Weather =
    | Thunderstorm | Drizzle | Rain | Snow | Mist | Smoke | Haze | Dust
    | Fog | Sand | Ash | Squall | Tornado | Clear | Clouds

  /** The enum member's string value. */
  function Name(w: Weather): string {
    match w
    case Thunderstorm => "Thunderstorm"
    case Drizzle => "Drizzle"
    case Rain => "Rain"
    case Snow => "Snow"
    case Mist => "Mist"
    case Smoke => "Smoke"
    case Haze => "Haze"
    case Dust => "Dust"
    case Fog => "Fog"
    case Sand => "Sand"
    case Ash => "Ash"
    case Squall => "Squall"
    case Tornado => "Tornado"
    case Clear => "Clear"
    case Clouds => "Clouds"
  }

  /** The enum member whose string value is `s`, if any. */
  function Parse(s: string): (r: Option<Weather>)
    ensures r.Some? ==> Name(r.value) == s
  {
    if s == "Thunderstorm" then Some(Thunderstorm)
    else if s == "Drizzle" then Some(Drizzle)
    else if s == "Rain" then Some(Rain)
    else if s == "Snow" then Some(Snow)
    else if s == "Mist" then Some(Mist)
    else if s == "Smoke" then Some(Smoke)
    else if s == "Haze" then Some(Haze)
    else if s == "Dust" then Some(Dust)
    else if s == "Fog" then Some(Fog)
    else if s == "Sand" then Some(Sand)
    else if s == "Ash" then Some(Ash)
    else if s == "Squall" then Some(Squall)
    else if s == "Tornado" then Some(Tornado)
    else if s == "Clear" then Some(Clear)
    else if s == "Clouds" then Some(Clouds)
    else None
  }

  /** Every member is found again from its string value, so the fifteen strings are distinct. */
  lemma ParseName(w: Weather)
    ensures Parse(Name(w)) == Some(w)
  {
  }

  /** What `@IsEnum(Weather)` accepts. */
  predicate IsWeather(v: Value) {
    v.Str? && Parse(v.s).Some?
  }

  /** The `temp` field: missing, an object validated as a rule, or something that is not an object. */
  datatype TempField = NoTemp | RuleTemp(rule: Rules.Rule) | NotARule

  /** `condition` is the source's `is` field (a reserved word in Dafny). */
  datatype WeatherRule = WeatherRule(temp: TempField, condition: Value)

  const TempRequiredMessage := "Temp is required"
  const TempInvalidMessage := "Temp must be a valid rule"
  const IsEnumMessage := "Is must be a valid enum"
  const IsRequiredMessage := "Is is required"

  /** `@IsDefined` then `@ValidateNested` on `temp`: a nested rule reports its own decorator messages. */
  function TempErrors(t: TempField): seq<string> {
    match t
    case NoTemp => [TempRequiredMessage]
    case NotARule => [TempInvalidMessage]
    case RuleTemp(rule) => Rules.FieldErrors(rule)
  }

  /** `@IsDefined` twice on `is`, which share one constraint name, so a missing value is reported once,
    * with the custom message; then `@IsEnum` once it is present. */
  function IsErrors(v: Value): seq<string> {
    if v == Undefined then [IsRequiredMessage]
    else if IsWeather(v) then []
    else [IsEnumMessage]
  }

  function FieldErrors(w: WeatherRule): seq<string> {
    TempErrors(w.temp) + IsErrors(w.condition)
  }

  /** Which of the weather rule's own messages the `temp` checks raise. */
  lemma TempMessages(t: TempField)
    ensures TempRequiredMessage in TempErrors(t) <==> t == NoTemp
    ensures TempInvalidMessage in TempErrors(t) <==> t == NotARule
    ensures IsRequiredMessage !in TempErrors(t) && IsEnumMessage !in TempErrors(t)
  {
  }

  /** Which of the weather rule's own messages the `is` checks raise. */
  lemma IsMessages(v: Value)
    ensures IsRequiredMessage in IsErrors(v) <==> v == Undefined
    ensures IsEnumMessage in IsErrors(v) <==> v != Undefined && !IsWeather(v)
    ensures TempRequiredMessage !in IsErrors(v) && TempInvalidMessage !in IsErrors(v)
  {
  }

  /** `new WeatherRule({temp, is})`: no custom check beyond the decorators. */
  function NewWeatherRule(temp: TempField, condition: Value): (r: Result<WeatherRule>)
    ensures r.Ok? ==> r.value == WeatherRule(temp, condition)
    ensures r.Ok? <==> temp.RuleTemp? && Rules.FieldErrors(temp.rule) == [] && IsWeather(condition)
    ensures TempRequiredMessage in Messages(r) <==> temp == NoTemp
    ensures TempInvalidMessage in Messages(r) <==> temp == NotARule
    ensures IsRequiredMessage in Messages(r) <==> condition == Undefined
    ensures IsEnumMessage in Messages(r) <==> condition != Undefined && !IsWeather(condition)
  {
    TempMessages(temp);
    IsMessages(condition);
    Validated(WeatherRule(temp, condition), FieldErrors(WeatherRule(temp, condition)))
  }

  /** A weather rule built from an accepted temperature rule and an enum member is accepted. */
  lemma AcceptsEnumWithRule(w: Weather, gt: Value, lt: Value, eq: Value)
    requires Rules.NewRule(gt, lt, eq).Ok?
    ensures NewWeatherRule(RuleTemp(Rules.Rule(gt, lt, eq)), Str(Name(w))).Ok?
  {
    ParseName(w);
  }
}
