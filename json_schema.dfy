/** The fragment of draft-07 JSON Schema that the restriction compiler emits, with the `ajv-formats`
  * date keywords and the `ajv-errors` custom messages, and a reference evaluator for it over the
  * check payload. */
module JsonSchemas {
  import opened Wrappers
  import opened JsValues
  import opened IsoDates

  /** `{type: 'number', const, maximum, minimum, errorMessage}`. A keyword holding `Undefined` is absent
    * (Ajv skips keywords whose value is `undefined`); `constMessage` is `None` when `errorMessage` has
    * no `const` entry. */
  datatype NumberSchema = NumberSchema(
    constValue: Value, maximum: Value, minimum: Value,
    maxMessage: string, minMessage: string, constMessage: Option<string>)

  /** `{type: 'string', format: 'date', formatMaximum, formatMinimum, errorMessage}`. */
  datatype DateSchema = DateSchema(formatMaximum: Value, formatMinimum: Value, maxMessage: string, minMessage: string)

  /** `{type: 'object', properties: {is: {type: 'string', const}, temp: <number schema>}}`. */
  datatype WeatherSchema = WeatherSchema(isConst: Value, isMessage: string, temp: NumberSchema)

  /** The `properties` keyword: one optional sub-schema per payload key. */
  datatype Properties = Properties(age: Option<NumberSchema>, date: Option<DateSchema>, weather: Option<WeatherSchema>)

  /** The payload keys a `required` list can name. */
  datatype Field = AgeField | DateField | WeatherField

  /** An `allOf` or `anyOf` keyword: absent, or its list of sub-schemas. */
  datatype SchemaList = NoSchemas | Schemas(items: seq<Schema>)

  datatype Schema = Schema(
    objectType: bool,
    properties: Option<Properties>,
    required: Option<seq<Field>>,
    allOf: SchemaList,
    anyOf: SchemaList)

  /** The current weather as the weather service reports it. */
  datatype WeatherReport = WeatherReport(condition: string, temp: int)

  /** The payload validated against the schema: the current date, and the age and weather when known. */
  datatype Context = Context(date: Option<string>, age: Option<int>, weather: Option<WeatherReport>)

  /** One entry of Ajv's `errors` array. */
  datatype SchemaError = SchemaError(keyword: string, message: string)

  const ErrorMessageKeyword := "errorMessage"
  const ConstDefaultMessage := "must be equal to constant"
  const DateFormatMessage := "must match format \"date\""
  const AnyOfDefaultMessage := "must match a schema in anyOf"
  const AllOfDefaultMessage := "must match all schemas in allOf"

  function FieldName(f: Field): string {
    match f
    case AgeField => "age"
    case DateField => "date"
    case WeatherField => "weather"
  }

  function RequiredMessage(f: Field): string {
    "must have required property '" + FieldName(f) + "'"
  }

  predicate HasField(f: Field, ctx: Context) {
    match f
    case AgeField => ctx.age.Some?
    case DateField => ctx.date.Some?
    case WeatherField => ctx.weather.Some?
  }

  // ---------------------------------------------------------------------------------------------
  // Reference semantics: when a payload satisfies a schema (inclusive bounds, as JSON Schema's
  // `maximum`/`minimum` and ajv-formats' `formatMaximum`/`formatMinimum` are).

  predicate NumberHolds(s: NumberSchema, x: int) {
    (s.constValue != Undefined ==> s.constValue == Num(x)) &&
    (s.maximum.Num? ==> x <= s.maximum.n) &&
    (s.minimum.Num? ==> x >= s.minimum.n)
  }

  predicate DateHolds(s: DateSchema, d: string) {
    IsDate(d) &&
    (s.formatMaximum.Str? ==> OnOrAfter(s.formatMaximum.s, d)) &&
    (s.formatMinimum.Str? ==> OnOrAfter(d, s.formatMinimum.s))
  }

  predicate WeatherHolds(s: WeatherSchema, w: WeatherReport) {
    (s.isConst != Undefined ==> s.isConst == Str(w.condition)) && NumberHolds(s.temp, w.temp)
  }

  /** `properties` constrains only the keys the payload has. */
  predicate PropertiesHold(p: Properties, ctx: Context) {
    (p.age.Some? && ctx.age.Some? ==> NumberHolds(p.age.value, ctx.age.value)) &&
    (p.date.Some? && ctx.date.Some? ==> DateHolds(p.date.value, ctx.date.value)) &&
    (p.weather.Some? && ctx.weather.Some? ==> WeatherHolds(p.weather.value, ctx.weather.value))
  }

  predicate RequiredHolds(fields: seq<Field>, ctx: Context) {
    forall i :: 0 <= i < |fields| ==> HasField(fields[i], ctx)
  }

  /** Draft-07 satisfaction; the payload is always an object, so `type: 'object'` holds. */
  predicate Satisfies(s: Schema, ctx: Context)
    decreases s, 1
  {
    (s.properties.Some? ==> PropertiesHold(s.properties.value, ctx)) &&
    (s.required.Some? ==> RequiredHolds(s.required.value, ctx)) &&
    AllOfHolds(s.allOf, ctx) && AnyOfHolds(s.anyOf, ctx)
  }

  /** An absent `allOf` holds; a present one when every member does. */
  predicate AllOfHolds(l: SchemaList, ctx: Context)
    decreases l, 0
  {
    l.Schemas? ==> forall i :: 0 <= i < |l.items| ==> Satisfies(l.items[i], ctx)
  }

  /** An absent `anyOf` holds; a present one when some member does. */
  predicate AnyOfHolds(l: SchemaList, ctx: Context)
    decreases l, 0
  {
    l.Schemas? ==> exists i :: 0 <= i < |l.items| && Satisfies(l.items[i], ctx)
  }

  // ---------------------------------------------------------------------------------------------
  // Error reporting, as `validate.errors` with `allErrors: true` and ajv-errors: a keyword that has a
  // custom message is reported under the keyword `errorMessage` with that message, in the order of the
  // `errorMessage` object's keys.

  function NumberErrors(s: NumberSchema, x: int): seq<SchemaError> {
    (if s.maximum.Num? && x > s.maximum.n then [SchemaError(ErrorMessageKeyword, s.maxMessage)] else []) +
    (if s.minimum.Num? && x < s.minimum.n then [SchemaError(ErrorMessageKeyword, s.minMessage)] else []) +
    (if s.constValue != Undefined && s.constValue != Num(x) then
       match s.constMessage
       case Some(m) => [SchemaError(ErrorMessageKeyword, m)]
       case None => [SchemaError("const", ConstDefaultMessage)]
     else [])
  }

  /** A string that is not a date fails `format` and is not compared with the bounds. */
  function DateErrors(s: DateSchema, d: string): seq<SchemaError> {
    if !IsDate(d) then [SchemaError("format", DateFormatMessage)]
    else
      (if s.formatMaximum.Str? && !OnOrAfter(s.formatMaximum.s, d) then [SchemaError(ErrorMessageKeyword, s.maxMessage)] else []) +
      (if s.formatMinimum.Str? && !OnOrAfter(d, s.formatMinimum.s) then [SchemaError(ErrorMessageKeyword, s.minMessage)] else [])
  }

  function WeatherErrors(s: WeatherSchema, w: WeatherReport): seq<SchemaError> {
    (if s.isConst != Undefined && s.isConst != Str(w.condition) then [SchemaError(ErrorMessageKeyword, s.isMessage)] else []) +
    NumberErrors(s.temp, w.temp)
  }

  function PropertiesErrors(p: Properties, ctx: Context): seq<SchemaError> {
    (if p.age.Some? && ctx.age.Some? then NumberErrors(p.age.value, ctx.age.value) else []) +
    (if p.date.Some? && ctx.date.Some? then DateErrors(p.date.value, ctx.date.value) else []) +
    (if p.weather.Some? && ctx.weather.Some? then WeatherErrors(p.weather.value, ctx.weather.value) else [])
  }

  /** One error per missing entry of the `required` list, in list order. */
  function RequiredErrors(fields: seq<Field>, ctx: Context): (errs: seq<SchemaError>)
    ensures errs == [] <==> RequiredHolds(fields, ctx)
    ensures |errs| <= |fields|
  {
    if fields == [] then []
    else
      (if HasField(fields[0], ctx) then [] else [SchemaError("required", RequiredMessage(fields[0]))]) +
      RequiredErrors(fields[1..], ctx)
  }

  /** The errors a payload raises: a failed `anyOf` or `allOf` is reported once, under its own keyword
    * and without the failures of its members; then the `required` and the `properties` failures. */
  function Errors(s: Schema, ctx: Context): seq<SchemaError>
    decreases s
  {
    (if s.anyOf.Schemas? && forall i :: 0 <= i < |s.anyOf.items| ==> Errors(s.anyOf.items[i], ctx) != []
     then [SchemaError("anyOf", AnyOfDefaultMessage)] else []) +
    (if s.allOf.Schemas? && exists i :: 0 <= i < |s.allOf.items| && Errors(s.allOf.items[i], ctx) != []
     then [SchemaError("allOf", AllOfDefaultMessage)] else []) +
    (if s.required.Some? then RequiredErrors(s.required.value, ctx) else []) +
    (if s.properties.Some? then PropertiesErrors(s.properties.value, ctx) else [])
  }

  lemma NumberErrorsEmpty(s: NumberSchema, x: int)
    ensures NumberErrors(s, x) == [] <==> NumberHolds(s, x)
  {
  }

  lemma PropertiesErrorsEmpty(p: Properties, ctx: Context)
    ensures PropertiesErrors(p, ctx) == [] <==> PropertiesHold(p, ctx)
  {
    if p.age.Some? && ctx.age.Some? {
      NumberErrorsEmpty(p.age.value, ctx.age.value);
    }
    if p.weather.Some? && ctx.weather.Some? {
      NumberErrorsEmpty(p.weather.value.temp, ctx.weather.value.temp);
    }
  }

  /** The evaluator reports no error exactly when the payload satisfies the schema. */
  lemma {:induction false} ErrorsEmptyIff(s: Schema, ctx: Context)
    ensures Errors(s, ctx) == [] <==> Satisfies(s, ctx)
    decreases s
  {
    if s.anyOf.Schemas? {
      forall i | 0 <= i < |s.anyOf.items| {
        ErrorsEmptyIff(s.anyOf.items[i], ctx);
      }
    }
    if s.allOf.Schemas? {
      forall i | 0 <= i < |s.allOf.items| {
        ErrorsEmptyIff(s.allOf.items[i], ctx);
      }
    }
    if s.properties.Some? {
      PropertiesErrorsEmpty(s.properties.value, ctx);
    }
  }

  // ---------------------------------------------------------------------------------------------
  // Schemas Ajv compiles: `maximum`/`minimum` must be numbers and `formatMaximum`/`formatMinimum`
  // strings, and a `required` list may not repeat a key (draft-07 gives it `uniqueItems`), or
  // `ajv.compile` throws.

  predicate NoRepeats(fields: seq<Field>) {
    forall i, j :: 0 <= i < j < |fields| ==> fields[i] != fields[j]
  }

  predicate NumberWellFormed(s: NumberSchema) {
    !s.maximum.Str? && !s.minimum.Str?
  }

  predicate DateWellFormed(s: DateSchema) {
    !s.formatMaximum.Num? && !s.formatMinimum.Num?
  }

  predicate PropertiesWellFormed(p: Properties) {
    (p.age.Some? ==> NumberWellFormed(p.age.value)) &&
    (p.date.Some? ==> DateWellFormed(p.date.value)) &&
    (p.weather.Some? ==> NumberWellFormed(p.weather.value.temp))
  }

  predicate WellFormed(s: Schema)
    decreases s
  {
    (s.properties.Some? ==> PropertiesWellFormed(s.properties.value)) &&
    (s.required.Some? ==> NoRepeats(s.required.value)) &&
    (s.allOf.Schemas? ==> forall i :: 0 <= i < |s.allOf.items| ==> WellFormed(s.allOf.items[i])) &&
    (s.anyOf.Schemas? ==> forall i :: 0 <= i < |s.anyOf.items| ==> WellFormed(s.anyOf.items[i]))
  }
}
