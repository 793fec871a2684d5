/** ajv-restriction.ts: the compiler from a promo code's restriction tree to a JSON schema. */
module AjvRestrictions {
  import opened Wrappers
  import opened JsValues
  import opened Rules
  import opened DateRules
  import opened WeatherRules
  import opened Restrictions
  import opened JsonSchemas

  /** `convertAgeRestriction`: `eq`, `lt` and `gt` become `const`, `maximum` and `minimum` as they are. */
  function ConvertAge(age: Option<Rule>): Option<NumberSchema> {
    match age
    case None => None
    case Some(r) =>
      Some(NumberSchema(
        r.eq, r.lt, r.gt,
        "age must not be greater than " + Interpolate(r.lt),
        "age must not be lower than " + Interpolate(r.gt),
        Some("age must be equal to " + Interpolate(r.eq))))
  }

  /** `convertDateRestriction`: `before` is the latest day allowed, `after` the earliest. */
  function ConvertDate(date: Option<DateRule>): Option<DateSchema> {
    match date
    case None => None
    case Some(d) =>
      Some(DateSchema(
        d.before, d.after,
        "The promoCode was valid until " + Interpolate(d.before),
        "The promoCode will be valid on " + Interpolate(d.after)))
  }

  /** The temperature bound: `temp.eq` when it is truthy, else the rule's own bound. */
  function TempBound(eq: Value, bound: Value): (b: Value)
    ensures Truthy(eq) ==> b == eq
    ensures !Truthy(eq) ==> b == bound
  {
    if Truthy(eq) then eq else bound
  }

  /** The rule read from `temp`; a `temp` that is not an object reads as a rule with no field. */
  function TempRule(t: TempField): Rule {
    match t
    case RuleTemp(r) => r
    case _ => Rule(Undefined, Undefined, Undefined)
  }

  /** `convertWeatherRestriction`: `is` becomes a `const`; `temp` has no `const`, both of its bounds
    * being `temp.eq` whenever that is truthy. */
  function ConvertWeather(weather: Option<WeatherRule>): Option<WeatherSchema> {
    match weather
    case None => None
    case Some(w) =>
      var t := TempRule(w.temp);
      var max := TempBound(t.eq, t.lt);
      var min := TempBound(t.eq, t.gt);
      Some(WeatherSchema(
        w.condition,
        "The weather must be equal to " + Interpolate(w.condition),
        NumberSchema(Undefined, max, min,
                     "temp must not be greater than " + Interpolate(max),
                     "temp must not be lower than " + Interpolate(min),
                     None)))
  }

  /** The `properties` a node contributes. */
  function NodeProperties(n: Restriction): Properties {
    Properties(ConvertAge(n.age), ConvertDate(n.date), ConvertWeather(n.weather))
  }

  predicate HasSimple(n: Restriction) {
    n.age.Some? || n.date.Some? || n.weather.Some?
  }

  /** The `if .. else if ..` that picks the one key a node makes required: age, then date, then weather. */
  function FirstField(n: Restriction): (f: Option<Field>)
    ensures f.Some? <==> HasSimple(n)
    ensures f == Some(AgeField) <==> n.age.Some?
    ensures f == Some(DateField) <==> n.age.None? && n.date.Some?
    ensures f == Some(WeatherField) <==> n.age.None? && n.date.None? && n.weather.Some?
  {
    if n.age.Some? then Some(AgeField)
    else if n.date.Some? then Some(DateField)
    else if n.weather.Some? then Some(WeatherField)
    else None
  }

  function FieldList(f: Option<Field>): seq<Field> {
    match f
    case None => []
    case Some(x) => [x]
  }

  /** A list with at least one node, the test `andRestriction?.length`. */
  predicate HasItems(l: RestrictionList) {
    l.Present? && |l.items| > 0
  }

  /** The sub-schema a node of an `and`/`or` list becomes. */
  function SubSchema(n: Restriction): Schema
    decreases n, 2
  {
    Schema(
      false,
      if HasSimple(n) then Some(NodeProperties(n)) else None,
      if HasSimple(n) then Some(FieldList(FirstField(n))) else None,
      SubSchemaList(n.and),
      SubSchemaList(n.or))
  }

  /** `convertAndRestriction` and `convertOrRestriction`, which differ only in the key they fill
    * (`allOf` and `anyOf`): nothing for a missing or empty list, else one sub-schema per node. */
  function SubSchemaList(l: RestrictionList): (r: SchemaList)
    ensures r.Schemas? <==> HasItems(l)
    decreases l, 1
  {
    if HasItems(l) then Schemas(SubSchemas(l.items)) else NoSchemas
  }

  /** The reduce over a list: sub-schemas pushed in order. */
  function SubSchemas(items: seq<Restriction>): (r: seq<Schema>)
    ensures |r| == |items|
    ensures forall i :: 0 <= i < |items| ==> r[i] == SubSchema(items[i])
    decreases items, 0
  {
    if items == [] then []
    else SubSchemas(items[..|items| - 1]) + [SubSchema(items[|items| - 1])]
  }

  /** The reduce accumulator of the constructor: `properties`, `required`, and whichever `allOf` and
    * `anyOf` were spread into it last. */
  datatype Accumulator = Accumulator(properties: Properties, required: seq<Field>, allOf: SchemaList, anyOf: SchemaList)

  const Initial := Accumulator(Properties(None, None, None), [], NoSchemas, NoSchemas)

  /** Object spread of properties: a key `q` has replaces the same key of `p`. */
  function Merge(p: Properties, q: Properties): (m: Properties)
    ensures m.age == (if q.age.Some? then q.age else p.age)
    ensures m.date == (if q.date.Some? then q.date else p.date)
    ensures m.weather == (if q.weather.Some? then q.weather else p.weather)
  {
    Properties(
      if q.age.Some? then q.age else p.age,
      if q.date.Some? then q.date else p.date,
      if q.weather.Some? then q.weather else p.weather)
  }

  /** One step of the reduce. */
  function Step(acc: Accumulator, n: Restriction): Accumulator {
    var andList := SubSchemaList(n.and);
    var orList := SubSchemaList(n.or);
    Accumulator(
      Merge(acc.properties, NodeProperties(n)),
      acc.required + FieldList(FirstField(n)),
      if andList.Schemas? then andList else acc.allOf,
      if orList.Schemas? then orList else acc.anyOf)
  }

  /** The whole reduce. A key, a required entry or a combinator is there only if some node put it there. */
  function Fold(rs: seq<Restriction>): (acc: Accumulator)
    ensures (forall i :: 0 <= i < |rs| ==> rs[i].age.None?) ==> acc.properties.age.None?
    ensures (forall i :: 0 <= i < |rs| ==> rs[i].date.None?) ==> acc.properties.date.None?
    ensures (forall i :: 0 <= i < |rs| ==> rs[i].weather.None?) ==> acc.properties.weather.None?
    ensures (forall i :: 0 <= i < |rs| ==> !HasItems(rs[i].and)) ==> acc.allOf == NoSchemas
    ensures (forall i :: 0 <= i < |rs| ==> !HasItems(rs[i].or)) ==> acc.anyOf == NoSchemas
    ensures (forall i :: 0 <= i < |rs| ==> rs[i].age.None?) ==> AgeField !in acc.required
    ensures (forall i :: 0 <= i < |rs| ==> rs[i].date.None?) ==> DateField !in acc.required
    ensures (forall i :: 0 <= i < |rs| ==> rs[i].weather.None?) ==> WeatherField !in acc.required
    ensures |acc.required| <= |rs|
  {
    if rs == [] then Initial
    else Step(Fold(rs[..|rs| - 1]), rs[|rs| - 1])
  }

  /** The schema of the constructor: `{type: 'object', ...accumulator}`. */
  function Compile(rs: seq<Restriction>): Schema {
    var acc := Fold(rs);
    Schema(true, Some(acc.properties), Some(acc.required), acc.allOf, acc.anyOf)
  }

  class AjvRestriction {
    const schema: Schema

    /** The constructor's reduce, written as a loop over the restrictions. */
    constructor(restrictions: seq<Restriction>)
      ensures schema == Compile(restrictions)
    {
      var acc := Initial;
      for i := 0 to |restrictions|
        invariant acc == Fold(restrictions[..i])
      {
        acc := ReduceRestriction(acc, restrictions[i]);
        assert restrictions[..i + 1][..i] == restrictions[..i];
      }
      assert restrictions[..|restrictions|] == restrictions;
      schema := Schema(true, Some(acc.properties), Some(acc.required), acc.allOf, acc.anyOf);
    }

    /** The constructor's reduce callback: spread the node's properties, then its `allOf`/`anyOf`, then
      * push the first of its keys onto `required`. */
    static method ReduceRestriction(restrictionAcc: Accumulator, restriction: Restriction) returns (acc: Accumulator)
      ensures acc == Step(restrictionAcc, restriction)
    {
      var age := ConvertAge(restriction.age);
      var date := ConvertDate(restriction.date);
      var weather := ConvertWeather(restriction.weather);
      var and := ConvertCombinator(restriction.and);
      var or := ConvertCombinator(restriction.or);
      assert age.Some? == restriction.age.Some? && date.Some? == restriction.date.Some? &&
             weather.Some? == restriction.weather.Some?;
      acc := restrictionAcc.(properties := Merge(restrictionAcc.properties, Properties(age, date, weather)));
      if and.Schemas? {
        acc := acc.(allOf := and);
      }
      if or.Schemas? {
        acc := acc.(anyOf := or);
      }
      if age.Some? {
        acc := acc.(required := acc.required + [AgeField]);
      } else if date.Some? {
        acc := acc.(required := acc.required + [DateField]);
      } else if weather.Some? {
        acc := acc.(required := acc.required + [WeatherField]);
      }
    }

    /** `convertAndRestriction` / `convertOrRestriction`: a reduce over the list that pushes each node's
      * sub-schema. */
    static method ConvertCombinator(l: RestrictionList) returns (r: SchemaList)
      ensures r.Schemas? <==> HasItems(l)
      ensures r == SubSchemaList(l)
      decreases l, 1
    {
      if !HasItems(l) {
        return NoSchemas;
      }
      var items := l.items;
      var acc: seq<Schema> := [];
      for index := 0 to |items|
        invariant acc == SubSchemas(items[..index])
      {
        acc := PushSubSchema(acc, items[index], index);
        assert items[..index + 1][..index] == items[..index];
      }
      assert items[..|items|] == items;
      return Schemas(acc);
    }

    /** The combinators' reduce callback: push the node's sub-schema, then set the `required` of the
      * entry just pushed, at `index`. */
    static method PushSubSchema(subSchemas: seq<Schema>, restriction: Restriction, index: nat) returns (acc: seq<Schema>)
      requires index == |subSchemas|
      ensures acc == subSchemas + [SubSchema(restriction)]
      decreases restriction, 0
    {
      var age := ConvertAge(restriction.age);
      var date := ConvertDate(restriction.date);
      var weather := ConvertWeather(restriction.weather);
      var and := ConvertCombinator(restriction.and);
      var or := ConvertCombinator(restriction.or);
      var subSchema :=
        if age.Some? || weather.Some? || date.Some? then Schema(false, Some(Properties(age, date, weather)), None, and, or)
        else Schema(false, None, None, and, or);
      acc := subSchemas + [subSchema];
      if age.Some? {
        acc := acc[index := acc[index].(required := Some([AgeField]))];
      } else if date.Some? {
        acc := acc[index := acc[index].(required := Some([DateField]))];
      } else if weather.Some? {
        acc := acc[index := acc[index].(required := Some([WeatherField]))];
      }
    }
  }
}
