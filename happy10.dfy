/** The seeded `happy10` code end to end: the schema it compiles to, what that schema accepts, and the
  * answers a check of `happy10` gets. */
module Happy10Scenario {
  import opened Wrappers
  import opened JsValues
  import opened Rules
  import opened DateRules
  import opened WeatherRules
  import opened Restrictions
  import opened Advantages
  import opened PromoCodes
  import opened FakeDb
  import opened JsonSchemas
  import opened AjvRestrictions
  import opened RestrictionSemantics
  import opened ValidatorService
  import opened CheckPromoCode

  const Before := "2050-04-22"
  const After := "2021-03-20"

  function Age40Schema(): Schema {
    Schema(false,
      Some(Properties(Some(NumberSchema(Num(40), Undefined, Undefined,
                                        "age must not be greater than undefined", "age must not be lower than undefined",
                                        Some("age must be equal to 40"))), None, None)),
      Some([AgeField]), NoSchemas, NoSchemas)
  }

  function Age15To30Schema(): Schema {
    Schema(false,
      Some(Properties(Some(NumberSchema(Undefined, Num(30), Num(15),
                                        "age must not be greater than 30", "age must not be lower than 15",
                                        Some("age must be equal to undefined"))), None, None)),
      Some([AgeField]), NoSchemas, NoSchemas)
  }

  function AshSchema(): Schema {
    Schema(false,
      Some(Properties(None, None,
        Some(WeatherSchema(Str("Ash"), "The weather must be equal to Ash",
                           NumberSchema(Undefined, Undefined, Num(15),
                                        "temp must not be greater than undefined", "temp must not be lower than 15",
                                        None))))),
      Some([WeatherField]), NoSchemas, NoSchemas)
  }

  /** The schema the seed compiles to. */
  function Happy10Schema(): Schema {
    var window := DateSchema(Str(Before), Str(After),
                             "The promoCode was valid until " + Before, "The promoCode will be valid on " + After);
    Schema(true, Some(Properties(None, Some(window), None)), Some([DateField]), NoSchemas,
      Schemas([Age40Schema(), Schema(false, None, None, Schemas([Age15To30Schema(), AshSchema()]), NoSchemas)]))
  }

  lemma NumbersRendered()
    ensures Interpolate(Num(40)) == "40" && Interpolate(Num(30)) == "30" && Interpolate(Num(15)) == "15"
  {
    assert NatToString(4) == "4" && NatToString(3) == "3" && NatToString(1) == "1";
    assert NatToString(0) == "0" && NatToString(5) == "5";
  }

  /** The template literals of the `age: {eq: 40}` schema, rendered. */
  lemma Age40Rendered()
    ensures "age must not be greater than " + Interpolate(Undefined) == "age must not be greater than undefined"
    ensures "age must not be lower than " + Interpolate(Undefined) == "age must not be lower than undefined"
    ensures "age must be equal to " + Interpolate(Num(40)) == "age must be equal to 40"
  {
    NumbersRendered();
    assert "age must not be greater than " + "undefined" == "age must not be greater than undefined";
    assert "age must not be lower than " + "undefined" == "age must not be lower than undefined";
    assert "age must be equal to " + "40" == "age must be equal to 40";
  }

  /** The template literals of the `age: {gt: 15, lt: 30}` schema, rendered. */
  lemma Age15To30Rendered()
    ensures "age must not be greater than " + Interpolate(Num(30)) == "age must not be greater than 30"
    ensures "age must not be lower than " + Interpolate(Num(15)) == "age must not be lower than 15"
    ensures "age must be equal to " + Interpolate(Undefined) == "age must be equal to undefined"
  {
    NumbersRendered();
    assert "age must not be greater than " + "30" == "age must not be greater than 30";
    assert "age must not be lower than " + "15" == "age must not be lower than 15";
    assert "age must be equal to " + "undefined" == "age must be equal to undefined";
  }

  /** The template literals of the ash-weather schema, rendered. */
  lemma AshRendered()
    ensures "The weather must be equal to " + Interpolate(Str("Ash")) == "The weather must be equal to Ash"
    ensures "temp must not be greater than " + Interpolate(Undefined) == "temp must not be greater than undefined"
    ensures "temp must not be lower than " + Interpolate(Num(15)) == "temp must not be lower than 15"
  {
    NumbersRendered();
    assert "The weather must be equal to " + "Ash" == "The weather must be equal to Ash";
    assert "temp must not be greater than " + "undefined" == "temp must not be greater than undefined";
    assert "temp must not be lower than " + "15" == "temp must not be lower than 15";
  }

  /** The first alternative of the seed's `or`. */
  function Aged40(): Restriction {
    Happy10().restrictions.items[1].or.items[0]
  }

  /** The second alternative of the seed's `or`: an `and` of an age window and the ash weather. */
  function YoungOnAsh(): Restriction {
    Happy10().restrictions.items[1].or.items[1]
  }

  lemma Aged40Compiles()
    ensures SubSchema(Aged40()) == Age40Schema()
  {
    Age40Rendered();
  }

  lemma YoungOnAshCompiles()
    ensures SubSchema(YoungOnAsh()) == Schema(false, None, None, Schemas([Age15To30Schema(), AshSchema()]), NoSchemas)
  {
    var both := YoungOnAsh().and.items;
    Age15To30Rendered();
    assert SubSchema(both[0]) == Age15To30Schema();
    AshRendered();
    assert SubSchema(both[1]) == AshSchema();
    assert SubSchemas(both) == [Age15To30Schema(), AshSchema()];
  }

  /** The seed's restrictions compile to the schema above. */
  lemma Happy10Compiles()
    ensures Compile(Happy10().restrictions.items) == Happy10Schema()
  {
    var items := Happy10().restrictions.items;
    Aged40Compiles();
    YoungOnAshCompiles();
    assert SubSchemas(items[1].or.items) == [SubSchema(Aged40()), SubSchema(YoungOnAsh())];
    var window := Happy10Schema().properties.value;
    assert Fold(items[..1]) == Step(Initial, items[0]);
    assert Fold(items[..1]) == Accumulator(window, [DateField], NoSchemas, NoSchemas);
    assert items[..2] == items;
    assert Fold(items) == Step(Fold(items[..1]), items[1]);
    assert [DateField] + FieldList(FirstField(items[1])) == [DateField];
    assert Fold(items) == Accumulator(window, [DateField], NoSchemas, Happy10Schema().anyOf);
  }

  /** The seed lies within the hypotheses of the compiler's correctness theorem. */
  lemma Happy10Faithful()
    ensures Disjoint(Happy10().restrictions.items)
    ensures forall i :: 0 <= i < |Happy10().restrictions.items| ==> Compilable(Happy10().restrictions.items[i])
  {
    var items := Happy10().restrictions.items;
    var inner := items[1].or.items[1];
    assert Compilable(inner.and.items[0]) && Compilable(inner.and.items[1]);
    assert Compilable(inner);
    assert Compilable(items[1].or.items[0]);
    assert Compilable(items[1]);
  }

  /** Within the window, and either aged 40 or aged 15 to 30 with ash weather at 15 degrees or more. */
  predicate Eligible(ctx: Context) {
    ctx.date.Some? && DateRuleHolds(DateRule(Str(Before), Str(After)), ctx.date.value) &&
    (ctx.age == Some(40) ||
     (ctx.age.Some? && 15 <= ctx.age.value <= 30 && ctx.weather.Some? &&
      ctx.weather.value.condition == "Ash" && ctx.weather.value.temp >= 15))
  }

  lemma YoungOnAshMeaning(ctx: Context)
    ensures NodeHolds(YoungOnAsh(), ctx) <==>
              ctx.age.Some? && 15 <= ctx.age.value <= 30 && ctx.weather.Some? &&
              ctx.weather.value.condition == "Ash" && ctx.weather.value.temp >= 15
  {
    var both := YoungOnAsh().and.items;
    assert NodeHolds(YoungOnAsh(), ctx) <==> NodeHolds(both[0], ctx) && NodeHolds(both[1], ctx);
  }

  /** The seed's `or`: aged 40, or the age window with the ash weather. */
  lemma EitherMeaning(ctx: Context)
    ensures NodeHolds(Happy10().restrictions.items[1], ctx) <==>
              ctx.age == Some(40) ||
              (ctx.age.Some? && 15 <= ctx.age.value <= 30 && ctx.weather.Some? &&
               ctx.weather.value.condition == "Ash" && ctx.weather.value.temp >= 15)
  {
    var either := Happy10().restrictions.items[1];
    YoungOnAshMeaning(ctx);
    assert |either.or.items| == 2;
    assert NodeHolds(Aged40(), ctx) <==> ctx.age == Some(40);
    assert NodeHolds(either, ctx) <==> NodeHolds(Aged40(), ctx) || NodeHolds(YoungOnAsh(), ctx);
  }

  lemma Happy10Meaning(ctx: Context)
    ensures AllHold(Happy10().restrictions.items, ctx) <==> Eligible(ctx)
  {
    var items := Happy10().restrictions.items;
    EitherMeaning(ctx);
    assert |items| == 2;
    assert NodeHolds(items[0], ctx) <==> ctx.date.Some? && DateRuleHolds(DateRule(Str(Before), Str(After)), ctx.date.value);
    assert AllHold(items, ctx) <==> NodeHolds(items[0], ctx) && NodeHolds(items[1], ctx);
  }

  /** A check of `happy10` against the seeded store is accepted, with its 10 percent, exactly when the
    * payload is eligible. */
  lemma Happy10Check(q: CheckPromoCodeQuery, now: string, weatherOf: string -> Option<WeatherReport>)
    ensures q.name == "happy10" && Payload(q, now, weatherOf).Some? ==>
              (CheckOutcome([Happy10()], q, now, weatherOf) == Answered(Accepted("happy10", Some(Advantage(Num(10))))) <==>
               Eligible(Payload(q, now, weatherOf).value))
  {
    if q.name == "happy10" && Payload(q, now, weatherOf).Some? {
      assert FindFirst([Happy10()], Str(q.name)) == Some(Happy10());
      Happy10Faithful();
      AcceptedIffRestrictionsHold([Happy10()], q, now, weatherOf);
      Happy10Meaning(Payload(q, now, weatherOf).value);
    }
  }
}
