/** The compiler's integration scenario: a date window in the autumn of 2022, then either aged 40 or aged
  * 15 to 30 on a clear day warmer than 15 degrees; what its schema accepts and rejects. */
module CompilerScenario {
  import opened Wrappers
  import opened JsValues
  import opened IsoDates
  import opened Rules
  import opened DateRules
  import opened WeatherRules
  import opened Restrictions
  import opened JsonSchemas
  import opened AjvRestrictions
  import opened RestrictionSemantics

  function Autumn(): Restriction {
    Restriction(None, Some(DateRule(Str("2022-12-12"), Str("2022-09-12"))), None, Absent, Absent)
  }

  function YoungOnClear(): Restriction {
    Restriction(None, None, None, Absent,
      Present([
        Restriction(Some(Rule(Num(15), Num(30), Undefined)), None, None, Absent, Absent),
        Restriction(None, None, Some(WeatherRule(RuleTemp(Rule(Num(15), Undefined, Undefined)), Str("Clear"))),
                    Absent, Absent)
      ]))
  }

  function Either(): Restriction {
    Restriction(None, None, None,
      Present([Restriction(Some(Rule(Undefined, Undefined, Num(40))), None, None, Absent, Absent), YoungOnClear()]),
      Absent)
  }

  function Scenario(): seq<Restriction> {
    [Autumn(), Either()]
  }

  /** The payload of the scenario on 2022-10-10 at age `age`, on a clear day at 20 degrees. */
  function Visitor(age: int): Context {
    Context(Some("2022-10-10"), Some(age), Some(WeatherReport("Clear", 20)))
  }

  lemma ScenarioFaithful()
    ensures Disjoint(Scenario())
    ensures forall i :: 0 <= i < |Scenario()| ==> Compilable(Scenario()[i])
  {
    var inner := YoungOnClear();
    assert Compilable(inner.and.items[0]) && Compilable(inner.and.items[1]);
    assert Compilable(inner);
    assert Compilable(Either().or.items[0]);
    assert Compilable(Either());
  }

  lemma InAutumn()
    ensures DateRuleHolds(Autumn().date.value, "2022-10-10")
  {
    var day, first, last := "2022-10-10", "2022-09-12", "2022-12-12";
    assert DateShaped(day) && DateShaped(first) && DateShaped(last);
    assert ParseDate(day) == Some(Date(2022, 10, 10));
    assert ParseDate(first) == Some(Date(2022, 9, 12));
    assert ParseDate(last) == Some(Date(2022, 12, 12));
  }

  /** The inner `and` holds on the clear day at 20 degrees exactly when the visitor is 15 to 30. */
  lemma YoungOnClearMeaning(age: int)
    ensures NodeHolds(YoungOnClear(), Visitor(age)) <==> 15 <= age <= 30
  {
    var ctx := Visitor(age);
    var both := YoungOnClear().and.items;
    assert |both| == 2;
    assert NodeHolds(YoungOnClear(), ctx) <==> NodeHolds(both[0], ctx) && NodeHolds(both[1], ctx);
  }

  /** The `or` holds exactly when the visitor is 40, or 15 to 30. */
  lemma EitherMeaning(age: int)
    ensures NodeHolds(Either(), Visitor(age)) <==> age == 40 || 15 <= age <= 30
  {
    var ctx := Visitor(age);
    YoungOnClearMeaning(age);
    var alts := Either().or.items;
    assert |alts| == 2 && alts[1] == YoungOnClear();
    assert NodeHolds(alts[0], ctx) <==> age == 40;
    assert NodeHolds(Either(), ctx) <==> NodeHolds(alts[0], ctx) || NodeHolds(alts[1], ctx);
  }

  /** The scenario holds for a visitor exactly when the visitor is 40, or 15 to 30. */
  lemma ScenarioMeaning(age: int)
    ensures AllHold(Scenario(), Visitor(age)) <==> age == 40 || 15 <= age <= 30
  {
    InAutumn();
    EitherMeaning(age);
    var ctx := Visitor(age);
    var rs := Scenario();
    assert |rs| == 2 && rs[0] == Autumn() && rs[1] == Either();
    assert NodeHolds(rs[0], ctx);
    assert AllHold(rs, ctx) <==> NodeHolds(rs[0], ctx) && NodeHolds(rs[1], ctx);
  }

  /** The compiled schema accepts the 15-year-old without any error, and rejects the 50-year-old with
    * at least one. */
  lemma ScenarioVerdicts()
    ensures Satisfies(Compile(Scenario()), Visitor(15)) && JsonSchemas.Errors(Compile(Scenario()), Visitor(15)) == []
    ensures !Satisfies(Compile(Scenario()), Visitor(50)) && JsonSchemas.Errors(Compile(Scenario()), Visitor(50)) != []
  {
    ScenarioFaithful();
    ScenarioMeaning(15);
    ScenarioMeaning(50);
    CompileCorrect(Scenario(), Visitor(15));
    CompileCorrect(Scenario(), Visitor(50));
    ErrorsEmptyIff(Compile(Scenario()), Visitor(15));
    ErrorsEmptyIff(Compile(Scenario()), Visitor(50));
  }
}
