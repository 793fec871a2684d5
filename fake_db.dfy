/** fake-db.service.ts: the in-memory store of promo codes, seeded with `happy10`. */
module FakeDb {
  import opened Wrappers
  import opened JsValues
  import opened Rules
  import opened DateRules
  import opened WeatherRules
  import opened Restrictions
  import opened Advantages
  import opened PromoCodes
  import opened IsoDates

  /** `Array.prototype.find` by name: the first stored promo code whose name is `name`. */
  function FindFirst(codes: seq<PromoCode>, name: Value): (r: Option<PromoCode>)
    ensures r.None? <==> forall k :: 0 <= k < |codes| ==> codes[k].name != name
    ensures r.Some? ==> exists k :: 0 <= k < |codes| && codes[k] == r.value && r.value.name == name &&
                                    forall j :: 0 <= j < k ==> codes[j].name != name
  {
    if codes == [] then None
    else if codes[0].name == name then Some(codes[0])
    else
      var r := FindFirst(codes[1..], name);
      assert forall k :: 1 <= k < |codes| ==> codes[k] == codes[1..][k - 1];
      r
  }

  /** Appending a code never hides an earlier match, and the new code is found when nothing earlier is. */
  lemma {:induction false} FindFirstAppend(codes: seq<PromoCode>, p: PromoCode, name: Value)
    ensures FindFirst(codes + [p], name) ==
              if FindFirst(codes, name).Some? then FindFirst(codes, name)
              else if p.name == name then Some(p)
              else None
  {
    if codes != [] {
      assert (codes + [p])[1..] == codes[1..] + [p];
      FindFirstAppend(codes[1..], p, name);
    }
  }

  /** The seeded `happy10` code: valid from 2021-03-20 to 2050-04-22, and either aged 40, or aged
    * between 15 and 30 on an ash-weather day warmer than 15 degrees; 10 percent off. */
  function Happy10(): PromoCode {
    PromoCode(
      Present([
        Restriction(None, Some(DateRule(Str("2050-04-22"), Str("2021-03-20"))), None, Absent, Absent),
        Restriction(None, None, None,
          Present([
            Restriction(Some(Rule(Undefined, Undefined, Num(40))), None, None, Absent, Absent),
            Restriction(None, None, None, Absent,
              Present([
                Restriction(Some(Rule(Num(15), Num(30), Undefined)), None, None, Absent, Absent),
                Restriction(None, None,
                  Some(WeatherRule(RuleTemp(Rule(Num(15), Undefined, Undefined)), Str("Ash"))),
                  Absent, Absent)
              ]))
          ]),
          Absent)
      ]),
      Str("happy10"),
      Some(Advantage(Num(10))))
  }

  /** The seed's date window passes `new DateRule`. */
  lemma SeedDateValid()
    ensures NewDateRule(Str("2050-04-22"), Str("2021-03-20")).Ok?
    ensures DateRules.FieldErrors(DateRule(Str("2050-04-22"), Str("2021-03-20"))) == []
  {
    var before := "2050-04-22";
    var after := "2021-03-20";
    assert DateShaped(before) && DateShaped(after);
    assert ParseDate(before) == Some(Date(2050, 4, 22));
    assert ParseDate(after) == Some(Date(2021, 3, 20));
  }

  /** The seed's ash weather rule passes `new WeatherRule`. */
  lemma SeedWeatherValid()
    ensures NewWeatherRule(RuleTemp(Rule(Num(15), Undefined, Undefined)), Str("Ash")).Ok?
    ensures WeatherRules.FieldErrors(WeatherRule(RuleTemp(Rule(Num(15), Undefined, Undefined)), Str("Ash"))) == []
  {
    assert Parse("Ash") == Some(Ash);
  }

  /** The seed's three numeric rules pass `new Rule`. */
  lemma SeedAgeRulesValid()
    ensures NewRule(Undefined, Undefined, Num(40)).Ok?
    ensures NewRule(Num(15), Num(30), Undefined).Ok?
    ensures NewRule(Num(15), Undefined, Undefined).Ok?
  {
    assert Rules.FieldErrors(Rule(Undefined, Undefined, Num(40))) == [];
    assert Rules.FieldErrors(Rule(Num(15), Num(30), Undefined)) == [];
    assert Rules.FieldErrors(Rule(Num(15), Undefined, Undefined)) == [];
  }

  /** Each rule and the advantage of the seed passes its own constructor. */
  lemma SeedRulesValid()
    ensures NewRule(Undefined, Undefined, Num(40)).Ok?
    ensures NewRule(Num(15), Num(30), Undefined).Ok?
    ensures NewRule(Num(15), Undefined, Undefined).Ok?
    ensures NewDateRule(Str("2050-04-22"), Str("2021-03-20")).Ok?
    ensures NewWeatherRule(RuleTemp(Rule(Num(15), Undefined, Undefined)), Str("Ash")).Ok?
    ensures NewAdvantage(Num(10)).Ok?
  {
    SeedAgeRulesValid();
    SeedDateValid();
    SeedWeatherValid();
  }

  /** Nested validation of the seed's `and` node raises no message. */
  lemma SeedAndValid()
    ensures Restrictions.FieldErrors(Happy10().restrictions.items[1].or.items[1]) == []
  {
    var both := Happy10().restrictions.items[1].or.items[1].and.items;
    assert Restrictions.FieldErrors(both[0]) == [];
    SeedWeatherValid();
    assert Restrictions.FieldErrors(both[1]) == [];
    assert ItemsErrors(both[1..]) == [];
    assert ItemsErrors(both) == [];
  }

  /** Nested validation of the seed's `or` node raises no message. */
  lemma SeedOrValid()
    ensures Restrictions.FieldErrors(Happy10().restrictions.items[1]) == []
  {
    var alts := Happy10().restrictions.items[1].or.items;
    assert Restrictions.FieldErrors(alts[0]) == [];
    SeedAndValid();
    assert ItemsErrors(alts[1..]) == [];
    assert ItemsErrors(alts) == [];
  }

  /** Nested validation of the seed's date node raises no message. */
  lemma SeedDateNodeValid()
    ensures Restrictions.FieldErrors(Happy10().restrictions.items[0]) == []
  {
    var d := Happy10().restrictions.items[0];
    assert d.date == Some(DateRule(Str("2050-04-22"), Str("2021-03-20")));
    SeedDateValid();
  }

  /** Nested validation of the seeded tree raises no message. */
  lemma SeedTreeValid()
    ensures ListErrors(Happy10().restrictions) == []
  {
    var items := Happy10().restrictions.items;
    SeedDateNodeValid();
    SeedOrValid();
    assert ItemsErrors(items[1..]) == [];
    assert ItemsErrors(items) == [];
  }

  /** Every constructor the seed runs at start-up accepts its input, so the store starts with `Happy10()`. */
  lemma Happy10Constructs()
    ensures NewPromoCode(Happy10().restrictions, Str("happy10"), Some(Advantage(Num(10)))) == Ok(Happy10())
  {
    SeedTreeValid();
  }

  class FakeDBService {
    /** The stored promo codes, in insertion order. */
    var promoCodes: seq<PromoCode>

    constructor()
      ensures promoCodes == [Happy10()]
    {
      promoCodes := [Happy10()];
    }

    /** `findPromoCode(name)`: a linear scan for the first code with that name. */
    method FindPromoCode(name: Value) returns (r: Option<PromoCode>)
      ensures r == FindFirst(promoCodes, name)
    {
      var i := 0;
      while i < |promoCodes|
        invariant 0 <= i <= |promoCodes|
        invariant FindFirst(promoCodes, name) == FindFirst(promoCodes[i..], name)
      {
        if promoCodes[i].name == name {
          return Some(promoCodes[i]);
        }
        assert promoCodes[i..][1..] == promoCodes[i + 1..];
        i := i + 1;
      }
      return None;
    }

    /** `addPromoCode(p)`: appends, without any check of its own. */
    method AddPromoCode(p: PromoCode)
      modifies this
      ensures promoCodes == old(promoCodes) + [p]
    {
      promoCodes := promoCodes + [p];
    }
  }
}
