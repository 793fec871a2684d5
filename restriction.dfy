/** restriction.ts: a node of the restriction tree. */
module Restrictions {
  import opened Wrappers
  import opened JsValues
  import Rules
  import DateRules
  import WeatherRules

  /** An optional list of restriction nodes (`or`, `and`, and a promo code's `restrictions`). */
  datatype RestrictionList = Absent | Present(items: seq<Restriction>)

  /** Any combination of the five fields may be present. */
  datatype Restriction = Restriction(
    age: Option<Rules.Rule>,
    date: Option<DateRules.DateRule>,
    weather: Option<WeatherRules.WeatherRule>,
    or: RestrictionList,
    and: RestrictionList)

  const NoRuleMessage := "A restriction must have at least one rule"

  /** `@ValidateNested` on every field: the decorator messages of the whole subtree. */
  function FieldErrors(n: Restriction): seq<string>
    decreases n
  {
    (if n.age.Some? then Rules.FieldErrors(n.age.value) else [])
    + (if n.date.Some? then DateRules.FieldErrors(n.date.value) else [])
    + (if n.weather.Some? then WeatherRules.FieldErrors(n.weather.value) else [])
    + ListErrors(n.or)
    + ListErrors(n.and)
  }

  function ListErrors(l: RestrictionList): seq<string>
    decreases l
  {
    match l
    case Absent => []
    case Present(items) => ItemsErrors(items)
  }

  function ItemsErrors(items: seq<Restriction>): seq<string>
    decreases items
  {
    if items == [] then [] else FieldErrors(items[0]) + ItemsErrors(items[1..])
  }

  /** The messages nested validation can raise: decorator messages only, never one from a `validate()`. */
  predicate DecoratorMessage(m: string) {
    m in {Rules.GtMessage, Rules.LtMessage, Rules.EqMessage,
          DateRules.BeforeMessage, DateRules.AfterMessage,
          WeatherRules.TempRequiredMessage, WeatherRules.TempInvalidMessage, WeatherRules.IsEnumMessage,
          WeatherRules.IsRequiredMessage}
  }

  lemma RuleMessagesAreDecorators(r: Rules.Rule)
    ensures forall m :: m in Rules.FieldErrors(r) ==> DecoratorMessage(m)
  {
  }

  lemma DateMessagesAreDecorators(d: DateRules.DateRule)
    ensures forall m :: m in DateRules.FieldErrors(d) ==> DecoratorMessage(m)
  {
  }

  lemma WeatherMessagesAreDecorators(w: WeatherRules.WeatherRule)
    ensures forall m :: m in WeatherRules.FieldErrors(w) ==> DecoratorMessage(m)
  {
    if w.temp.RuleTemp? {
      RuleMessagesAreDecorators(w.temp.rule);
    }
  }

  lemma {:induction false} NestedMessagesAreDecorators(n: Restriction)
    ensures forall m :: m in FieldErrors(n) ==> DecoratorMessage(m)
    decreases n, 2
  {
    if n.age.Some? {
      RuleMessagesAreDecorators(n.age.value);
    }
    if n.date.Some? {
      DateMessagesAreDecorators(n.date.value);
    }
    if n.weather.Some? {
      WeatherMessagesAreDecorators(n.weather.value);
    }
    ListMessagesAreDecorators(n.or);
    ListMessagesAreDecorators(n.and);
  }

  lemma {:induction false} ListMessagesAreDecorators(l: RestrictionList)
    ensures forall m :: m in ListErrors(l) ==> DecoratorMessage(m)
    decreases l, 1
  {
    if l.Present? {
      ItemsMessagesAreDecorators(l.items);
    }
  }

  lemma {:induction false} ItemsMessagesAreDecorators(items: seq<Restriction>)
    ensures forall m :: m in ItemsErrors(items) ==> DecoratorMessage(m)
    decreases items, 0
  {
    if items != [] {
      NestedMessagesAreDecorators(items[0]);
      ItemsMessagesAreDecorators(items[1..]);
    }
  }

  /** The test in `validate()`: every field is undefined (an empty list still counts as present). */
  predicate NoRule(n: Restriction) {
    n.age.None? && n.and.Absent? && n.or.Absent? && n.weather.None? && n.date.None?
  }

  function Errors(n: Restriction): seq<string> {
    if FieldErrors(n) != [] then FieldErrors(n)
    else if NoRule(n) then [NoRuleMessage]
    else []
  }

  /** `new Restriction({age, date, weather, or, and})`. */
  function NewRestriction(
    age: Option<Rules.Rule>, date: Option<DateRules.DateRule>, weather: Option<WeatherRules.WeatherRule>,
    or: RestrictionList, and: RestrictionList): (r: Result<Restriction>)
    ensures r.Ok? ==> r.value == Restriction(age, date, weather, or, and)
    ensures r.Ok? ==> FieldErrors(r.value) == []
    ensures age.None? && date.None? && weather.None? && or.Absent? && and.Absent? ==>
              r == Err(DomainValidationError([NoRuleMessage]))
    ensures NoRuleMessage in Messages(r) <==>
              age.None? && date.None? && weather.None? && or.Absent? && and.Absent?
    ensures r.Ok? <==>
              FieldErrors(Restriction(age, date, weather, or, and)) == [] && !NoRule(Restriction(age, date, weather, or, and))
  {
    NestedMessagesAreDecorators(Restriction(age, date, weather, or, and));
    Validated(Restriction(age, date, weather, or, and), Errors(Restriction(age, date, weather, or, and)))
  }

  /** Any single rule that passes its own decorator checks makes a node on its own. */
  lemma SingleRuleAccepted(a: Rules.Rule, d: DateRules.DateRule, w: WeatherRules.WeatherRule)
    requires Rules.FieldErrors(a) == [] && DateRules.FieldErrors(d) == [] && WeatherRules.FieldErrors(w) == []
    ensures NewRestriction(Some(a), None, None, Absent, Absent) == Ok(Restriction(Some(a), None, None, Absent, Absent))
    ensures NewRestriction(None, Some(d), None, Absent, Absent) == Ok(Restriction(None, Some(d), None, Absent, Absent))
    ensures NewRestriction(None, None, Some(w), Absent, Absent) == Ok(Restriction(None, None, Some(w), Absent, Absent))
  {
    assert FieldErrors(Restriction(Some(a), None, None, Absent, Absent)) == [];
    assert FieldErrors(Restriction(None, Some(d), None, Absent, Absent)) == [];
    assert FieldErrors(Restriction(None, None, Some(w), Absent, Absent)) == [];
  }

  /** A list passes nested validation exactly when each of its nodes does. */
  lemma {:induction false} ItemsErrorsEmpty(items: seq<Restriction>)
    ensures ItemsErrors(items) == [] <==> forall i :: 0 <= i < |items| ==> FieldErrors(items[i]) == []
    decreases items
  {
    if items != [] {
      ItemsErrorsEmpty(items[1..]);
      forall i | 1 <= i < |items|
        ensures items[1..][i - 1] == items[i]
      {
      }
    }
  }

  /** A node with a failing decorator anywhere in an `or` or `and` list makes its parent fail. */
  lemma NestedFailureRejectsParent(
    age: Option<Rules.Rule>, date: Option<DateRules.DateRule>, weather: Option<WeatherRules.WeatherRule>,
    or: RestrictionList, and: RestrictionList, k: nat)
    requires and.Present? && k < |and.items| && FieldErrors(and.items[k]) != []
    ensures NewRestriction(age, date, weather, or, and).Err?
    ensures NewRestriction(age, date, weather, and, or).Err?
  {
    ItemsErrorsEmpty(and.items);
    assert ListErrors(and) != [];
    assert FieldErrors(Restriction(age, date, weather, or, and)) != [];
    assert FieldErrors(Restriction(age, date, weather, and, or)) != [];
  }

  /** A combinator node over children that pass their own checks is accepted, whatever their number. */
  lemma CombinatorAccepted(items: seq<Restriction>)
    requires forall i :: 0 <= i < |items| ==> FieldErrors(items[i]) == []
    ensures ListErrors(Present(items)) == []
    ensures NewRestriction(None, None, None, Present(items), Absent) == Ok(Restriction(None, None, None, Present(items), Absent))
    ensures NewRestriction(None, None, None, Absent, Present(items)) == Ok(Restriction(None, None, None, Absent, Present(items)))
  {
    ItemsErrorsEmpty(items);
    assert FieldErrors(Restriction(None, None, None, Present(items), Absent)) == [];
    assert FieldErrors(Restriction(None, None, None, Absent, Present(items))) == [];
  }

  /** Empty `or` / `and` lists satisfy the at-least-one-rule check on their own. */
  lemma EmptyListsAreRules()
    ensures NewRestriction(None, None, None, Present([]), Absent).Ok?
    ensures NewRestriction(None, None, None, Absent, Present([])).Ok?
  {
    assert ItemsErrors([]) == [];
  }

  /** A node may carry several simple rules at once; the entity does not forbid it. */
  lemma SeveralSimpleRulesAccepted(age: Rules.Rule, date: DateRules.DateRule, weather: WeatherRules.WeatherRule)
    requires Rules.Errors(age) == [] && DateRules.Errors(date) == [] && WeatherRules.FieldErrors(weather) == []
    ensures NewRestriction(Some(age), Some(date), Some(weather), Absent, Absent).Ok?
  {
    assert FieldErrors(Restriction(Some(age), Some(date), Some(weather), Absent, Absent)) == [];
  }
}
