/** What a restriction tree means for a payload, independently of any schema, and when the compiled
  * schema says the same thing. */
module RestrictionSemantics {
  import opened Wrappers
  import opened JsValues
  import opened IsoDates
  import opened Rules
  import opened DateRules
  import opened WeatherRules
  import opened Restrictions
  import opened JsonSchemas
  import opened AjvRestrictions

  /** A numeric rule: equal to `eq`, at most `lt`, at least `gt` (bounds inclusive), each when set. */
  predicate RuleHolds(r: Rule, x: int) {
    (r.eq.Num? ==> x == r.eq.n) && (r.lt.Num? ==> x <= r.lt.n) && (r.gt.Num? ==> x >= r.gt.n)
  }

  /** A date window: a calendar date on or after `after` and on or before `before`. */
  predicate DateRuleHolds(d: DateRule, day: string) {
    IsDate(day) &&
    (d.after.Str? ==> OnOrAfter(day, d.after.s)) &&
    (d.before.Str? ==> OnOrAfter(d.before.s, day))
  }

  predicate WeatherRuleHolds(w: WeatherRule, report: WeatherReport) {
    w.condition == Str(report.condition) && RuleHolds(TempRule(w.temp), report.temp)
  }

  /** Every present rule holds, every node of `and` holds, and some node of `or` holds. */
  predicate NodeHolds(n: Restriction, ctx: Context)
    decreases n
  {
    (n.age.Some? ==> ctx.age.Some? && RuleHolds(n.age.value, ctx.age.value)) &&
    (n.date.Some? ==> ctx.date.Some? && DateRuleHolds(n.date.value, ctx.date.value)) &&
    (n.weather.Some? ==> ctx.weather.Some? && WeatherRuleHolds(n.weather.value, ctx.weather.value)) &&
    (n.and.Present? ==> forall i :: 0 <= i < |n.and.items| ==> NodeHolds(n.and.items[i], ctx)) &&
    (n.or.Present? ==> exists i :: 0 <= i < |n.or.items| && NodeHolds(n.or.items[i], ctx))
  }

  /** A promo code's restrictions are a conjunction. */
  predicate AllHold(rs: seq<Restriction>, ctx: Context) {
    forall i :: 0 <= i < |rs| ==> NodeHolds(rs[i], ctx)
  }

  // ---------------------------------------------------------------------------------------------
  // The trees the compiler renders faithfully.

  predicate Numeric(r: Rule) {
    !r.gt.Str? && !r.lt.Str? && !r.eq.Str?
  }

  /** `eq` excludes the two bounds. */
  predicate Exclusive(r: Rule) {
    r.eq != Undefined ==> r.gt == Undefined && r.lt == Undefined
  }

  function SimpleCount(n: Restriction): nat {
    (if n.age.Some? then 1 else 0) + (if n.date.Some? then 1 else 0) + (if n.weather.Some? then 1 else 0)
  }

  /** At most one rule per node (the `else if` makes only the first one required), numeric rules,
    * string date bounds, a string weather condition with an exclusive temperature rule whose `eq` is
    * not zero, and no empty `or` list, throughout the tree. */
  predicate Compilable(n: Restriction)
    decreases n
  {
    SimpleCount(n) <= 1 &&
    (n.age.Some? ==> Numeric(n.age.value)) &&
    (n.date.Some? ==> !n.date.value.before.Num? && !n.date.value.after.Num?) &&
    (n.weather.Some? ==>
       n.weather.value.condition.Str? && n.weather.value.temp.RuleTemp? &&
       Numeric(n.weather.value.temp.rule) && Exclusive(n.weather.value.temp.rule) &&
       n.weather.value.temp.rule.eq != Num(0)) &&
    (n.and.Present? ==> forall i :: 0 <= i < |n.and.items| ==> Compilable(n.and.items[i])) &&
    (n.or.Present? ==> |n.or.items| > 0 && forall i :: 0 <= i < |n.or.items| ==> Compilable(n.or.items[i]))
  }

  /** Two top-level nodes that write the same key of the accumulator. */
  predicate Overlap(a: Restriction, b: Restriction) {
    (a.age.Some? && b.age.Some?) || (a.date.Some? && b.date.Some?) || (a.weather.Some? && b.weather.Some?) ||
    (HasItems(a.and) && HasItems(b.and)) || (HasItems(a.or) && HasItems(b.or))
  }

  /** No key of the accumulator is written twice. */
  predicate Disjoint(rs: seq<Restriction>) {
    forall i, j :: 0 <= i < j < |rs| ==> !Overlap(rs[i], rs[j])
  }

  // ---------------------------------------------------------------------------------------------
  // Correctness of the compiler.

  lemma AgeSchemaMeaning(r: Rule, x: int)
    ensures Numeric(r) ==> (NumberHolds(ConvertAge(Some(r)).value, x) <==> RuleHolds(r, x))
  {
  }

  lemma TempSchemaMeaning(w: WeatherRule, report: WeatherReport)
    ensures w.condition.Str? && w.temp.RuleTemp? && Numeric(w.temp.rule) && Exclusive(w.temp.rule) &&
            w.temp.rule.eq != Num(0) ==>
              (WeatherHolds(ConvertWeather(Some(w)).value, report) <==> WeatherRuleHolds(w, report))
  {
  }

  /** The properties of a node hold exactly when its rules hold, for the rules the payload has. */
  lemma NodePropertiesMeaning(n: Restriction, ctx: Context)
    requires Compilable(n)
    ensures PropertiesHold(NodeProperties(n), ctx) <==>
              ((n.age.Some? && ctx.age.Some? ==> RuleHolds(n.age.value, ctx.age.value)) &&
               (n.date.Some? && ctx.date.Some? ==> DateRuleHolds(n.date.value, ctx.date.value)) &&
               (n.weather.Some? && ctx.weather.Some? ==> WeatherRuleHolds(n.weather.value, ctx.weather.value)))
  {
    if n.age.Some? && ctx.age.Some? {
      AgeSchemaMeaning(n.age.value, ctx.age.value);
    }
    if n.weather.Some? && ctx.weather.Some? {
      TempSchemaMeaning(n.weather.value, ctx.weather.value);
    }
  }

  /** A node without a rule contributes no property and no required key. */
  lemma NoSimpleNoConstraint(n: Restriction, ctx: Context)
    ensures !HasSimple(n) ==> PropertiesHold(NodeProperties(n), ctx) && RequiredHolds(FieldList(FirstField(n)), ctx)
  {
  }

  /** The `required` entry of a node with at most one rule demands exactly the key of that rule. */
  lemma FirstFieldMeaning(n: Restriction, ctx: Context)
    requires SimpleCount(n) <= 1
    ensures RequiredHolds(FieldList(FirstField(n)), ctx) <==>
              ((n.age.Some? ==> ctx.age.Some?) && (n.date.Some? ==> ctx.date.Some?) &&
               (n.weather.Some? ==> ctx.weather.Some?))
  {
    var fields := FieldList(FirstField(n));
    if HasSimple(n) {
      assert fields == [FirstField(n).value];
      assert RequiredHolds(fields, ctx) <==> HasField(fields[0], ctx);
    }
  }

  /** The rules of a node hold exactly when its properties and its required key do. */
  lemma RulesMeaning(n: Restriction, ctx: Context)
    requires Compilable(n)
    ensures (PropertiesHold(NodeProperties(n), ctx) && RequiredHolds(FieldList(FirstField(n)), ctx)) <==>
              ((n.age.Some? ==> ctx.age.Some? && RuleHolds(n.age.value, ctx.age.value)) &&
               (n.date.Some? ==> ctx.date.Some? && DateRuleHolds(n.date.value, ctx.date.value)) &&
               (n.weather.Some? ==> ctx.weather.Some? && WeatherRuleHolds(n.weather.value, ctx.weather.value)))
  {
    NodePropertiesMeaning(n, ctx);
    FirstFieldMeaning(n, ctx);
  }

  /** The sub-schema of a node holds exactly when the node holds. */
  lemma {:induction false} SubSchemaMeaning(n: Restriction, ctx: Context)
    requires Compilable(n)
    ensures Satisfies(SubSchema(n), ctx) <==> NodeHolds(n, ctx)
    decreases n, 1
  {
    RulesMeaning(n, ctx);
    NoSimpleNoConstraint(n, ctx);
    AndMeaning(n.and, ctx);
    OrMeaning(n.or, ctx);
  }

  /** The `allOf` of an `and` list holds exactly when every node of the list does. */
  lemma {:induction false} AndMeaning(l: RestrictionList, ctx: Context)
    requires l.Present? ==> forall i :: 0 <= i < |l.items| ==> Compilable(l.items[i])
    ensures AllOfHolds(SubSchemaList(l), ctx) <==> (l.Present? ==> forall i :: 0 <= i < |l.items| ==> NodeHolds(l.items[i], ctx))
    decreases l, 0
  {
    if l.Present? {
      forall i | 0 <= i < |l.items| {
        SubSchemaMeaning(l.items[i], ctx);
      }
    }
  }

  /** The `anyOf` of a non-empty `or` list holds exactly when some node of the list does. */
  lemma {:induction false} OrMeaning(l: RestrictionList, ctx: Context)
    requires l.Present? ==> |l.items| > 0 && forall i :: 0 <= i < |l.items| ==> Compilable(l.items[i])
    ensures AnyOfHolds(SubSchemaList(l), ctx) <==> (l.Present? ==> exists i :: 0 <= i < |l.items| && NodeHolds(l.items[i], ctx))
    decreases l, 0
  {
    if l.Present? {
      var schemas := SubSchemas(l.items);
      forall i | 0 <= i < |l.items|
        ensures Satisfies(schemas[i], ctx) <==> NodeHolds(l.items[i], ctx)
      {
        SubSchemaMeaning(l.items[i], ctx);
      }
    }
  }

  /** The accumulator read as a schema. */
  predicate AccHolds(acc: Accumulator, ctx: Context) {
    Satisfies(Schema(true, Some(acc.properties), Some(acc.required), acc.allOf, acc.anyOf), ctx)
  }

  lemma AccParts(acc: Accumulator, ctx: Context)
    ensures AccHolds(acc, ctx) <==>
              PropertiesHold(acc.properties, ctx) && RequiredHolds(acc.required, ctx) &&
              AllOfHolds(acc.allOf, ctx) && AnyOfHolds(acc.anyOf, ctx)
  {
  }

  lemma RequiredAppend(a: seq<Field>, b: seq<Field>, ctx: Context)
    ensures RequiredHolds(a + b, ctx) <==> RequiredHolds(a, ctx) && RequiredHolds(b, ctx)
  {
    if RequiredHolds(a, ctx) && RequiredHolds(b, ctx) {
      forall i | 0 <= i < |a + b|
        ensures HasField((a + b)[i], ctx)
      {
        if i >= |a| {
          assert (a + b)[i] == b[i - |a|];
        }
      }
    }
    if RequiredHolds(a + b, ctx) {
      forall i | 0 <= i < |a|
        ensures HasField(a[i], ctx)
      {
        assert (a + b)[i] == a[i];
      }
      forall i | 0 <= i < |b|
        ensures HasField(b[i], ctx)
      {
        assert (a + b)[|a| + i] == b[i];
      }
    }
  }

  /** Merging properties whose keys are disjoint conjoins them. */
  lemma MergeMeaning(p: Properties, q: Properties, ctx: Context)
    requires q.age.Some? ==> p.age.None?
    requires q.date.Some? ==> p.date.None?
    requires q.weather.Some? ==> p.weather.None?
    ensures PropertiesHold(Merge(p, q), ctx) <==> PropertiesHold(p, ctx) && PropertiesHold(q, ctx)
  {
  }

  /** A node holds exactly when the four parts of its schema do: its properties, its required key,
    * its `allOf` and its `anyOf`. */
  lemma NodeParts(n: Restriction, ctx: Context)
    requires Compilable(n)
    ensures NodeHolds(n, ctx) <==>
              PropertiesHold(NodeProperties(n), ctx) && RequiredHolds(FieldList(FirstField(n)), ctx) &&
              AllOfHolds(SubSchemaList(n.and), ctx) && AnyOfHolds(SubSchemaList(n.or), ctx)
  {
    RulesMeaning(n, ctx);
    AndMeaning(n.and, ctx);
    OrMeaning(n.or, ctx);
  }

  /** A step that writes only keys still free adds the node's meaning to the accumulator's. */
  lemma StepMeaning(acc: Accumulator, n: Restriction, ctx: Context)
    requires Compilable(n)
    requires n.age.Some? ==> acc.properties.age.None?
    requires n.date.Some? ==> acc.properties.date.None?
    requires n.weather.Some? ==> acc.properties.weather.None?
    requires HasItems(n.and) ==> acc.allOf == NoSchemas
    requires HasItems(n.or) ==> acc.anyOf == NoSchemas
    ensures AccHolds(Step(acc, n), ctx) <==> AccHolds(acc, ctx) && NodeHolds(n, ctx)
  {
    var next := Step(acc, n);
    AccParts(acc, ctx);
    AccParts(next, ctx);
    NodeParts(n, ctx);
    MergeMeaning(acc.properties, NodeProperties(n), ctx);
    RequiredAppend(acc.required, FieldList(FirstField(n)), ctx);
    assert AllOfHolds(next.allOf, ctx) <==> AllOfHolds(acc.allOf, ctx) && AllOfHolds(SubSchemaList(n.and), ctx);
    assert AnyOfHolds(next.anyOf, ctx) <==> AnyOfHolds(acc.anyOf, ctx) && AnyOfHolds(SubSchemaList(n.or), ctx);
  }

  /** A node that overlaps no earlier node finds its keys still free in the accumulator. */
  lemma FreeKeys(front: seq<Restriction>, last: Restriction)
    requires forall i :: 0 <= i < |front| ==> !Overlap(front[i], last)
    ensures last.age.Some? ==> Fold(front).properties.age.None?
    ensures last.date.Some? ==> Fold(front).properties.date.None?
    ensures last.weather.Some? ==> Fold(front).properties.weather.None?
    ensures HasItems(last.and) ==> Fold(front).allOf == NoSchemas
    ensures HasItems(last.or) ==> Fold(front).anyOf == NoSchemas
  {
  }

  /** Splitting off the last restriction keeps the hypotheses on the front and splits the conjunction. */
  lemma SplitLast(rs: seq<Restriction>, front: seq<Restriction>, ctx: Context)
    requires rs != [] && front == rs[..|rs| - 1]
    requires forall i :: 0 <= i < |rs| ==> Compilable(rs[i])
    requires Disjoint(rs)
    ensures forall i :: 0 <= i < |front| ==> Compilable(front[i])
    ensures Disjoint(front)
    ensures Compilable(rs[|rs| - 1])
    ensures forall i :: 0 <= i < |front| ==> !Overlap(front[i], rs[|rs| - 1])
    ensures AllHold(rs, ctx) <==> AllHold(front, ctx) && NodeHolds(rs[|rs| - 1], ctx)
  {
    assert forall i :: 0 <= i < |front| ==> front[i] == rs[i];
  }

  lemma {:induction false} FoldMeaning(rs: seq<Restriction>, ctx: Context)
    requires forall i :: 0 <= i < |rs| ==> Compilable(rs[i])
    requires Disjoint(rs)
    ensures AccHolds(Fold(rs), ctx) <==> AllHold(rs, ctx)
  {
    if rs != [] {
      var front, last := rs[..|rs| - 1], rs[|rs| - 1];
      SplitLast(rs, front, ctx);
      FoldMeaning(front, ctx);
      FreeKeys(front, last);
      StepMeaning(Fold(front), last, ctx);
    }
  }

  /** The compiled schema accepts a payload exactly when every restriction holds for it, for trees of
    * compilable nodes whose top level writes each key at most once. */
  lemma CompileCorrect(rs: seq<Restriction>, ctx: Context)
    requires forall i :: 0 <= i < |rs| ==> Compilable(rs[i])
    requires Disjoint(rs)
    ensures Satisfies(Compile(rs), ctx) <==> AllHold(rs, ctx)
  {
    FoldMeaning(rs, ctx);
  }

  // ---------------------------------------------------------------------------------------------
  // Where the compiled schema and the restrictions part ways, outside the hypotheses above.

  /** `temp: {eq: 0}` is accepted by the rule's validation, but `temp.eq` is falsy, so the schema puts
    * no bound on the temperature at all. */
  lemma ZeroTempIgnored(x: int)
    ensures var w := WeatherRule(RuleTemp(Rule(Undefined, Undefined, Num(0))), Str("Clear"));
            NewWeatherRule(w.temp, w.condition).Ok? &&
            WeatherHolds(ConvertWeather(Some(w)).value, WeatherReport("Clear", x)) &&
            (x != 0 ==> !WeatherRuleHolds(w, WeatherReport("Clear", x)))
  {
    assert Parse("Clear") == Some(Clear);
  }

  /** Only the first rule of a node is required, so a payload without the node's date passes its
    * sub-schema on the strength of the age alone. */
  lemma OnlyFirstRuleRequired(age: Rule, date: DateRule, ctx: Context)
    ensures var n := Restriction(Some(age), Some(date), None, Absent, Absent);
            SubSchema(n).required == Some([AgeField]) &&
            (ctx.age.Some? && ctx.date.None? && NumberHolds(ConvertAge(Some(age)).value, ctx.age.value) ==>
               Satisfies(SubSchema(n), ctx) && !NodeHolds(n, ctx))
  {
  }

  /** An empty `or` list compiles to no `anyOf` at all: it constrains nothing, where no node of it
    * can hold. */
  lemma EmptyOrAcceptsAll(ctx: Context)
    ensures var n := Restriction(None, None, None, Present([]), Absent);
            Satisfies(SubSchema(n), ctx) && !NodeHolds(n, ctx)
  {
  }

  lemma FoldAppend(rs: seq<Restriction>, n: Restriction)
    ensures Fold(rs + [n]) == Step(Fold(rs), n)
  {
    assert (rs + [n])[..|rs|] == rs;
  }

  /** A later top-level node with an `and` or `or` list replaces the `allOf` or `anyOf` of an earlier
    * one, and a later rule replaces the earlier property of the same key. */
  lemma LaterNodeReplaces(rs: seq<Restriction>, n: Restriction)
    ensures HasItems(n.and) ==> Compile(rs + [n]).allOf == SubSchemaList(n.and)
    ensures HasItems(n.or) ==> Compile(rs + [n]).anyOf == SubSchemaList(n.or)
    ensures n.age.Some? ==> Compile(rs + [n]).properties.value.age == ConvertAge(n.age)
    ensures n.date.Some? ==> Compile(rs + [n]).properties.value.date == ConvertDate(n.date)
    ensures n.weather.Some? ==> Compile(rs + [n]).properties.value.weather == ConvertWeather(n.weather)
  {
    FoldAppend(rs, n);
  }
}
