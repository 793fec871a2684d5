/** create-promo-code.command.ts: turns a flat creation command into a promo code and stores it. */
module CreatePromoCode {
  import opened Wrappers
  import opened JsValues
  import opened Rules
  import opened DateRules
  import opened WeatherRules
  import opened Restrictions
  import opened Advantages
  import opened PromoCodes
  import opened FakeDb

  /** `{gt?, lt?, eq?}` as received. */
  datatype RuleInput = RuleInput(gt: Value, lt: Value, eq: Value)

  /** `{before?, after?}` as received. */
  datatype DateInput = DateInput(before: Value, after: Value)

  /** `{is, temp}` as received; `condition` is the `is` field and `temp` may be left out. */
  datatype WeatherInput = WeatherInput(condition: Value, temp: Option<RuleInput>)

  /** An element of an `and` / `or` list: `null`, or an object with any of the five keys. */
  datatype Entry =
    | NullEntry
    | Entry(age: Option<RuleInput>, date: Option<DateInput>, weather: Option<WeatherInput>,
            and: EntryList, or: EntryList)

  /** An optional `and` / `or` list. */
  datatype EntryList = NoEntries | Entries(items: seq<Entry>)

  /** `CreatePromoCodeCommand`; `percent` is the `advantage.percent` field. */
  datatype CreatePromoCodeCommand = CreatePromoCodeCommand(
    name: Value, percent: Value,
    age: Option<RuleInput>, date: Option<DateInput>, weather: Option<WeatherInput>,
    and: EntryList, or: EntryList)

  const DuplicateMessage := "This promocode name already exist"

  /** `list?.length` is truthy. */
  predicate NonEmpty(l: EntryList) {
    l.Entries? && |l.items| > 0
  }

  // ---- The restriction nodes the handler builds -------------------------------------------------

  function AgeNode(i: RuleInput): Result<Restriction> {
    var rule :- NewRule(i.gt, i.lt, i.eq);
    NewRestriction(Some(rule), None, None, Absent, Absent)
  }

  function DateNode(i: DateInput): Result<Restriction> {
    var rule :- NewDateRule(i.before, i.after);
    NewRestriction(None, Some(rule), None, Absent, Absent)
  }

  /** A missing `temp` becomes `new Rule(undefined)`, a rule with no field, which is accepted. */
  function WeatherNode(w: WeatherInput): Result<Restriction> {
    var temp :- match w.temp
                case None => NewRule(Undefined, Undefined, Undefined)
                case Some(t) => NewRule(t.gt, t.lt, t.eq);
    var rule :- NewWeatherRule(RuleTemp(temp), w.condition);
    NewRestriction(None, None, Some(rule), Absent, Absent)
  }

  function AndNode(nodes: seq<Restriction>): Result<Restriction> {
    NewRestriction(None, None, None, Absent, Present(nodes))
  }

  function OrNode(nodes: seq<Restriction>): Result<Restriction> {
    NewRestriction(None, None, None, Present(nodes), Absent)
  }

  /** Two builders in sequence: the first failure wins, otherwise their nodes are concatenated. */
  function Then(x: Result<seq<Restriction>>, y: Result<seq<Restriction>>): (r: Result<seq<Restriction>>)
    ensures r.Ok? <==> x.Ok? && y.Ok?
    ensures r.Ok? ==> r.value == x.value + y.value
    ensures x.Err? ==> r == x
    ensures x.Ok? && y.Err? ==> r == y
    ensures y == Ok([]) ==> r == x
  {
    if x.Err? then x
    else if y.Err? then y
    else
      assert y.value == [] ==> x.value + y.value == x.value;
      Ok(x.value + y.value)
  }

  function AgePart(o: Option<RuleInput>): Result<seq<Restriction>> {
    match o
    case None => Ok([])
    case Some(i) => var n :- AgeNode(i); Ok([n])
  }

  function DatePart(o: Option<DateInput>): Result<seq<Restriction>> {
    match o
    case None => Ok([])
    case Some(i) => var n :- DateNode(i); Ok([n])
  }

  function WeatherPart(o: Option<WeatherInput>): Result<seq<Restriction>> {
    match o
    case None => Ok([])
    case Some(w) => var n :- WeatherNode(w); Ok([n])
  }

  function AndPart(l: EntryList): Result<seq<Restriction>>
    decreases l, 2
  {
    if NonEmpty(l) then
      var sub :- BuildEntries(l.items);
      var n :- AndNode(sub);
      Ok([n])
    else Ok([])
  }

  function OrPart(l: EntryList): Result<seq<Restriction>>
    decreases l, 2
  {
    if NonEmpty(l) then
      var sub :- BuildEntries(l.items);
      var n :- OrNode(sub);
      Ok([n])
    else Ok([])
  }

  /** What `setRecursiveOperators` pushes for one list entry, in its order: and, or, age, date, weather.
    * Reading a key of a `null` entry is a TypeError, which the handler reports as an unknown error. */
  function BuildEntry(e: Entry): Result<seq<Restriction>>
    decreases e, 1
  {
    match e
    case NullEntry => Err(UnknownError)
    case Entry(age, date, weather, and, or) =>
      Then(Then(Then(Then(AndPart(and), OrPart(or)), AgePart(age)), DatePart(date)), WeatherPart(weather))
  }

  /** `setRecursiveOperators(list)`: the entries' nodes, concatenated in list order; the first failure wins. */
  function BuildEntries(items: seq<Entry>): Result<seq<Restriction>>
    decreases items, 0
  {
    if items == [] then Ok([]) else Then(BuildEntry(items[0]), BuildEntries(items[1..]))
  }

  /** The top-level nodes `execute` pushes, in its order: age, date, weather, and, or. */
  function BuildRestrictions(c: CreatePromoCodeCommand): Result<seq<Restriction>> {
    Then(Then(Then(Then(AgePart(c.age), DatePart(c.date)), WeatherPart(c.weather)), AndPart(c.and)), OrPart(c.or))
  }

  /** The promo code `execute` builds: the advantage is constructed before the promo code itself. */
  function BuildPromoCode(c: CreatePromoCodeCommand): Result<PromoCode> {
    var restrictions :- BuildRestrictions(c);
    var advantage :- NewAdvantage(c.percent);
    NewPromoCode(Present(restrictions), c.name, Some(advantage))
  }

  /** Every node in `nodes` passes nested validation. */
  predicate AllPass(nodes: seq<Restriction>) {
    forall i :: 0 <= i < |nodes| ==> Restrictions.FieldErrors(nodes[i]) == []
  }

  lemma PassThen(x: Result<seq<Restriction>>, y: Result<seq<Restriction>>)
    requires x.Ok? ==> AllPass(x.value)
    requires y.Ok? ==> AllPass(y.value)
    ensures Then(x, y).Ok? ==> AllPass(Then(x, y).value)
  {
    if x.Ok? && y.Ok? {
      var n := x.value + y.value;
      forall i | 0 <= i < |n|
        ensures Restrictions.FieldErrors(n[i]) == []
      {
        if i >= |x.value| {
          assert n[i] == y.value[i - |x.value|];
        }
      }
    }
  }

  lemma AgePartPasses(age: Option<RuleInput>)
    ensures AgePart(age).Ok? ==> AllPass(AgePart(age).value)
  {
    if age.Some? && AgePart(age).Ok? {
      assert AgePart(age).value == [AgeNode(age.value).value];
    }
  }

  lemma DatePartPasses(date: Option<DateInput>)
    ensures DatePart(date).Ok? ==> AllPass(DatePart(date).value)
  {
    if date.Some? && DatePart(date).Ok? {
      assert DatePart(date).value == [DateNode(date.value).value];
    }
  }

  lemma WeatherPartPasses(weather: Option<WeatherInput>)
    ensures WeatherPart(weather).Ok? ==> AllPass(WeatherPart(weather).value)
  {
    if weather.Some? && WeatherPart(weather).Ok? {
      assert WeatherPart(weather).value == [WeatherNode(weather.value).value];
    }
  }

  lemma CombinatorPartsPass(and: EntryList, or: EntryList)
    ensures AndPart(and).Ok? ==> AllPass(AndPart(and).value)
    ensures OrPart(or).Ok? ==> AllPass(OrPart(or).value)
  {
    if NonEmpty(and) && AndPart(and).Ok? {
      assert AndPart(and).value == [AndNode(BuildEntries(and.items).value).value];
    }
    if NonEmpty(or) && OrPart(or).Ok? {
      assert OrPart(or).value == [OrNode(BuildEntries(or.items).value).value];
    }
  }

  /** The top-level nodes `execute` builds pass nested validation, each having come out of a restriction
    * constructor; so `new PromoCode` never rejects them. */
  lemma BuiltNodesPass(c: CreatePromoCodeCommand)
    ensures BuildRestrictions(c).Ok? ==> ListErrors(Present(BuildRestrictions(c).value)) == []
  {
    var g, d, w, a, o := AgePart(c.age), DatePart(c.date), WeatherPart(c.weather), AndPart(c.and), OrPart(c.or);
    AgePartPasses(c.age);
    DatePartPasses(c.date);
    WeatherPartPasses(c.weather);
    CombinatorPartsPass(c.and, c.or);
    PassThen(g, d);
    PassThen(Then(g, d), w);
    PassThen(Then(Then(g, d), w), a);
    PassThen(Then(Then(Then(g, d), w), a), o);
    if BuildRestrictions(c).Ok? {
      ItemsErrorsEmpty(BuildRestrictions(c).value);
    }
  }

  /** What `execute` returns against a store holding `codes`. */
  function CreateOutcome(codes: seq<PromoCode>, c: CreatePromoCodeCommand): (r: Result<PromoCode>)
    ensures FindFirst(codes, c.name).Some? ==> r == Err(DomainValidationError([DuplicateMessage]))
    ensures r.Ok? ==> FindFirst(codes, c.name).None?
    ensures r.Ok? ==> r.value.name == c.name && c.name.Str?
    ensures r.Ok? ==> r.value.advantage == Some(Advantage(c.percent)) && c.percent.Num?
    ensures r.Ok? ==> r.value.restrictions.Present? && ListErrors(r.value.restrictions) == []
    ensures r.Ok? ==> BuildRestrictions(c).Ok? && r.value.restrictions == Present(BuildRestrictions(c).value)
    ensures FindFirst(codes, c.name).None? && BuildRestrictions(c).Err? ==> r == Err(BuildRestrictions(c).error)
    ensures FindFirst(codes, c.name).None? && BuildRestrictions(c).Ok? && NewAdvantage(c.percent).Err? ==>
              r == Err(NewAdvantage(c.percent).error)
    ensures FindFirst(codes, c.name).None? && BuildRestrictions(c).Ok? && c.percent.Num? ==>
              r == NewPromoCode(Present(BuildRestrictions(c).value), c.name, Some(Advantage(c.percent)))
    ensures FindFirst(codes, c.name).None? && BuildRestrictions(c).Ok? && c.name.Str? && c.percent.Num? ==>
              r == Ok(PromoCode(Present(BuildRestrictions(c).value), c.name, Some(Advantage(c.percent))))
  {
    BuiltNodesPass(c);
    if FindFirst(codes, c.name).Some? then Err(DomainValidationError([DuplicateMessage]))
    else BuildPromoCode(c)
  }

  // ---- Sizes, for the termination of the recursive method ---------------------------------------

  function EntrySize(e: Entry): nat
    decreases e, 1
  {
    match e
    case NullEntry => 1
    case Entry(_, _, _, and, or) => 1 + ListSize(and) + ListSize(or)
  }

  function ListSize(l: EntryList): nat
    decreases l, 2
  {
    match l
    case NoEntries => 0
    case Entries(items) => EntriesSize(items)
  }

  function EntriesSize(items: seq<Entry>): nat
    decreases items, 0
  {
    if items == [] then 0 else EntrySize(items[0]) + EntriesSize(items[1..])
  }

  lemma {:induction false} EntrySizeBound(items: seq<Entry>, k: nat)
    requires k < |items|
    ensures EntrySize(items[k]) <= EntriesSize(items)
  {
    if k > 0 {
      EntrySizeBound(items[1..], k - 1);
      assert items[1..][k - 1] == items[k];
    }
  }

  // ---- Structure of the lists ---------------------------------------------------------------------

  lemma ThenAssociative(x: Result<seq<Restriction>>, y: Result<seq<Restriction>>, z: Result<seq<Restriction>>)
    ensures Then(Then(x, y), z) == Then(x, Then(y, z))
  {
    if x.Ok? && y.Ok? && z.Ok? {
      assert (x.value + y.value) + z.value == x.value + (y.value + z.value);
    }
  }

  /** `reduce` over a concatenation: the two halves in turn, the first failure winning. */
  lemma {:induction false} BuildEntriesAppend(s: seq<Entry>, t: seq<Entry>)
    ensures BuildEntries(s + t) == Then(BuildEntries(s), BuildEntries(t))
  {
    if s == [] {
      assert s + t == t;
      if BuildEntries(t).Ok? {
        assert [] + BuildEntries(t).value == BuildEntries(t).value;
      }
    } else {
      assert (s + t)[0] == s[0];
      assert (s + t)[1..] == s[1..] + t;
      BuildEntriesAppend(s[1..], t);
      ThenAssociative(BuildEntry(s[0]), BuildEntries(s[1..]), BuildEntries(t));
    }
  }

  /** One more entry of the list: the step of `reduce`. */
  lemma {:induction false} EntriesStep(s: seq<Entry>, i: nat)
    requires i < |s|
    ensures BuildEntries(s[..i + 1]) == Then(BuildEntries(s[..i]), BuildEntry(s[i]))
  {
    assert s[..i + 1] == s[..i] + [s[i]];
    BuildEntriesAppend(s[..i], [s[i]]);
    assert [s[i]][1..] == [];
    var e := BuildEntry(s[i]);
    assert BuildEntries([s[i]]) == Then(e, Ok([]));
    if e.Ok? {
      assert e.value + [] == e.value;
    }
  }

  /** Once a prefix of the list has failed, so has the list, with the same error. */
  lemma {:induction false} PrefixFailure(s: seq<Entry>, i: nat)
    requires i <= |s|
    ensures BuildEntries(s[..i]).Err? ==> BuildEntries(s) == BuildEntries(s[..i])
  {
    var front, back := s[..i], s[i..];
    assert s == front + back;
    BuildEntriesAppend(front, back);
  }

  /** The lists inside an entry are smaller than the entry. */
  lemma EntrySizeBelow(e: Entry)
    ensures e.Entry? && e.and.Entries? ==> EntriesSize(e.and.items) < EntrySize(e)
    ensures e.Entry? && e.or.Entries? ==> EntriesSize(e.or.items) < EntrySize(e)
  {
  }

  /** Pushing an entry's parts one by one onto an accumulator is the accumulator followed by the entry. */
  lemma EntryAfterPrefix(acc: seq<Restriction>, e: Entry)
    requires e.Entry?
    ensures Then(Then(Then(Then(Then(Ok(acc), AndPart(e.and)), OrPart(e.or)), AgePart(e.age)), DatePart(e.date)),
                 WeatherPart(e.weather))
            == Then(Ok(acc), BuildEntry(e))
  {
    var a, o, g, d, w := AndPart(e.and), OrPart(e.or), AgePart(e.age), DatePart(e.date), WeatherPart(e.weather);
    ThenAssociative(Ok(acc), a, o);
    ThenAssociative(Ok(acc), Then(a, o), g);
    ThenAssociative(Ok(acc), Then(Then(a, o), g), d);
    ThenAssociative(Ok(acc), Then(Then(Then(a, o), g), d), w);
  }

  // ---- Shape of what is built -------------------------------------------------------------------

  /** The field a node built by the handler carries. */
  datatype Kind = AgeKind | DateKind | WeatherKind | AndKind | OrKind

  /** `n` carries the field `k` and no other. */
  predicate HasOnly(n: Restriction, k: Kind) {
    (n.age.Some? <==> k == AgeKind) && (n.date.Some? <==> k == DateKind) &&
    (n.weather.Some? <==> k == WeatherKind) && (n.and.Present? <==> k == AndKind) &&
    (n.or.Present? <==> k == OrKind)
  }

  predicate Shaped(nodes: seq<Restriction>, kinds: seq<Kind>) {
    |nodes| == |kinds| && forall i :: 0 <= i < |nodes| ==> HasOnly(nodes[i], kinds[i])
  }

  /** The kinds of node one list entry yields: and, or, age, date, weather, each only when present. */
  function EntryKinds(e: Entry): seq<Kind>
    requires e.Entry?
  {
    (if NonEmpty(e.and) then [AndKind] else []) + (if NonEmpty(e.or) then [OrKind] else [])
    + (if e.age.Some? then [AgeKind] else []) + (if e.date.Some? then [DateKind] else [])
    + (if e.weather.Some? then [WeatherKind] else [])
  }

  /** The kinds of top-level node a command yields: age, date, weather, and, or, each only when present. */
  function CommandKinds(c: CreatePromoCodeCommand): seq<Kind> {
    (if c.age.Some? then [AgeKind] else []) + (if c.date.Some? then [DateKind] else [])
    + (if c.weather.Some? then [WeatherKind] else [])
    + (if NonEmpty(c.and) then [AndKind] else []) + (if NonEmpty(c.or) then [OrKind] else [])
  }

  lemma ShapedThen(x: Result<seq<Restriction>>, y: Result<seq<Restriction>>, kx: seq<Kind>, ky: seq<Kind>)
    requires x.Ok? ==> Shaped(x.value, kx)
    requires y.Ok? ==> Shaped(y.value, ky)
    ensures Then(x, y).Ok? ==> Shaped(Then(x, y).value, kx + ky)
  {
    if x.Ok? && y.Ok? {
      var n := x.value + y.value;
      forall i | 0 <= i < |n|
        ensures HasOnly(n[i], (kx + ky)[i])
      {
        if i < |x.value| {
          assert n[i] == x.value[i];
        } else {
          assert n[i] == y.value[i - |x.value|];
        }
      }
    }
  }

  lemma AndPartShape(l: EntryList)
    ensures AndPart(l).Ok? ==> Shaped(AndPart(l).value, if NonEmpty(l) then [AndKind] else [])
  {
  }

  lemma OrPartShape(l: EntryList)
    ensures OrPart(l).Ok? ==> Shaped(OrPart(l).value, if NonEmpty(l) then [OrKind] else [])
  {
  }

  lemma AgePartShape(age: Option<RuleInput>)
    ensures AgePart(age).Ok? ==> Shaped(AgePart(age).value, if age.Some? then [AgeKind] else [])
  {
    if age.Some? && AgePart(age).Ok? {
      var n := AgeNode(age.value);
      assert AgePart(age).value == [n.value];
    }
  }

  lemma DatePartShape(date: Option<DateInput>)
    ensures DatePart(date).Ok? ==> Shaped(DatePart(date).value, if date.Some? then [DateKind] else [])
  {
    if date.Some? && DatePart(date).Ok? {
      var n := DateNode(date.value);
      assert DatePart(date).value == [n.value];
    }
  }

  lemma WeatherPartShape(weather: Option<WeatherInput>)
    ensures WeatherPart(weather).Ok? ==> Shaped(WeatherPart(weather).value, if weather.Some? then [WeatherKind] else [])
  {
    if weather.Some? && WeatherPart(weather).Ok? {
      var n := WeatherNode(weather.value);
      assert WeatherPart(weather).value == [n.value];
    }
  }

  /** Each entry becomes one single-field sibling per populated key, in the order and, or, age, date,
    * weather; an entry with both `age` and `weather` becomes two siblings. */
  lemma EntryShape(e: Entry)
    requires e.Entry?
    ensures BuildEntry(e).Ok? ==> Shaped(BuildEntry(e).value, EntryKinds(e))
  {
    var ka := if NonEmpty(e.and) then [AndKind] else [];
    var ko := if NonEmpty(e.or) then [OrKind] else [];
    var kg := if e.age.Some? then [AgeKind] else [];
    var kd := if e.date.Some? then [DateKind] else [];
    var kw := if e.weather.Some? then [WeatherKind] else [];
    var a, o, g, d, w := AndPart(e.and), OrPart(e.or), AgePart(e.age), DatePart(e.date), WeatherPart(e.weather);
    AndPartShape(e.and);
    OrPartShape(e.or);
    AgePartShape(e.age);
    DatePartShape(e.date);
    WeatherPartShape(e.weather);
    ShapedThen(a, o, ka, ko);
    ShapedThen(Then(a, o), g, ka + ko, kg);
    ShapedThen(Then(Then(a, o), g), d, ka + ko + kg, kd);
    ShapedThen(Then(Then(Then(a, o), g), d), w, ka + ko + kg + kd, kw);
    assert BuildEntry(e) == Then(Then(Then(Then(a, o), g), d), w);
    assert EntryKinds(e) == ka + ko + kg + kd + kw;
  }

  /** Top-level nodes are single-field and appended in the order age, date, weather, and, or; a missing
    * or empty list and a missing rule yield no node. */
  lemma CommandShape(c: CreatePromoCodeCommand)
    ensures BuildRestrictions(c).Ok? ==> Shaped(BuildRestrictions(c).value, CommandKinds(c))
  {
    var kg := if c.age.Some? then [AgeKind] else [];
    var kd := if c.date.Some? then [DateKind] else [];
    var kw := if c.weather.Some? then [WeatherKind] else [];
    var ka := if NonEmpty(c.and) then [AndKind] else [];
    var ko := if NonEmpty(c.or) then [OrKind] else [];
    var g, d, w, a, o := AgePart(c.age), DatePart(c.date), WeatherPart(c.weather), AndPart(c.and), OrPart(c.or);
    AndPartShape(c.and);
    OrPartShape(c.or);
    AgePartShape(c.age);
    DatePartShape(c.date);
    WeatherPartShape(c.weather);
    ShapedThen(g, d, kg, kd);
    ShapedThen(Then(g, d), w, kg + kd, kw);
    ShapedThen(Then(Then(g, d), w), a, kg + kd + kw, ka);
    ShapedThen(Then(Then(Then(g, d), w), a), o, kg + kd + kw + ka, ko);
  }

  /** Every node of the tree carries exactly one field. */
  predicate Canonical(n: Restriction)
    decreases n, 1
  {
    (HasOnly(n, AgeKind) || HasOnly(n, DateKind) || HasOnly(n, WeatherKind) ||
     HasOnly(n, AndKind) || HasOnly(n, OrKind)) &&
    (n.and.Present? ==> AllCanonical(n.and.items)) &&
    (n.or.Present? ==> AllCanonical(n.or.items))
  }

  predicate AllCanonical(nodes: seq<Restriction>)
    decreases nodes, 0
  {
    forall i :: 0 <= i < |nodes| ==> Canonical(nodes[i])
  }

  lemma CanonicalThen(x: Result<seq<Restriction>>, y: Result<seq<Restriction>>)
    requires x.Ok? ==> AllCanonical(x.value)
    requires y.Ok? ==> AllCanonical(y.value)
    ensures Then(x, y).Ok? ==> AllCanonical(Then(x, y).value)
  {
    if x.Ok? && y.Ok? {
      var n := x.value + y.value;
      forall i | 0 <= i < |n|
        ensures Canonical(n[i])
      {
        if i < |x.value| {
          assert n[i] == x.value[i];
        } else {
          assert n[i] == y.value[i - |x.value|];
        }
      }
    }
  }

  lemma AndPartCanonical(l: EntryList)
    requires NonEmpty(l) && BuildEntries(l.items).Ok? ==> AllCanonical(BuildEntries(l.items).value)
    ensures AndPart(l).Ok? ==> AllCanonical(AndPart(l).value)
  {
    AndPartShape(l);
    if NonEmpty(l) && AndPart(l).Ok? {
      var node := AndPart(l).value[0];
      assert node.and.items == BuildEntries(l.items).value;
      assert Canonical(node);
    }
  }

  lemma OrPartCanonical(l: EntryList)
    requires NonEmpty(l) && BuildEntries(l.items).Ok? ==> AllCanonical(BuildEntries(l.items).value)
    ensures OrPart(l).Ok? ==> AllCanonical(OrPart(l).value)
  {
    OrPartShape(l);
    if NonEmpty(l) && OrPart(l).Ok? {
      var node := OrPart(l).value[0];
      assert node.or.items == BuildEntries(l.items).value;
      assert Canonical(node);
    }
  }

  lemma SimplePartsCanonical(age: Option<RuleInput>, date: Option<DateInput>, weather: Option<WeatherInput>)
    ensures AgePart(age).Ok? ==> AllCanonical(AgePart(age).value)
    ensures DatePart(date).Ok? ==> AllCanonical(DatePart(date).value)
    ensures WeatherPart(weather).Ok? ==> AllCanonical(WeatherPart(weather).value)
  {
    AgePartCanonical(age);
    DatePartCanonical(date);
    WeatherPartCanonical(weather);
  }

  lemma AgePartCanonical(age: Option<RuleInput>)
    ensures AgePart(age).Ok? ==> AllCanonical(AgePart(age).value)
  {
    AgePartShape(age);
    if AgePart(age).Ok? && age.Some? {
      assert Canonical(AgePart(age).value[0]);
    }
  }

  lemma DatePartCanonical(date: Option<DateInput>)
    ensures DatePart(date).Ok? ==> AllCanonical(DatePart(date).value)
  {
    DatePartShape(date);
    if DatePart(date).Ok? && date.Some? {
      assert Canonical(DatePart(date).value[0]);
    }
  }

  lemma WeatherPartCanonical(weather: Option<WeatherInput>)
    ensures WeatherPart(weather).Ok? ==> AllCanonical(WeatherPart(weather).value)
  {
    WeatherPartShape(weather);
    if WeatherPart(weather).Ok? && weather.Some? {
      assert Canonical(WeatherPart(weather).value[0]);
    }
  }

  /** The whole tree the handler builds, at every depth, is made of single-field nodes. */
  lemma {:induction false} EntryCanonical(e: Entry)
    ensures BuildEntry(e).Ok? ==> AllCanonical(BuildEntry(e).value)
    decreases e, 1
  {
    if e.Entry? {
      var a, o, g, d, w := AndPart(e.and), OrPart(e.or), AgePart(e.age), DatePart(e.date), WeatherPart(e.weather);
      if NonEmpty(e.and) {
        EntriesCanonical(e.and.items);
      }
      if NonEmpty(e.or) {
        EntriesCanonical(e.or.items);
      }
      AndPartCanonical(e.and);
      OrPartCanonical(e.or);
      SimplePartsCanonical(e.age, e.date, e.weather);
      CanonicalThen(a, o);
      CanonicalThen(Then(a, o), g);
      CanonicalThen(Then(Then(a, o), g), d);
      CanonicalThen(Then(Then(Then(a, o), g), d), w);
    }
  }

  lemma {:induction false} EntriesCanonical(items: seq<Entry>)
    ensures BuildEntries(items).Ok? ==> AllCanonical(BuildEntries(items).value)
    decreases items, 0
  {
    if items != [] {
      EntryCanonical(items[0]);
      EntriesCanonical(items[1..]);
      CanonicalThen(BuildEntry(items[0]), BuildEntries(items[1..]));
    }
  }

  lemma CommandCanonical(c: CreatePromoCodeCommand)
    ensures BuildRestrictions(c).Ok? ==> AllCanonical(BuildRestrictions(c).value)
  {
    var g, d, w, a, o := AgePart(c.age), DatePart(c.date), WeatherPart(c.weather), AndPart(c.and), OrPart(c.or);
    if NonEmpty(c.and) {
      EntriesCanonical(c.and.items);
    }
    if NonEmpty(c.or) {
      EntriesCanonical(c.or.items);
    }
    AndPartCanonical(c.and);
    OrPartCanonical(c.or);
    SimplePartsCanonical(c.age, c.date, c.weather);
    CanonicalThen(g, d);
    CanonicalThen(Then(g, d), w);
    CanonicalThen(Then(Then(g, d), w), a);
    CanonicalThen(Then(Then(Then(g, d), w), a), o);
  }

  /** A `null` anywhere in a list fails the whole list: no partial tree is ever returned. */
  lemma {:induction false} NullEntryFails(items: seq<Entry>, k: nat)
    requires k < |items| && items[k] == NullEntry
    ensures BuildEntries(items).Err?
  {
    if k == 0 {
      assert BuildEntry(items[0]).Err?;
    } else {
      assert items[1..][k - 1] == items[k];
      NullEntryFails(items[1..], k - 1);
    }
  }

  // ---- The store ----------------------------------------------------------------------------------

  /** No two stored codes share a name. */
  predicate UniqueNames(codes: seq<PromoCode>) {
    forall i, j :: 0 <= i < j < |codes| ==> codes[i].name != codes[j].name
  }

  /** A successful creation is found again by its name, and the store keeps unique names. */
  lemma CreateKeepsNamesUnique(codes: seq<PromoCode>, c: CreatePromoCodeCommand)
    requires UniqueNames(codes)
    ensures CreateOutcome(codes, c).Ok? ==> UniqueNames(codes + [CreateOutcome(codes, c).value])
    ensures CreateOutcome(codes, c).Ok? ==>
              FindFirst(codes + [CreateOutcome(codes, c).value], c.name) == Some(CreateOutcome(codes, c).value)
  {
    var r := CreateOutcome(codes, c);
    if r.Ok? {
      FindFirstAppend(codes, r.value, c.name);
      var after := codes + [r.value];
      forall i, j | 0 <= i < j < |after|
        ensures after[i].name != after[j].name
      {
        if j == |codes| {
          assert after[i] == codes[i];
        } else {
          assert after[i] == codes[i] && after[j] == codes[j];
        }
      }
    }
  }

  /** An entry holding both `age` and `weather` becomes two sibling nodes, age first, each carrying
    * exactly the rule built from its input. */
  lemma AgeAndWeatherSplit(age: RuleInput, weather: WeatherInput)
    ensures AgeNode(age).Ok? && WeatherNode(weather).Ok? ==>
              BuildEntry(Entry(Some(age), None, Some(weather), NoEntries, NoEntries))
              == Ok([AgeNode(age).value, WeatherNode(weather).value])
  {
    if AgeNode(age).Ok? && WeatherNode(weather).Ok? {
      var g, w := AgeNode(age).value, WeatherNode(weather).value;
      assert AgePart(Some(age)) == Ok([g]);
      assert WeatherPart(Some(weather)) == Ok([w]);
      assert AndPart(NoEntries) == Ok([]) && OrPart(NoEntries) == Ok([]) && DatePart(None) == Ok([]);
      var ao := Then(AndPart(NoEntries), OrPart(NoEntries));
      assert ao == Ok([]);
      assert [] + [g] == [g];
      var aog := Then(ao, AgePart(Some(age)));
      assert aog == Ok([g]);
      var aogd := Then(aog, DatePart(None));
      assert aogd == Ok([g]);
      assert [g] + [w] == [g, w];
      assert Then(aogd, WeatherPart(Some(weather))) == Ok([g, w]);
    }
  }

  // ---- The handler ----------------------------------------------------------------------------------

  class CreatePromoCodeHandler {
    const fakeDBService: FakeDBService

    constructor(fakeDBService: FakeDBService)
      ensures this.fakeDBService == fakeDBService
    {
      this.fakeDBService := fakeDBService;
    }

    /** `execute(command)`: rejects a taken name, builds the restriction list by pushing one node per
      * present key, constructs the promo code and appends it to the store only when all that succeeded. */
    method Execute(c: CreatePromoCodeCommand) returns (r: Result<PromoCode>)
      modifies fakeDBService
      ensures r == CreateOutcome(old(fakeDBService.promoCodes), c)
      ensures fakeDBService.promoCodes ==
                if r.Ok? then old(fakeDBService.promoCodes) + [r.value] else old(fakeDBService.promoCodes)
    {
      var promoCodeInDB := fakeDBService.FindPromoCode(c.name);
      if promoCodeInDB.Some? {
        return Err(DomainValidationError([DuplicateMessage]));
      }
      var restrictions :- PushRestrictions(c);
      var advantage :- NewAdvantage(c.percent);
      var promoCode :- NewPromoCode(Present(restrictions), c.name, Some(advantage));
      fakeDBService.AddPromoCode(promoCode);
      return Ok(promoCode);
    }

    /** The pushes at the start of `execute`'s `try` block: one node per present key of the command. */
    static method PushRestrictions(c: CreatePromoCodeCommand) returns (r: Result<seq<Restriction>>)
      ensures r == BuildRestrictions(c)
    {
      var restrictions: seq<Restriction> := [];
      if c.age.Some? {
        var node :- AgeNode(c.age.value);
        restrictions := restrictions + [node];
        assert restrictions == [node];
      }
      ghost var stage := AgePart(c.age);
      assert stage == Ok(restrictions);
      if c.date.Some? {
        var node :- DateNode(c.date.value);
        restrictions := restrictions + [node];
      }
      stage := Then(stage, DatePart(c.date));
      assert stage == Ok(restrictions);
      if c.weather.Some? {
        var node :- WeatherNode(c.weather.value);
        restrictions := restrictions + [node];
      }
      stage := Then(stage, WeatherPart(c.weather));
      assert stage == Ok(restrictions);
      if NonEmpty(c.and) {
        var sub :- SetRecursiveOperators(c.and.items);
        var node :- AndNode(sub);
        restrictions := restrictions + [node];
      }
      stage := Then(stage, AndPart(c.and));
      assert stage == Ok(restrictions);
      if NonEmpty(c.or) {
        var sub :- SetRecursiveOperators(c.or.items);
        var node :- OrNode(sub);
        restrictions := restrictions + [node];
      }
      stage := Then(stage, OrPart(c.or));
      assert stage == Ok(restrictions);
      return Ok(restrictions);
    }

    /** `setRecursiveOperators(operators)`: a `reduce` over the list with an initially empty accumulator. */
    static method SetRecursiveOperators(operators: seq<Entry>) returns (r: Result<seq<Restriction>>)
      ensures r == BuildEntries(operators)
      decreases EntriesSize(operators), 1
    {
      var operatorAcc: seq<Restriction> := [];
      var i := 0;
      while i < |operators|
        invariant 0 <= i <= |operators|
        invariant BuildEntries(operators[..i]) == Ok(operatorAcc)
      {
        EntriesStep(operators, i);
        PrefixFailure(operators, i + 1);
        EntrySizeBound(operators, i);
        operatorAcc :- PushOperator(operatorAcc, operators[i]);
        i := i + 1;
      }
      assert operators[..i] == operators;
      return Ok(operatorAcc);
    }

    /** The `reduce` callback: pushes the nodes of one entry onto the accumulator and returns it. */
    static method PushOperator(operatorAcc: seq<Restriction>, operator: Entry) returns (r: Result<seq<Restriction>>)
      ensures r == Then(Ok(operatorAcc), BuildEntry(operator))
      decreases EntrySize(operator), 0
    {
      if operator.NullEntry? {
        return Err(UnknownError);
      }
      var acc := operatorAcc;
      EntrySizeBelow(operator);
      if NonEmpty(operator.and) {
        var sub :- SetRecursiveOperators(operator.and.items);
        var node :- AndNode(sub);
        acc := acc + [node];
      }
      ghost var stage := Then(Ok(operatorAcc), AndPart(operator.and));
      assert stage == Ok(acc);
      if NonEmpty(operator.or) {
        var sub :- SetRecursiveOperators(operator.or.items);
        var node :- OrNode(sub);
        acc := acc + [node];
      }
      stage := Then(stage, OrPart(operator.or));
      assert stage == Ok(acc);
      r := PushRuleNodes(acc, operator.age, operator.date, operator.weather);
      EntryAfterPrefix(operatorAcc, operator);
    }

    /** The three rule pushes of the callback: age, date, then weather, each only when present. */
    static method PushRuleNodes(operatorAcc: seq<Restriction>, age: Option<RuleInput>, date: Option<DateInput>,
                                weather: Option<WeatherInput>) returns (r: Result<seq<Restriction>>)
      ensures r == Then(Then(Then(Ok(operatorAcc), AgePart(age)), DatePart(date)), WeatherPart(weather))
    {
      var acc := operatorAcc;
      if age.Some? {
        var node :- AgeNode(age.value);
        acc := acc + [node];
      }
      ghost var stage := Then(Ok(operatorAcc), AgePart(age));
      assert stage == Ok(acc);
      if date.Some? {
        var node :- DateNode(date.value);
        acc := acc + [node];
      }
      stage := Then(stage, DatePart(date));
      assert stage == Ok(acc);
      if weather.Some? {
        var node :- WeatherNode(weather.value);
        acc := acc + [node];
      }
      stage := Then(stage, WeatherPart(weather));
      assert stage == Ok(acc);
      return Ok(acc);
    }
  }
}
