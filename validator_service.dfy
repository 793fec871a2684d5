/** validator.service.ts: compile a promo code's restrictions, validate the payload, and turn Ajv's
  * errors into one message. */
module ValidatorService {
  import opened Wrappers
  import opened JsValues
  import Restrictions
  import Rules
  import opened PromoCodes
  import opened JsonSchemas
  import opened AjvRestrictions
  import opened RestrictionSemantics

  /** `Result.ok(true)`, `Result.err(new Error(message))`, or an exception out of `execute`. */
  datatype Verdict = Valid | Invalid(message: string) | Thrown

  const AnyOfReason := "One of the conditions is not fulfilled"
  const AllOfReason := "All the conditions must be fulfilled"

  /** The message an error contributes: fixed texts for the combinators, else Ajv's own message. */
  function Reason(e: SchemaError): string {
    if e.keyword == "anyOf" then AnyOfReason
    else if e.keyword == "allOf" then AllOfReason
    else e.message
  }

  function Reasons(errors: seq<SchemaError>): (reasons: seq<string>)
    ensures |reasons| == |errors|
    ensures forall i :: 0 <= i < |errors| ==> reasons[i] == Reason(errors[i])
  {
    if errors == [] then [] else [Reason(errors[0])] + Reasons(errors[1..])
  }

  /** What `execute(promoCode, payload)` returns: missing restrictions make `reduce` throw, a schema
    * with a bound of the wrong type or a repeated `required` key makes `ajv.compile` throw; otherwise the payload is valid or the reasons
    * are joined with commas. */
  function ValidationVerdict(p: PromoCode, ctx: Context): Verdict {
    if p.restrictions.Absent? then Thrown
    else
      var schema := Compile(p.restrictions.items);
      if !WellFormed(schema) then Thrown
      else
        var errors := Errors(schema, ctx);
        if errors == [] then Valid else Invalid(JoinComma(Reasons(errors)))
  }

  /** `execute`: builds the schema object, then validates. */
  method Execute(p: PromoCode, ctx: Context) returns (v: Verdict)
    ensures v == ValidationVerdict(p, ctx)
  {
    if p.restrictions.Absent? {
      return Thrown;
    }
    var ajvRestriction := new AjvRestriction(p.restrictions.items);
    var schema := ajvRestriction.schema;
    if !WellFormed(schema) {
      return Thrown;
    }
    var errors := Errors(schema, ctx);
    if |errors| > 0 {
      var reasons := MapReasons(errors);
      return Invalid(JoinComma(reasons));
    }
    return Valid;
  }

  /** `validate.errors.map(...)`. */
  method MapReasons(errors: seq<SchemaError>) returns (reasons: seq<string>)
    ensures reasons == Reasons(errors)
  {
    reasons := [];
    for i := 0 to |errors|
      invariant reasons == Reasons(errors[..i])
    {
      assert errors[..i + 1] == errors[..i] + [errors[i]];
      ReasonsAppend(errors[..i], errors[i]);
      reasons := reasons + [Reason(errors[i])];
    }
    assert errors[..|errors|] == errors;
  }

  lemma ReasonsAppend(errors: seq<SchemaError>, e: SchemaError)
    ensures Reasons(errors + [e]) == Reasons(errors) + [Reason(e)]
  {
    var r := Reasons(errors + [e]);
    assert |r| == |Reasons(errors) + [Reason(e)]|;
    forall i | 0 <= i < |r|
      ensures r[i] == (Reasons(errors) + [Reason(e)])[i]
    {
      assert (errors + [e])[i] == if i < |errors| then errors[i] else e;
    }
  }

  /** The verdict is `Valid` exactly when the schema compiles and the payload satisfies it. */
  lemma ValidIffSatisfies(p: PromoCode, ctx: Context)
    ensures ValidationVerdict(p, ctx) == Valid <==>
              p.restrictions.Present? && WellFormed(Compile(p.restrictions.items)) &&
              Satisfies(Compile(p.restrictions.items), ctx)
  {
    if p.restrictions.Present? {
      ErrorsEmptyIff(Compile(p.restrictions.items), ctx);
    }
  }

  /** A rejection lists, in its message, the reason of every error the evaluator raised. */
  lemma InvalidListsReasons(p: PromoCode, ctx: Context, k: nat)
    ensures ValidationVerdict(p, ctx).Invalid? && k < |Errors(Compile(p.restrictions.items), ctx)| ==>
              Contains(ValidationVerdict(p, ctx).message, Reason(Errors(Compile(p.restrictions.items), ctx)[k]))
  {
    if ValidationVerdict(p, ctx).Invalid? && k < |Errors(Compile(p.restrictions.items), ctx)| {
      JoinCommaContains(Reasons(Errors(Compile(p.restrictions.items), ctx)), k);
    }
  }

  /** Only the restrictions decide: the name and the advantage play no part. */
  lemma OnlyRestrictionsMatter(p: PromoCode, q: PromoCode, ctx: Context)
    ensures p.restrictions == q.restrictions ==> ValidationVerdict(p, ctx) == ValidationVerdict(q, ctx)
  {
  }

  /** Compilable rules yield a schema Ajv compiles. */
  lemma {:induction false} SubSchemaWellFormed(n: Restrictions.Restriction)
    requires Compilable(n)
    ensures WellFormed(SubSchema(n))
    decreases n
  {
    if n.and.Present? {
      forall i | 0 <= i < |n.and.items| {
        SubSchemaWellFormed(n.and.items[i]);
      }
    }
    if n.or.Present? {
      forall i | 0 <= i < |n.or.items| {
        SubSchemaWellFormed(n.or.items[i]);
      }
    }
  }

  lemma {:induction false} FoldWellFormed(rs: seq<Restrictions.Restriction>)
    requires forall i :: 0 <= i < |rs| ==> Compilable(rs[i])
    ensures PropertiesWellFormed(Fold(rs).properties)
    ensures Fold(rs).allOf.Schemas? ==> forall i :: 0 <= i < |Fold(rs).allOf.items| ==> WellFormed(Fold(rs).allOf.items[i])
    ensures Fold(rs).anyOf.Schemas? ==> forall i :: 0 <= i < |Fold(rs).anyOf.items| ==> WellFormed(Fold(rs).anyOf.items[i])
  {
    if rs != [] {
      var front, last := rs[..|rs| - 1], rs[|rs| - 1];
      assert forall i :: 0 <= i < |front| ==> front[i] == rs[i];
      FoldWellFormed(front);
      SubSchemaWellFormed(last);
    }
  }

  /** Top-level nodes that write each key at most once push each key onto `required` at most once. */
  lemma {:induction false} FoldRequiredNoRepeats(rs: seq<Restrictions.Restriction>)
    requires Disjoint(rs)
    ensures NoRepeats(Fold(rs).required)
  {
    if rs != [] {
      var front, last := rs[..|rs| - 1], rs[|rs| - 1];
      assert forall i :: 0 <= i < |front| ==> front[i] == rs[i];
      assert Disjoint(front);
      FoldRequiredNoRepeats(front);
      FreshKey(front, last);
      NoRepeatsAppend(Fold(front).required, FieldList(FirstField(last)));
      assert rs == front + [last];
    }
  }

  /** The key a node requires is one no earlier, non-overlapping node has pushed. */
  lemma FreshKey(front: seq<Restrictions.Restriction>, last: Restrictions.Restriction)
    requires forall i :: 0 <= i < |front| ==> !Overlap(front[i], last)
    ensures forall f :: f in FieldList(FirstField(last)) ==> f !in Fold(front).required
  {
    if last.age.Some? {
      assert forall i :: 0 <= i < |front| ==> front[i].age.None?;
    } else if last.date.Some? {
      assert forall i :: 0 <= i < |front| ==> front[i].date.None?;
    } else if last.weather.Some? {
      assert forall i :: 0 <= i < |front| ==> front[i].weather.None?;
    }
  }

  lemma NoRepeatsAppend(fs: seq<Field>, tail: seq<Field>)
    requires NoRepeats(fs) && |tail| <= 1
    requires forall f :: f in tail ==> f !in fs
    ensures NoRepeats(fs + tail)
  {
    forall i, j | 0 <= i < j < |fs + tail|
      ensures (fs + tail)[i] != (fs + tail)[j]
    {
      if j >= |fs| {
        assert (fs + tail)[j] in tail && (fs + tail)[i] == fs[i];
      }
    }
  }

  /** A repeated top-level key makes Ajv refuse the schema: two `{age: {eq: 40}}` nodes push `age`
    * onto `required` twice, which the draft-07 meta-schema rejects. */
  lemma RepeatedKeyThrows(ctx: Context)
    ensures var n := Restrictions.Restriction(Some(Rules.Rule(Undefined, Undefined, Num(40))), None, None,
                                              Restrictions.Absent, Restrictions.Absent);
            Compile([n, n]).required == Some([AgeField, AgeField]) &&
            ValidationVerdict(PromoCode(Restrictions.Present([n, n]), Str("twice"), None), ctx) == Thrown
  {
    var n := Restrictions.Restriction(Some(Rules.Rule(Undefined, Undefined, Num(40))), None, None,
                                      Restrictions.Absent, Restrictions.Absent);
    assert [n, n][..1] == [n];
    assert Fold([n, n]).required == [AgeField, AgeField];
    assert Compile([n, n]).required.value[0] == Compile([n, n]).required.value[1];
  }

  /** For promo codes whose restrictions the compiler renders faithfully, the verdict is `Valid`
    * exactly when every restriction holds for the payload. */
  lemma ValidIffRestrictionsHold(p: PromoCode, ctx: Context)
    ensures p.restrictions.Present? && Disjoint(p.restrictions.items) &&
            (forall i :: 0 <= i < |p.restrictions.items| ==> Compilable(p.restrictions.items[i])) ==>
              (ValidationVerdict(p, ctx) == Valid <==> AllHold(p.restrictions.items, ctx))
  {
    if p.restrictions.Present? && Disjoint(p.restrictions.items) &&
       (forall i :: 0 <= i < |p.restrictions.items| ==> Compilable(p.restrictions.items[i])) {
      var rs := p.restrictions.items;
      FoldWellFormed(rs);
      FoldRequiredNoRepeats(rs);
      assert WellFormed(Compile(rs));
      ValidIffSatisfies(p, ctx);
      CompileCorrect(rs, ctx);
    }
  }
}
