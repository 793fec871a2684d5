/** rule.ts: a numeric constraint, either an exact value (`eq`) or a range (`gt` .. `lt`). */
module Rules {
  import opened Wrappers
  import opened JsValues

  /** The fields keep the values they were given; a constructed rule may still hold a non-number where its
    * check was switched off by `@ValidateIf`. */
  datatype Rule = Rule(gt: Value, lt: Value, eq: Value)

  const GtMessage := "Gt must be a valid number"
  const LtMessage := "Lt must be a valid number"
  const EqMessage := "Eq must be a valid number"
  const ConflictMessage := "Cannot use eq and lt/gt at the same time"

  /** The decorator checks, in declaration order; nested validation of a rule runs these and nothing else.
    * `gt` and `lt` are checked only while `eq` is undefined, `eq` only while both bounds are. The two
    * `@IsNumber` on `gt` share one constraint name, so a failure is reported once, with the custom
    * message. */
  function FieldErrors(r: Rule): seq<string> {
    (if r.eq == Undefined && !NumberOrMissing(r.gt) then [GtMessage] else [])
    + (if r.eq == Undefined && !NumberOrMissing(r.lt) then [LtMessage] else [])
    + (if r.gt == Undefined && r.lt == Undefined && !NumberOrMissing(r.eq) then [EqMessage] else [])
  }

  /** The test in `validate()`, with JavaScript truthiness. */
  predicate EqWithBound(r: Rule) {
    Truthy(r.eq) && (Truthy(r.lt) || Truthy(r.gt))
  }

  /** What the constructor throws: the decorator messages, else the exclusivity message. */
  function Errors(r: Rule): seq<string> {
    if FieldErrors(r) != [] then FieldErrors(r)
    else if EqWithBound(r) then [ConflictMessage]
    else []
  }

  /** `new Rule({gt, lt, eq})`. */
  function NewRule(gt: Value, lt: Value, eq: Value): (r: Result<Rule>)
    ensures r.Ok? ==> r.value == Rule(gt, lt, eq)
    ensures Truthy(eq) && (Truthy(lt) || Truthy(gt)) ==> r.Err?
    ensures (GtMessage in Messages(r) <==> eq == Undefined && gt.Str?)
    ensures (LtMessage in Messages(r) <==> eq == Undefined && lt.Str?)
    ensures (EqMessage in Messages(r) <==> gt == Undefined && lt == Undefined && eq.Str?)
    ensures Truthy(eq) && (Truthy(lt) || Truthy(gt)) ==> r == Err(DomainValidationError([ConflictMessage]))
    ensures r.Ok? <==> FieldErrors(Rule(gt, lt, eq)) == [] && !(Truthy(eq) && (Truthy(lt) || Truthy(gt)))
    ensures !gt.Str? && !lt.Str? && !eq.Str? && !(Truthy(eq) && (Truthy(lt) || Truthy(gt))) ==> r.Ok?
  {
    Validated(Rule(gt, lt, eq), Errors(Rule(gt, lt, eq)))
  }

  /** `eq` alone, `gt` alone, `lt` alone and `lt` with `gt` all construct, to exactly the input. */
  lemma SingleFieldsAccepted(n: int, m: int)
    ensures NewRule(Undefined, Undefined, Num(n)) == Ok(Rule(Undefined, Undefined, Num(n)))
    ensures NewRule(Num(n), Undefined, Undefined) == Ok(Rule(Num(n), Undefined, Undefined))
    ensures NewRule(Undefined, Num(n), Undefined) == Ok(Rule(Undefined, Num(n), Undefined))
    ensures NewRule(Num(m), Num(n), Undefined) == Ok(Rule(Num(m), Num(n), Undefined))
  {
  }

  /** A string `eq` beside a bound switches every decorator check off, so only the exclusivity message is
    * thrown. */
  lemma StringEqWithBoundConflicts(n: int, text: string)
    requires n != 0 && text != ""
    ensures NewRule(Undefined, Num(n), Str(text)) == Err(DomainValidationError([ConflictMessage]))
    ensures NewRule(Num(n), Undefined, Str(text)) == Err(DomainValidationError([ConflictMessage]))
  {
  }

  /** The exclusivity test uses truthiness, so a zero on either side lets `eq` and a bound coexist. */
  lemma ZeroEscapesExclusivity(n: int)
    ensures NewRule(Num(n), Undefined, Num(0)).Ok?
    ensures NewRule(Undefined, Num(n), Num(0)).Ok?
    ensures NewRule(Num(0), Undefined, Num(n)).Ok?
    ensures NewRule(Num(0), Num(0), Num(n)).Ok?
  {
  }

  /** A rule the constructor accepted passes the decorator checks again when validated as a nested field. */
  lemma ConstructedPassesNested(gt: Value, lt: Value, eq: Value)
    requires NewRule(gt, lt, eq).Ok?
    ensures FieldErrors(NewRule(gt, lt, eq).value) == []
  {
  }
}
