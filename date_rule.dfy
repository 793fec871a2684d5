/** date-rule.ts: a window of calendar dates, `after` .. `before`, either bound optional. */
module DateRules {
  import opened Wrappers
  import opened JsValues
  import opened IsoDates

  datatype DateRule = DateRule(before: Value, after: Value)

  const BeforeMessage := "Before must be a valid ISO 8601 date"
  const AfterMessage := "After must be a valid ISO 8601 date"
  const OrderMessage := "Before date cannot be later than After date"

  /** `@IsDateString({strict: true})` once missing values are skipped. */
  predicate DateOrMissing(v: Value) {
    v == Undefined || (v.Str? && IsDate(v.s))
  }

  function FieldErrors(d: DateRule): seq<string> {
    (if DateOrMissing(d.before) then [] else [BeforeMessage])
    + (if DateOrMissing(d.after) then [] else [AfterMessage])
  }

  /** The test in `validate()`: `new Date(before) < new Date(after)`, false when either is missing. */
  predicate Inverted(d: DateRule) {
    d.before.Str? && d.after.Str? && EarlierThan(d.before.s, d.after.s)
  }

  function Errors(d: DateRule): seq<string> {
    if FieldErrors(d) != [] then FieldErrors(d)
    else if Inverted(d) then [OrderMessage]
    else []
  }

  /** `new DateRule({before, after})`. The message says "later" where the test rejects an EARLIER
    * `before`; the model keeps the test as written. */
  function NewDateRule(before: Value, after: Value): (r: Result<DateRule>)
    ensures r.Ok? ==> r.value == DateRule(before, after)
    ensures r.Ok? <==>
              (DateOrMissing(before) && DateOrMissing(after) &&
               !(before.Str? && after.Str? && EarlierThan(before.s, after.s)))
    ensures (BeforeMessage in Messages(r) <==> !DateOrMissing(before))
    ensures (AfterMessage in Messages(r) <==> !DateOrMissing(after))
    ensures (DateOrMissing(before) && DateOrMissing(after) && before.Str? && after.Str? &&
             EarlierThan(before.s, after.s)) ==> r == Err(DomainValidationError([OrderMessage]))
  {
    Validated(DateRule(before, after), Errors(DateRule(before, after)))
  }

  /** A window whose two ends are the same day is accepted: the comparison is strict. */
  lemma SameDayAccepted(day: string)
    requires IsDate(day)
    ensures NewDateRule(Str(day), Str(day)) == Ok(DateRule(Str(day), Str(day)))
  {
    PrecedesTotal(ParseDate(day).value, ParseDate(day).value);
  }

  /** With a single bound the ordering test never fires. */
  lemma SingleBoundAccepted(day: string)
    requires IsDate(day)
    ensures NewDateRule(Str(day), Undefined) == Ok(DateRule(Str(day), Undefined))
    ensures NewDateRule(Undefined, Str(day)) == Ok(DateRule(Undefined, Str(day)))
  {
  }

  lemma ConstructedPassesNested(before: Value, after: Value)
    requires NewDateRule(before, after).Ok?
    ensures FieldErrors(NewDateRule(before, after).value) == []
  {
  }
}
