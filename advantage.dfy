/** advantage.ts: the discount a promo code grants. */
module Advantages {
  import opened Wrappers
  import opened JsValues

  datatype Advantage = Advantage(percent: Value)

  const PercentMessage := "Percent must be a valid number"
  const PercentRequiredMessage := "percent should not be null or undefined"

  /** `@IsDefined` (default message), then `@IsNumber` once the value is present. */
  function FieldErrors(a: Advantage): seq<string> {
    match a.percent
    case Undefined => [PercentRequiredMessage]
    case Str(_) => [PercentMessage]
    case Num(_) => []
  }

  /** `new Advantage({percent})`. */
  function NewAdvantage(percent: Value): (r: Result<Advantage>)
    ensures r.Ok? <==> percent.Num?
    ensures r.Ok? ==> r.value == Advantage(percent)
    ensures percent == Undefined ==> r == Err(DomainValidationError([PercentRequiredMessage]))
    ensures percent.Str? ==> r == Err(DomainValidationError([PercentMessage]))
  {
    Validated(Advantage(percent), FieldErrors(Advantage(percent)))
  }
}
