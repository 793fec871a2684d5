/** promo-code.entity.ts: a named discount guarded by a list of restriction nodes. */
module PromoCodes {
  import opened Wrappers
  import opened JsValues
  import opened Restrictions
  import opened Advantages

  datatype PromoCode = PromoCode(restrictions: RestrictionList, name: Value, advantage: Option<Advantage>)

  const NameRequiredMessage := "Name is required"
  const NameMessage := "Name must be a valid string"
  const AdvantageRequiredMessage := "Advantage is required"

  function NameErrors(v: Value): seq<string> {
    match v
    case Undefined => [NameRequiredMessage]
    case Num(_) => [NameMessage]
    case Str(_) => []
  }

  function AdvantageErrors(a: Option<Advantage>): seq<string> {
    match a
    case None => [AdvantageRequiredMessage]
    case Some(adv) => Advantages.FieldErrors(adv)
  }

  /** The decorator messages, by field order: restrictions (nested), name, advantage (nested). */
  function FieldErrors(p: PromoCode): seq<string> {
    ListErrors(p.restrictions) + NameErrors(p.name) + AdvantageErrors(p.advantage)
  }

  /** `new PromoCode({restrictions, name, advantage})`; restrictions are optional for the entity. */
  function NewPromoCode(restrictions: RestrictionList, name: Value, advantage: Option<Advantage>): (r: Result<PromoCode>)
    ensures r.Ok? ==> r.value == PromoCode(restrictions, name, advantage)
    ensures r.Ok? <==>
              ListErrors(restrictions) == [] && name.Str? && advantage.Some? && advantage.value.percent.Num?
    ensures NameRequiredMessage in Messages(r) <==> name == Undefined
    ensures NameMessage in Messages(r) <==> name.Num?
    ensures AdvantageRequiredMessage in Messages(r) <==> advantage.None?
  {
    ListMessagesAreDecorators(restrictions);
    Validated(PromoCode(restrictions, name, advantage), FieldErrors(PromoCode(restrictions, name, advantage)))
  }
}
