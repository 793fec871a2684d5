/** check-promo-code.query.ts: look a promo code up, build the payload from the clock, the query and
  * the weather service, and answer Accepted or Denied. The clock and the weather service are
  * parameters. */
module CheckPromoCode {
  import opened Wrappers
  import opened JsValues
  import opened Advantages
  import opened PromoCodes
  import opened FakeDb
  import opened JsonSchemas
  import opened RestrictionSemantics
  import opened ValidatorService
  import IsoDates

  datatype CheckPromoCodeQuery = CheckPromoCodeQuery(name: string, age: Option<int>, town: Option<string>)

  /** The `Result.ok` payloads: `{status: 'Denied', reasons, name}` or `{status: 'Accepted', name, advantage}`. */
  datatype CheckResult = Denied(reasons: string, name: string) | Accepted(name: string, advantage: Option<Advantage>)

  /** What the returned promise settles to: an answer, or a rejection (the weather service or
    * `ajv.compile` threw). */
  datatype Outcome = Answered(result: CheckResult) | Raised

  const NotFoundMessage := "No promoCode with this name was found"

  /** `new Date().toISOString().substring(0, 10)`, `now` being the ISO timestamp. */
  function Today(now: string): (day: string)
    ensures day <= now && |day| <= 10
    ensures |day| == 10 || day == now
  {
    if |now| >= 10 then now[..10] else now
  }

  /** For a timestamp as `toISOString` writes it, a calendar date, `T` and a time, the payload's date is
    * exactly that calendar date, so a date rule reads the same day back. */
  lemma TodayOfTimestamp(day: string, time: string)
    requires IsoDates.ParseDate(day).Some?
    ensures Today(day + "T" + time) == day
    ensures IsoDates.ParseDate(Today(day + "T" + time)) == IsoDates.ParseDate(day)
  {
    assert |day| == 10;
    assert (day + "T" + time)[..10] == day;
  }

  /** `if (query.age)`: an age of 0 is falsy and left out. */
  predicate HasAge(q: CheckPromoCodeQuery) {
    q.age.Some? && q.age.value != 0
  }

  /** `if (query.town)`: an empty town is falsy and left out. */
  predicate HasTown(q: CheckPromoCodeQuery) {
    q.town.Some? && q.town.value != ""
  }

  /** The payload, or `None` when the weather service throws; `weatherOf` is the service's answer for
    * a town. */
  function Payload(q: CheckPromoCodeQuery, now: string, weatherOf: string -> Option<WeatherReport>): Option<Context> {
    var base := Context(Some(Today(now)), if HasAge(q) then Some(q.age.value) else None, None);
    if !HasTown(q) then Some(base)
    else
      match weatherOf(q.town.value)
      case None => None
      case Some(report) => Some(base.(weather := Some(report)))
  }

  /** The answer to a query against the stored codes. */
  function CheckOutcome(codes: seq<PromoCode>, q: CheckPromoCodeQuery, now: string,
                        weatherOf: string -> Option<WeatherReport>): Outcome {
    match FindFirst(codes, Str(q.name))
    case None => Answered(Denied(NotFoundMessage, q.name))
    case Some(p) =>
      match Payload(q, now, weatherOf)
      case None => Raised
      case Some(ctx) =>
        match ValidationVerdict(p, ctx)
        case Thrown => Raised
        case Invalid(message) => Answered(Denied(message, q.name))
        case Valid => Answered(Accepted(q.name, p.advantage))
  }

  class CheckPromoCodeHandler {
    const fakeDBService: FakeDBService

    constructor(fakeDBService: FakeDBService)
      ensures this.fakeDBService == fakeDBService
    {
      this.fakeDBService := fakeDBService;
    }

    /** `execute(query)`. */
    method Execute(q: CheckPromoCodeQuery, now: string, weatherOf: string -> Option<WeatherReport>) returns (r: Outcome)
      ensures r == CheckOutcome(fakeDBService.promoCodes, q, now, weatherOf)
    {
      var promoCode := fakeDBService.FindPromoCode(Str(q.name));
      if promoCode.None? {
        return Answered(Denied(NotFoundMessage, q.name));
      }
      var payload := Context(Some(Today(now)), None, None);
      if q.age.Some? && q.age.value != 0 {
        payload := payload.(age := Some(q.age.value));
      }
      if q.town.Some? && q.town.value != "" {
        var weather := weatherOf(q.town.value);
        if weather.None? {
          return Raised;
        }
        payload := payload.(weather := Some(weather.value));
      }
      assert Payload(q, now, weatherOf) == Some(payload);
      var result := ValidatorService.Execute(promoCode.value, payload);
      match result
      case Thrown => return Raised;
      case Invalid(message) => return Answered(Denied(message, q.name));
      case Valid => return Answered(Accepted(q.name, promoCode.value.advantage));
    }
  }

  /** An unknown name is denied with the fixed message, whatever the clock and the weather. */
  lemma UnknownNameDenied(codes: seq<PromoCode>, q: CheckPromoCodeQuery, now: string,
                          weatherOf: string -> Option<WeatherReport>)
    ensures (forall k :: 0 <= k < |codes| ==> codes[k].name != Str(q.name)) ==>
              CheckOutcome(codes, q, now, weatherOf) == Answered(Denied(NotFoundMessage, q.name))
  {
  }

  /** An answer is Accepted exactly when a code of that name exists and the validator finds the
    * payload valid for the first such code; the advantage returned is that code's. */
  lemma AcceptedIffValid(codes: seq<PromoCode>, q: CheckPromoCodeQuery, now: string,
                         weatherOf: string -> Option<WeatherReport>)
    ensures CheckOutcome(codes, q, now, weatherOf).Answered? &&
            CheckOutcome(codes, q, now, weatherOf).result.Accepted? <==>
              FindFirst(codes, Str(q.name)).Some? && Payload(q, now, weatherOf).Some? &&
              ValidationVerdict(FindFirst(codes, Str(q.name)).value, Payload(q, now, weatherOf).value) == Valid
    ensures CheckOutcome(codes, q, now, weatherOf).Answered? &&
            CheckOutcome(codes, q, now, weatherOf).result.Accepted? ==>
              CheckOutcome(codes, q, now, weatherOf).result.advantage == FindFirst(codes, Str(q.name)).value.advantage
  {
  }

  /** A known name whose payload cannot be built (the weather service failed), or whose schema Ajv refuses
    * to compile, rejects the promise; one the validator finds invalid is denied with the validator's message
    * as reasons, under the query's name. */
  lemma FailureOutcomes(codes: seq<PromoCode>, q: CheckPromoCodeQuery, now: string,
                        weatherOf: string -> Option<WeatherReport>)
    ensures FindFirst(codes, Str(q.name)).Some? && Payload(q, now, weatherOf).None? ==>
              CheckOutcome(codes, q, now, weatherOf) == Raised
    ensures FindFirst(codes, Str(q.name)).Some? && Payload(q, now, weatherOf).Some? &&
            ValidationVerdict(FindFirst(codes, Str(q.name)).value, Payload(q, now, weatherOf).value) == Thrown ==>
              CheckOutcome(codes, q, now, weatherOf) == Raised
    ensures FindFirst(codes, Str(q.name)).Some? && Payload(q, now, weatherOf).Some? &&
            ValidationVerdict(FindFirst(codes, Str(q.name)).value, Payload(q, now, weatherOf).value).Invalid? ==>
              CheckOutcome(codes, q, now, weatherOf) ==
                Answered(Denied(ValidationVerdict(FindFirst(codes, Str(q.name)).value, Payload(q, now, weatherOf).value).message,
                                q.name))
    ensures CheckOutcome(codes, q, now, weatherOf) == Raised <==>
              FindFirst(codes, Str(q.name)).Some? &&
              (Payload(q, now, weatherOf).None? ||
               ValidationVerdict(FindFirst(codes, Str(q.name)).value, Payload(q, now, weatherOf).value) == Thrown)
  {
  }

  /** The payload: today's date always, the age only when truthy, the weather only for a truthy town. */
  lemma PayloadContents(q: CheckPromoCodeQuery, now: string, weatherOf: string -> Option<WeatherReport>)
    ensures Payload(q, now, weatherOf).Some? ==>
              var ctx := Payload(q, now, weatherOf).value;
              ctx.date == Some(Today(now)) &&
              (ctx.age.Some? <==> HasAge(q)) && (HasAge(q) ==> ctx.age == q.age) &&
              (ctx.weather.Some? <==> HasTown(q)) &&
              (HasTown(q) ==> ctx.weather == weatherOf(q.town.value))
    ensures Payload(q, now, weatherOf).None? <==> HasTown(q) && weatherOf(q.town.value).None?
  {
  }

  /** Without a truthy town the weather service is never consulted. */
  lemma NoTownNoWeather(codes: seq<PromoCode>, q: CheckPromoCodeQuery, now: string,
                        f: string -> Option<WeatherReport>, g: string -> Option<WeatherReport>)
    ensures !HasTown(q) ==> CheckOutcome(codes, q, now, f) == CheckOutcome(codes, q, now, g)
  {
  }

  /** For a code whose restrictions the compiler renders faithfully, the query is accepted exactly when
    * every restriction holds for the payload. */
  lemma AcceptedIffRestrictionsHold(codes: seq<PromoCode>, q: CheckPromoCodeQuery, now: string,
                                    weatherOf: string -> Option<WeatherReport>)
    requires FindFirst(codes, Str(q.name)).Some? && Payload(q, now, weatherOf).Some?
    requires FindFirst(codes, Str(q.name)).value.restrictions.Present?
    requires Disjoint(FindFirst(codes, Str(q.name)).value.restrictions.items)
    requires forall i :: 0 <= i < |FindFirst(codes, Str(q.name)).value.restrictions.items| ==>
               Compilable(FindFirst(codes, Str(q.name)).value.restrictions.items[i])
    ensures CheckOutcome(codes, q, now, weatherOf) == Answered(Accepted(q.name, FindFirst(codes, Str(q.name)).value.advantage)) <==>
              AllHold(FindFirst(codes, Str(q.name)).value.restrictions.items, Payload(q, now, weatherOf).value)
  {
    ValidIffRestrictionsHold(FindFirst(codes, Str(q.name)).value, Payload(q, now, weatherOf).value);
  }
}
