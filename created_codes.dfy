/** What the create handler's output guarantees to the compiler: the top-level nodes it builds never
  * write the same key of the compiler's accumulator, and no node it builds carries two rules. */
module CreatedCodes {
  import opened Wrappers
  import opened Restrictions
  import opened AjvRestrictions
  import opened RestrictionSemantics
  import opened PromoCodes
  import opened CreatePromoCode

  predicate DistinctKinds(kinds: seq<Kind>) {
    forall i, j :: 0 <= i < j < |kinds| ==> kinds[i] != kinds[j]
  }

  /** The command yields each kind of top-level node at most once. */
  lemma CommandKindsDistinct(c: CreatePromoCodeCommand)
    ensures DistinctKinds(CommandKinds(c))
  {
    var ks := CommandKinds(c);
    var kg := if c.age.Some? then [AgeKind] else [];
    var kd := if c.date.Some? then [DateKind] else [];
    var kw := if c.weather.Some? then [WeatherKind] else [];
    var ka := if NonEmpty(c.and) then [AndKind] else [];
    var ko := if NonEmpty(c.or) then [OrKind] else [];
    assert ks == kg + kd + kw + ka + ko;
    forall i, j | 0 <= i < j < |ks|
      ensures ks[i] != ks[j]
    {
    }
  }

  /** Nodes carrying one field each, of pairwise different kinds, never overlap. */
  lemma ShapedDisjoint(nodes: seq<Restriction>, kinds: seq<Kind>)
    requires Shaped(nodes, kinds) && DistinctKinds(kinds)
    ensures Disjoint(nodes)
  {
    forall i, j | 0 <= i < j < |nodes|
      ensures !Overlap(nodes[i], nodes[j])
    {
      assert HasOnly(nodes[i], kinds[i]) && HasOnly(nodes[j], kinds[j]);
    }
  }

  /** A node of a canonical tree carries at most one rule. */
  lemma CanonicalSingleRule(n: Restriction)
    requires Canonical(n)
    ensures SimpleCount(n) <= 1
  {
  }

  /** The restrictions the handler builds satisfy the top-level hypothesis of the compiler's correctness
    * theorem, and each of their top-level nodes the one-rule-per-node part of `Compilable`. */
  lemma CreatedRestrictionsDisjoint(c: CreatePromoCodeCommand)
    ensures BuildRestrictions(c).Ok? ==> Disjoint(BuildRestrictions(c).value)
    ensures BuildRestrictions(c).Ok? ==>
              forall i :: 0 <= i < |BuildRestrictions(c).value| ==> SimpleCount(BuildRestrictions(c).value[i]) <= 1
  {
    if BuildRestrictions(c).Ok? {
      CommandShape(c);
      CommandKindsDistinct(c);
      ShapedDisjoint(BuildRestrictions(c).value, CommandKinds(c));
      CommandCanonical(c);
      forall i | 0 <= i < |BuildRestrictions(c).value| {
        CanonicalSingleRule(BuildRestrictions(c).value[i]);
      }
    }
  }

  /** The code a successful create returns, and the store then holds, carries disjoint top-level nodes of
    * one rule each. */
  lemma CreatedCodeDisjoint(codes: seq<PromoCode>, c: CreatePromoCodeCommand)
    ensures CreateOutcome(codes, c).Ok? ==> Disjoint(CreateOutcome(codes, c).value.restrictions.items)
    ensures CreateOutcome(codes, c).Ok? ==>
              forall i :: 0 <= i < |CreateOutcome(codes, c).value.restrictions.items| ==>
                SimpleCount(CreateOutcome(codes, c).value.restrictions.items[i]) <= 1
  {
    CreatedRestrictionsDisjoint(c);
  }
}
