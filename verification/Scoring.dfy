/** Usage, credits and scores of an account, and the weighted draw that
    `random.choices` makes (app/core/balancer/logic.py). */
module Scoring {
  import opened Common
  import opened Accounts
  import opened Ordering

  /** `_fallback_secondary_capacity_credits`; `plan` is stripped and lower-cased. */
  function PlanCredits(plan: string): (credits: real)
    ensures credits > 0.0
  {
    if plan == "plus" || plan == "business" || plan == "team" then 7560.0
    else if plan == "edu" || plan == "education" || plan == "k12" then 7560.0
    else if plan == "pro" || plan == "enterprise" then 50400.0
    else if plan == "prolite" then 37800.0
    else 1134.0
  }

  function Or(a: Option<real>, b: Option<real>): Option<real> { if a.Some? then a else b }

  function OrElse(a: Option<real>, default: real): real { if a.Some? then a.value else default }

  function PrimaryUsed(a: Account): real { OrElse(Or(a.profile.priorityUsedPercent, a.usedPercent), 0.0) }

  function SecondaryUsed(a: Account): real {
    if a.profile.limitScopedUsage && a.profile.prioritySecondaryUsedPercent.None? then PrimaryUsed(a)
    else OrElse(Or(a.profile.prioritySecondaryUsedPercent, a.secondaryUsedPercent), PrimaryUsed(a))
  }

  function LastSelected(a: Account): real { OrElse(a.profile.lastSelectedAt, 0.0) }

  function UsageKey(a: Account): Key {
    [N(SecondaryUsed(a)), N(PrimaryUsed(a)), N(LastSelected(a)), T(a.profile.id)]
  }

  /** `_remaining_secondary_credits` */
  function CreditsLeft(a: Account): (credits: real)
    ensures credits >= 0.0
  {
    var capacity := Or(a.profile.priorityCapacityCredits, a.profile.capacityCredits);
    if capacity.Some? && capacity.value <= 0.0 then 0.0
    else Max(0.0, OrElse(capacity, PlanCredits(a.profile.plan)) * (1.0 - Min(SecondaryUsed(a), 100.0) / 100.0))
  }

  // ----- random.choices -----

  function Sum(weights: seq<real>): real { if weights == [] then 0.0 else weights[0] + Sum(weights[1..]) }

  predicate NonNegative(weights: seq<real>) { forall i :: 0 <= i < |weights| ==> weights[i] >= 0.0 }

  /** The first index whose cumulative weight exceeds x: only positive weights can be hit. */
  function Bisect(weights: seq<real>, x: real): (i: nat)
    requires NonNegative(weights) && 0.0 <= x < Sum(weights)
    ensures i < |weights| && weights[i] > 0.0
  {
    if x < weights[0] then 0 else 1 + Bisect(weights[1..], x - weights[0])
  }

  /** `random.choices(..., weights)[0]` for a draw `u` of `random.random()`. */
  function Choose(weights: seq<real>, u: real): (i: nat)
    requires NonNegative(weights) && Sum(weights) > 0.0 && 0.0 <= u < 1.0
    ensures i < |weights| && weights[i] > 0.0
  {
    DrawInRange(u, Sum(weights));
    Bisect(weights, Times(u, Sum(weights)))
  }

  function Times(x: real, y: real): real { x * y }

  lemma {:induction false} DrawInRange(u: real, total: real)
    requires 0.0 <= u < 1.0 && total > 0.0
    ensures 0.0 <= Times(u, total) < total
  {
    MultiplyLess(u, 1.0, total);
    if u > 0.0 { MultiplyLess(0.0, u, total); }
  }

  lemma {:induction false} PrefixSum(weights: seq<real>, i: nat)
    requires NonNegative(weights) && i < |weights|
    ensures 0.0 <= Sum(weights[..i]) && Sum(weights[..i]) + weights[i] <= Sum(weights)
    ensures weights[i] > 0.0 ==> Bisect(weights, Sum(weights[..i])) == i
  {
    if i > 0 {
      PrefixSum(weights[1..], i - 1);
      assert weights[..i][1..] == weights[1..][..i - 1];
    } else {
      TailNonNegative(weights[1..]);
    }
  }

  lemma {:induction false} TailNonNegative(weights: seq<real>)
    requires NonNegative(weights)
    ensures Sum(weights) >= 0.0
  {
    if weights != [] { TailNonNegative(weights[1..]); }
  }

  /** Every element of positive weight can be drawn. */
  lemma {:induction false} EveryPositiveWeightDrawable(weights: seq<real>, i: nat) returns (u: real)
    requires NonNegative(weights) && i < |weights| && weights[i] > 0.0
    ensures 0.0 <= u < 1.0 && Sum(weights) > 0.0 && Choose(weights, u) == i
  {
    PrefixSum(weights, i);
    var x, total := Sum(weights[..i]), Sum(weights);
    u := Quotient(x, total);
    assert Choose(weights, u) == Bisect(weights, Times(u, total));
  }

  lemma {:induction false} MultiplyLess(x: real, y: real, d: real)
    requires x < y && d > 0.0
    ensures Times(x, d) < Times(y, d)
  {
    assert y * d - x * d == (y - x) * d;
  }

  lemma {:induction false} CancelLe(x: real, y: real, d: real)
    requires Times(x, d) <= Times(y, d) && d > 0.0
    ensures x <= y && (Times(x, d) < Times(y, d) ==> x < y)
  {
    if y < x { MultiplyLess(y, x, d); }
  }

  lemma {:induction false} DivideMultiply(x: real, d: real)
    requires d > 0.0
    ensures Times(x / d, d) == x && Times(1.0, d) == d && Times(0.0, d) == 0.0
  {
    var q := x / d;
    assert q * d == x;
  }

  lemma {:induction false} Quotient(x: real, total: real) returns (u: real)
    requires 0.0 <= x < total
    ensures 0.0 <= u < 1.0 && Times(u, total) == x
  {
    u := x / total;
    DivideMultiply(x, total);
    CancelLe(0.0, u, total);
    CancelLe(u, 1.0, total);
  }
}
