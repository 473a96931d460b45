/** `select_account` of app/core/balancer/logic.py: sort keys, the health and policy ladder,
    the strategies, and the whole decision. */
module Selection {
  import opened Common
  import opened Accounts
  import opened Ordering
  import opened Scoring
  import Opp = Opportunistic
  import Rel = RelativeAvailability

  datatype Strategy =
    | UsageWeighted | RoundRobin | CapacityWeighted | RelativeAvailability
    | FillFirst | SequentialDrain | ResetDrain | SingleAccount

  datatype Window = PrimaryWindow | SecondaryWindow

  /** The request's options; `digest` is the hex sha256 of an id, `pow` is `**`, and `draw`
      is the request's `random.random()`. */
  datatype Config = Config(
    strategy: Strategy,
    preferEarlierReset: bool,
    window: Window,
    allowBackoffFallback: bool,
    deterministicProbe: bool,
    power: real,
    topK: int,
    primaryFirst: bool,
    opportunistic: bool,
    bypass: Bypass,
    costs: map<string, real>,
    digest: string -> string,
    pow: (real, real) -> real,
    draw: real)

  // ----- Sort keys -----

  function CostIn(a: Account, costs: map<string, real>): real { if a.profile.id in costs then costs[a.profile.id] else 0.0 }

  function Cost(a: Account, cfg: Config): real { CostIn(a, cfg.costs) }

  /** `_reset_preference_bucket` */
  function ResetBucket(a: Account, now: real, w: Window): int {
    var weekly := Or(a.profile.priorityResetAt, a.profile.secondaryResetAt);
    var resetAt := if w == PrimaryWindow then Or(a.profile.primaryResetAt, weekly) else Or(weekly, a.profile.primaryResetAt);
    if resetAt.None? then 864000000
    else
      var left := if resetAt.value - now > 0.0 then (resetAt.value - now).Floor else 0;
      if w == SecondaryWindow then left / 86400 else left
  }

  function ConfiguredCredits(a: Account): real {
    if a.profile.capacityCredits.Some? && a.profile.capacityCredits.value > 0.0
    then a.profile.capacityCredits.value else PlanCredits(a.profile.plan)
  }

  /** `_weekly_reset_timestamp`; None is infinity */
  function WeeklyReset(a: Account, now: real): Option<real> {
    if a.profile.secondaryResetAt.Some? && a.profile.secondaryResetAt.value > now then a.profile.secondaryResetAt
    else if a.resetAt.Some? && a.resetAt.value > now then a.resetAt
    else None
  }

  function ResetDrainKey(a: Account, cfg: Config, now: real): Key {
    var resetAt := WeeklyReset(a, now);
    var days := if resetAt.None? then 10000 else ((resetAt.value - now) / 86400.0).Floor;
    [N((if days > 0 then days else 0) as real),
     N(-Max(0.0, 100.0 - OrElse(a.usedPercent, 0.0))),
     N(-Max(0.0, 100.0 - OrElse(Or(a.secondaryUsedPercent, a.usedPercent), 0.0))),
     if resetAt.None? then Inf else N(resetAt.value),
     T(cfg.digest(a.profile.id)), T(a.profile.id)]
  }

  datatype Ranking =
    | ById | BySequence | ByResetDrain | ByRoundRobin | ByFill | ByUsage
    | ByCostUsage | ByCostPrimary | ByResetUsage | ByResetPrimary | ByProbe

  function PrimaryUsageKey(a: Account): Key {
    [N(PrimaryUsed(a)), N(SecondaryUsed(a)), N(LastSelected(a)), T(a.profile.id)]
  }

  function KeyOf(a: Account, cfg: Config, now: real, r: Ranking): Key {
    var bucket := N(ResetBucket(a, now, cfg.window) as real);
    var cost := N(Cost(a, cfg));
    match r
    case ById => [T(a.profile.id)]
    case BySequence => [N(ConfiguredCredits(a)), T(cfg.digest(a.profile.id)), T(a.profile.id)]
    case ByResetDrain => ResetDrainKey(a, cfg, now)
    case ByRoundRobin => [cost, N(LastSelected(a)), T(a.profile.id)]
    case ByFill => [N(-OrElse(a.usedPercent, 0.0)), N(-OrElse(a.secondaryUsedPercent, 0.0)), T(a.profile.id)]
    case ByUsage => UsageKey(a)
    case ByCostUsage => [cost] + UsageKey(a)
    case ByCostPrimary => [cost] + PrimaryUsageKey(a)
    case ByResetUsage => [bucket, cost] + UsageKey(a)
    case ByResetPrimary => [bucket, cost] + PrimaryUsageKey(a)
    case ByProbe => [cost, N(-CreditsLeft(a))] + UsageKey(a)
  }

  function By(cfg: Config, now: real, r: Ranking): Account -> Key { (a: Account) => KeyOf(a, cfg, now, r) }

  /** Every key ends in the account id, so keys tell accounts with different ids apart. */
  lemma {:induction false} KeyEndsInId(a: Account, cfg: Config, now: real, r: Ranking)
    ensures var k := KeyOf(a, cfg, now, r); |k| > 0 && k[|k| - 1] == T(a.profile.id)
  {
  }

  // ----- The ladder -----

  function OfTier(s: seq<Account>, tier: int): seq<Account> { Filter(s, (a: Account) => a.profile.healthTier == tier) }

  function OfPolicy(s: seq<Account>, p: Opp.Policy): seq<Account> { Filter(s, (a: Account) => Opp.PolicyOf(a) == p) }

  /** Healthy, else probing, else draining, else everything. */
  function TierPool(s: seq<Account>): seq<Account> {
    if OfTier(s, 0) != [] then OfTier(s, 0)
    else if OfTier(s, 2) != [] then OfTier(s, 2)
    else if OfTier(s, 1) != [] then OfTier(s, 1)
    else s
  }

  function PolicyPool(s: seq<Account>): seq<Account> {
    if OfPolicy(s, Opp.BurnFirst) != [] then OfPolicy(s, Opp.BurnFirst)
    else if OfPolicy(s, Opp.Normal) != [] then OfPolicy(s, Opp.Normal)
    else OfPolicy(s, Opp.Preserve)
  }

  function EffectivePool(s: seq<Account>): seq<Account> { PolicyPool(TierPool(s)) }

  // ----- Narrowing by reset and by cost -----

  function LeastBucket(s: seq<Account>, now: real, w: Window): (b: int)
    requires s != []
    ensures exists i :: 0 <= i < |s| && ResetBucket(s[i], now, w) == b
    ensures forall i :: 0 <= i < |s| ==> b <= ResetBucket(s[i], now, w)
  {
    var first := ResetBucket(s[0], now, w);
    if |s| == 1 then first
    else
      var rest := LeastBucket(s[1..], now, w);
      assert forall i :: 0 < i < |s| ==> s[i] == s[1..][i - 1];
      if rest < first then rest else first
  }

  function EarliestReset(s: seq<Account>, cfg: Config, now: real): seq<Account>
    requires s != []
  {
    var window := cfg.window;
    var least := LeastBucket(s, now, window);
    Filter(s, (a: Account) => ResetBucket(a, now, window) == least)
  }

  function LeastCost(s: seq<Account>, costs: map<string, real>): (c: real)
    requires s != []
    ensures exists i :: 0 <= i < |s| && CostIn(s[i], costs) == c
    ensures forall i :: 0 <= i < |s| ==> c <= CostIn(s[i], costs)
  {
    var first := CostIn(s[0], costs);
    if |s| == 1 then first
    else
      var rest := LeastCost(s[1..], costs);
      assert forall i :: 0 < i < |s| ==> s[i] == s[1..][i - 1];
      Min(first, rest)
  }

  function Cheapest(s: seq<Account>, cfg: Config): seq<Account>
    requires s != []
  {
    if cfg.costs == map[] then s
    else
      var costs := cfg.costs;
      var least := LeastCost(s, costs);
      Filter(s, (a: Account) => CostIn(a, costs) == least)
  }

  lemma {:induction false} TierMembers(s: seq<Account>, tier: int, a: Account)
    ensures a in OfTier(s, tier) <==> a in s && a.profile.healthTier == tier
  {
    FilterMembers(s, (x: Account) => x.profile.healthTier == tier);
  }

  lemma {:induction false} PolicyMembers(s: seq<Account>, p: Opp.Policy, a: Account)
    ensures a in OfPolicy(s, p) <==> a in s && Opp.PolicyOf(a) == p
  {
    FilterMembers(s, (x: Account) => Opp.PolicyOf(x) == p);
  }

  lemma {:induction false} EarliestMembers(s: seq<Account>, cfg: Config, now: real, a: Account)
    requires s != []
    ensures a in EarliestReset(s, cfg, now) <==> a in s && forall b :: b in s ==> ResetBucket(a, now, cfg.window) <= ResetBucket(b, now, cfg.window)
  {
    var window := cfg.window;
    var least := LeastBucket(s, now, window);
    FilterMembers(s, (x: Account) => ResetBucket(x, now, window) == least);
    var i :| 0 <= i < |s| && ResetBucket(s[i], now, window) == least;
    assert s[i] in s;
  }

  lemma {:induction false} CheapestMembers(s: seq<Account>, cfg: Config, a: Account)
    requires s != []
    ensures a in Cheapest(s, cfg) <==> a in s && forall b :: b in s ==> Cost(a, cfg) <= Cost(b, cfg)
  {
    var costs := cfg.costs;
    var least := LeastCost(s, costs);
    FilterMembers(s, (x: Account) => CostIn(x, costs) == least);
    var i :| 0 <= i < |s| && CostIn(s[i], costs) == least;
    assert s[i] in s;
  }

  lemma {:induction false} EarliestNonEmpty(s: seq<Account>, cfg: Config, now: real)
    requires s != []
    ensures EarliestReset(s, cfg, now) != []
  {
    var i :| 0 <= i < |s| && ResetBucket(s[i], now, cfg.window) == LeastBucket(s, now, cfg.window);
    EarliestMembers(s, cfg, now, s[i]);
  }

  lemma {:induction false} CheapestNonEmpty(s: seq<Account>, cfg: Config)
    requires s != []
    ensures Cheapest(s, cfg) != []
  {
    var j :| 0 <= j < |s| && CostIn(s[j], cfg.costs) == LeastCost(s, cfg.costs);
    CheapestMembers(s, cfg, s[j]);
  }

  lemma {:induction false} PolicyPoolNonEmpty(s: seq<Account>)
    requires s != []
    ensures PolicyPool(s) != []
  {
    PolicyMembers(s, Opp.PolicyOf(s[0]), s[0]);
  }

  // ----- The strategies -----

  function CreditWeights(s: seq<Account>): (weights: seq<real>)
    ensures |weights| == |s| && NonNegative(weights)
  {
    seq(|s|, i requires 0 <= i < |s| => CreditsLeft(s[i]))
  }

  /** `_select_capacity_weighted` */
  function DrawByCredits(s: seq<Account>, cfg: Config, now: real): Account
    requires s != [] && 0.0 <= cfg.draw < 1.0
  {
    if Sum(CreditWeights(s)) <= 0.0 then MinBy(s, By(cfg, now, ByUsage)) else s[Choose(CreditWeights(s), cfg.draw)]
  }

  function RelativeTop(s: seq<Account>, cfg: Config, now: real): (top: seq<Rel.Weighted>)
    ensures forall i :: 0 <= i < |top| ==> top[i].weight >= Rel.MIN_WEIGHT && top[i].account in s
  {
    var top := Rel.Candidates(s, now, cfg.power, cfg.topK, cfg.pow);
    RelativeMembers(s, cfg, now);
    top
  }

  lemma {:induction false} RelativeMembers(s: seq<Account>, cfg: Config, now: real)
    ensures forall w :: w in Rel.Candidates(s, now, cfg.power, cfg.topK, cfg.pow) ==>
              w.weight >= Rel.MIN_WEIGHT && w.account in s
  {
    var best := Rel.Best(s, now);
    if best > 0.0 {
      var weighed := Rel.Weigh(s, now, best, cfg.power, cfg.pow);
      SortSorts(weighed, Rel.WeightedKey);
      forall w | w in Rel.Candidates(s, now, cfg.power, cfg.topK, cfg.pow)
        ensures w.weight >= Rel.MIN_WEIGHT && w.account in s
      {
        assert w in multiset(SortBy(weighed, Rel.WeightedKey));
        Rel.WeighMembers(s, now, best, cfg.power, cfg.pow, w);
      }
    }
  }

  function TopWeights(top: seq<Rel.Weighted>): (weights: seq<real>)
    ensures |weights| == |top| && forall i :: 0 <= i < |top| ==> weights[i] == top[i].weight
  {
    seq(|top|, i requires 0 <= i < |top| => top[i].weight)
  }

  /** `_select_relative_availability` */
  function DrawRelative(s: seq<Account>, cfg: Config, now: real): Account
    requires s != [] && 0.0 <= cfg.draw < 1.0
  {
    var top := RelativeTop(s, cfg, now);
    if top == [] then MinBy(s, By(cfg, now, ByUsage))
    else if cfg.deterministicProbe then top[0].account
    else if Sum(TopWeights(top)) <= 0.0 then MinBy(s, By(cfg, now, ByUsage))
    else top[Choose(TopWeights(top), cfg.draw)].account
  }

  /** The pool a strategy picks from, after the ladder and any narrowing. */
  function StrategyPool(s: seq<Account>, cfg: Config, now: real): (pool: seq<Account>)
    requires s != []
    ensures pool != []
  {
    PolicyPoolNonEmpty(TierPool(s));
    var effective := EffectivePool(s);
    EarliestNonEmpty(effective, cfg, now);
    CheapestNonEmpty(effective, cfg);
    match cfg.strategy
    case SingleAccount => s
    case SequentialDrain => s
    case ResetDrain => s
    case CapacityWeighted =>
      var pool := if cfg.preferEarlierReset then EarliestReset(effective, cfg, now) else effective;
      CheapestNonEmpty(pool, cfg);
      if cfg.deterministicProbe then pool else Cheapest(pool, cfg)
    case RelativeAvailability => Cheapest(effective, cfg)
    case FillFirst => if cfg.preferEarlierReset then EarliestReset(effective, cfg, now) else effective
    case _ => effective
  }

  function RankingOf(cfg: Config): Ranking {
    match cfg.strategy
    case SingleAccount => ById
    case SequentialDrain => BySequence
    case ResetDrain => ByResetDrain
    case RoundRobin => ByRoundRobin
    case FillFirst => ByFill
    case CapacityWeighted => ByProbe
    case RelativeAvailability => ByUsage
    case UsageWeighted =>
      if cfg.primaryFirst then (if cfg.preferEarlierReset then ByResetPrimary else ByCostPrimary)
      else (if cfg.preferEarlierReset then ByResetUsage else ByCostUsage)
  }

  /** The winner among the available accounts. */
  function Winner(s: seq<Account>, cfg: Config, now: real): Account
    requires s != [] && 0.0 <= cfg.draw < 1.0
  {
    var pool := StrategyPool(s, cfg, now);
    if cfg.strategy == RelativeAvailability then DrawRelative(pool, cfg, now)
    else if cfg.strategy == CapacityWeighted && !cfg.deterministicProbe then DrawByCredits(pool, cfg, now)
    else MinBy(pool, By(cfg, now, RankingOf(cfg)))
  }

  predicate UsesLadder(cfg: Config) {
    !cfg.strategy.SingleAccount? && !cfg.strategy.SequentialDrain? && !cfg.strategy.ResetDrain?
  }

  predicate Keyed(cfg: Config) {
    !cfg.strategy.RelativeAvailability? && (cfg.strategy.CapacityWeighted? ==> cfg.deterministicProbe)
  }

  /** Better tiers and policies come first. */
  function TierRank(a: Account): int {
    if a.profile.healthTier == 0 then 0 else if a.profile.healthTier == 2 then 1
    else if a.profile.healthTier == 1 then 2 else 3
  }

  function PolicyRank(a: Account): int {
    match Opp.PolicyOf(a) case BurnFirst => 0 case Normal => 1 case Preserve => 2
  }

  /** Membership in the ladder's pool, without the ladder: nothing has a better tier, and
      nothing of the same tier has a better policy. */
  predicate OnBestRung(s: seq<Account>, a: Account) {
    && a in s
    && forall b :: b in s ==> TierRank(a) <= TierRank(b) && (TierRank(a) == TierRank(b) ==> PolicyRank(a) <= PolicyRank(b))
  }

  lemma {:induction false} TierPoolExactly(s: seq<Account>, a: Account)
    ensures a in TierPool(s) <==> a in s && forall b :: b in s ==> TierRank(a) <= TierRank(b)
  {
    forall t, b ensures b in OfTier(s, t) <==> b in s && b.profile.healthTier == t { TierMembers(s, t, b); }
    if OfTier(s, 0) != [] { assert OfTier(s, 0)[0] in OfTier(s, 0); }
    if OfTier(s, 2) != [] { assert OfTier(s, 2)[0] in OfTier(s, 2); }
    if OfTier(s, 1) != [] { assert OfTier(s, 1)[0] in OfTier(s, 1); }
  }

  lemma {:induction false} PolicyPoolExactly(s: seq<Account>, a: Account)
    ensures a in PolicyPool(s) <==> a in s && forall b :: b in s ==> PolicyRank(a) <= PolicyRank(b)
  {
    forall p, b ensures b in OfPolicy(s, p) <==> b in s && Opp.PolicyOf(b) == p { PolicyMembers(s, p, b); }
    if OfPolicy(s, Opp.BurnFirst) != [] { assert OfPolicy(s, Opp.BurnFirst)[0] in OfPolicy(s, Opp.BurnFirst); }
    if OfPolicy(s, Opp.Normal) != [] { assert OfPolicy(s, Opp.Normal)[0] in OfPolicy(s, Opp.Normal); }
  }

  lemma {:induction false} EffectivePoolExactly(s: seq<Account>, a: Account)
    ensures a in EffectivePool(s) <==> OnBestRung(s, a)
  {
    forall b ensures b in TierPool(s) <==> b in s && forall c :: c in s ==> TierRank(b) <= TierRank(c) { TierPoolExactly(s, b); }
    PolicyPoolExactly(TierPool(s), a);
  }

  lemma {:induction false} StrategyPoolWithin(s: seq<Account>, cfg: Config, now: real, a: Account)
    requires s != [] && a in StrategyPool(s, cfg, now)
    ensures a in s && (UsesLadder(cfg) ==> OnBestRung(s, a))
  {
    if UsesLadder(cfg) {
      PolicyPoolNonEmpty(TierPool(s));
      NarrowingKeeps(EffectivePool(s), cfg, now, a);
      EffectivePoolExactly(s, a);
    }
  }

  lemma {:induction false} NarrowingKeeps(pool: seq<Account>, cfg: Config, now: real, a: Account)
    requires pool != []
    ensures a in EarliestReset(pool, cfg, now) ==> a in pool
    ensures a in Cheapest(pool, cfg) ==> a in pool
    ensures EarliestReset(pool, cfg, now) != []
    ensures a in Cheapest(EarliestReset(pool, cfg, now), cfg) ==> a in pool
  {
    EarliestMembers(pool, cfg, now, a);
    CheapestMembers(pool, cfg, a);
    EarliestNonEmpty(pool, cfg, now);
    CheapestMembers(EarliestReset(pool, cfg, now), cfg, a);
  }

  lemma {:induction false} WinnerFromPool(s: seq<Account>, cfg: Config, now: real)
    requires s != [] && 0.0 <= cfg.draw < 1.0
    ensures Winner(s, cfg, now) in StrategyPool(s, cfg, now)
    ensures Keyed(cfg) ==> Least(StrategyPool(s, cfg, now), By(cfg, now, RankingOf(cfg)), Winner(s, cfg, now))
  {
  }

  /** Outside the three drain strategies the winner stands on the best non-empty health tier
      and, within it, the best non-empty policy; a keyed strategy takes the least key there. */
  lemma {:induction false} WinnerOnBestRung(s: seq<Account>, cfg: Config, now: real)
    requires s != [] && 0.0 <= cfg.draw < 1.0
    ensures Winner(s, cfg, now) in s
    ensures UsesLadder(cfg) ==> OnBestRung(s, Winner(s, cfg, now))
    ensures Keyed(cfg) ==> Least(StrategyPool(s, cfg, now), By(cfg, now, RankingOf(cfg)), Winner(s, cfg, now))
  {
    WinnerFromPool(s, cfg, now);
    StrategyPoolWithin(s, cfg, now, Winner(s, cfg, now));
  }

  // ----- Who can win a random draw -----

  lemma {:induction false} PoolIgnoresDraw(s: seq<Account>, cfg: Config, now: real, u: real)
    requires s != []
    ensures StrategyPool(s, cfg.(draw := u), now) == StrategyPool(s, cfg, now)
  {
    PolicyPoolNonEmpty(TierPool(s));
  }

  /** Some draw makes this account the winner. */
  ghost predicate Drawable(s: seq<Account>, cfg: Config, now: real, a: Account)
    requires s != []
  {
    exists u :: 0.0 <= u < 1.0 && Winner(s, cfg.(draw := u), now) == a
  }

  lemma {:induction false} PositiveSum(weights: seq<real>)
    requires NonNegative(weights)
    ensures Sum(weights) > 0.0 <==> exists i :: 0 <= i < |weights| && weights[i] > 0.0
  {
    if i :| 0 <= i < |weights| && weights[i] > 0.0 { var _ := EveryPositiveWeightDrawable(weights, i); }
    if Sum(weights) > 0.0 { var i := Bisect(weights, 0.0); }
  }

  ghost predicate HasCredits(pool: seq<Account>, a: Account) { a in pool && CreditsLeft(a) > 0.0 }

  lemma {:induction false} CreditsSum(pool: seq<Account>, a: Account)
    requires HasCredits(pool, a)
    ensures Sum(CreditWeights(pool)) > 0.0
  {
    var j :| 0 <= j < |pool| && pool[j] == a;
    assert CreditWeights(pool)[j] > 0.0;
    PositiveSum(CreditWeights(pool));
  }

  lemma {:induction false} CapacityWinner(s: seq<Account>, cfg: Config, now: real, pool: seq<Account>, u: real)
    requires s != [] && cfg.strategy.CapacityWeighted? && !cfg.deterministicProbe && 0.0 <= u < 1.0
    requires pool == StrategyPool(s, cfg, now) && Sum(CreditWeights(pool)) > 0.0
    ensures Winner(s, cfg.(draw := u), now) == pool[Choose(CreditWeights(pool), u)]
  {
    PoolIgnoresDraw(s, cfg, now, u);
  }

  lemma {:induction false} CapacityCanDraw(s: seq<Account>, cfg: Config, now: real, pool: seq<Account>, a: Account)
    requires s != [] && cfg.strategy.CapacityWeighted? && !cfg.deterministicProbe
    requires pool == StrategyPool(s, cfg, now) && HasCredits(pool, a)
    ensures Drawable(s, cfg, now, a)
  {
    CreditsSum(pool, a);
    var i :| 0 <= i < |pool| && pool[i] == a;
    var u := EveryPositiveWeightDrawable(CreditWeights(pool), i);
    CapacityWinner(s, cfg, now, pool, u);
  }

  /** Capacity weighting: as long as anybody in the narrowed pool has credits left, exactly
      the accounts there with credits left can be drawn. */
  lemma {:induction false} CapacityDrawsExactly(s: seq<Account>, cfg: Config, now: real, a: Account)
    requires s != [] && cfg.strategy.CapacityWeighted? && !cfg.deterministicProbe
    requires exists b :: HasCredits(StrategyPool(s, cfg, now), b)
    ensures Drawable(s, cfg, now, a) <==> HasCredits(StrategyPool(s, cfg, now), a)
  {
    var pool := StrategyPool(s, cfg, now);
    var b :| HasCredits(pool, b);
    CreditsSum(pool, b);
    if HasCredits(pool, a) { CapacityCanDraw(s, cfg, now, pool, a); }
    if Drawable(s, cfg, now, a) {
      var u :| 0.0 <= u < 1.0 && Winner(s, cfg.(draw := u), now) == a;
      CapacityWinner(s, cfg, now, pool, u);
    }
  }

  predicate Heavy(top: seq<Rel.Weighted>) { top != [] && forall i :: 0 <= i < |top| ==> top[i].weight >= 0.1 }

  lemma {:induction false} HeavySum(top: seq<Rel.Weighted>)
    requires Heavy(top)
    ensures NonNegative(TopWeights(top)) && Sum(TopWeights(top)) > 0.0
  {
    assert TopWeights(top)[0] > 0.0;
    PositiveSum(TopWeights(top));
  }

  function DrawnFrom(top: seq<Rel.Weighted>, u: real): Account
    requires Heavy(top) && 0.0 <= u < 1.0
  {
    HeavySum(top);
    top[Choose(TopWeights(top), u)].account
  }

  lemma {:induction false} TopDrawsExactly(top: seq<Rel.Weighted>, a: Account)
    requires Heavy(top)
    ensures (exists u :: 0.0 <= u < 1.0 && DrawnFrom(top, u) == a) <==> Rel.Retained(top, a)
  {
    HeavySum(top);
    if Rel.Retained(top, a) {
      var w :| w in top && w.account == a;
      var i :| 0 <= i < |top| && top[i] == w;
      var u := EveryPositiveWeightDrawable(TopWeights(top), i);
      assert DrawnFrom(top, u) == a;
    }
    if u :| 0.0 <= u < 1.0 && DrawnFrom(top, u) == a {
      assert top[Choose(TopWeights(top), u)] in top;
    }
  }

  /** Relative availability: exactly the retained candidates can be drawn, if there are any. */
  lemma {:induction false} RelativeDrawsExactly(s: seq<Account>, cfg: Config, now: real, a: Account)
    requires s != [] && cfg.strategy.RelativeAvailability? && !cfg.deterministicProbe
    ensures var top := RelativeTop(StrategyPool(s, cfg, now), cfg, now);
            top != [] ==> (Drawable(s, cfg, now, a) <==> Rel.Retained(top, a))
  {
    var top := RelativeTop(StrategyPool(s, cfg, now), cfg, now);
    if top != [] {
      HeavySum(top);
      TopDrawsExactly(top, a);
      forall u | 0.0 <= u < 1.0 ensures Winner(s, cfg.(draw := u), now) == DrawnFrom(top, u) {
        PoolIgnoresDraw(s, cfg, now, u);
      }
    }
  }

  // ----- The decision -----

  datatype Refusal =
    | BurnWindowClosed(preserveBlocks: bool)
    | AllBlocked(paused: bool, reauth: bool, deactivated: bool)
    | RetryIn(seconds: real)
    | NoneAvailable

  datatype Selection = Chosen(account: Account) | Refused(reason: Refusal)

  /** The accounts after recovery, and those with a given verdict. */
  function AfterRecovery(states: seq<Account>, now: real, b: Bypass): seq<Account> {
    seq(|states|, i requires 0 <= i < |states| => RecoverOne(states[i], now, b).0)
  }

  function Sifted(states: seq<Account>, v: Verdict, now: real, b: Bypass): seq<Account> {
    if states == [] then []
    else
      var init, last := Sifted(states[..|states| - 1], v, now, b), RecoverOne(states[|states| - 1], now, b);
      if last.1 == v then init + [last.0] else init
  }

  function ExpiresAt(a: Account): real {
    OrElse(a.lastErrorAt, 0.0) + if a.errorCount >= 3 then Backoff(a.errorCount) as real else 0.0
  }

  function ByExpiry(): Account -> Key { (a: Account) => [N(ExpiresAt(a))] }

  predicate Blocked(s: Status) { HardBlocked(s) || Limited(s) }

  /** Somebody outside the backoff list is blocked by status. */
  predicate BlockedElsewhere(all: seq<Account>, backoff: seq<Account>) {
    exists i :: 0 <= i < |all| && Blocked(all[i].status) && forall j :: 0 <= j < |backoff| ==> backoff[j].profile.id != all[i].profile.id
  }

  predicate FallsBack(all: seq<Account>, backoff: seq<Account>, cfg: Config) {
    cfg.allowBackoffFallback && (|backoff| > 1 || (backoff != [] && BlockedElsewhere(all, backoff)))
  }

  /** `_format_retry_hint`: at most 300 seconds */
  function RetryHint(wait: real): Refusal { RetryIn(Min(Max(0.0, wait), 300.0)) }

  function Earliest(times: seq<real>): (t: real)
    requires times != []
    ensures t in times && forall i :: 0 <= i < |times| ==> t <= times[i]
  {
    if |times| == 1 then times[0]
    else
      var rest := Earliest(times[1..]);
      assert forall i :: 0 < i < |times| ==> times[i] == times[1..][i - 1];
      Min(times[0], rest)
  }

  function QuotaResets(all: seq<Account>): seq<real> {
    if all == [] then []
    else (if all[0].status == QuotaExceeded && all[0].resetAt.Some? && all[0].resetAt.value != 0.0 then [all[0].resetAt.value] else [])
         + QuotaResets(all[1..])
  }

  function Cooldowns(all: seq<Account>, now: real): seq<real> {
    if all == [] then []
    else (if Ahead(all[0].cooldownUntil, now) then [all[0].cooldownUntil.value] else []) + Cooldowns(all[1..], now)
  }

  predicate HasStatus(all: seq<Account>, s: Status) { exists i :: 0 <= i < |all| && all[i].status == s }

  /** Which error a call without any account to offer reports. */
  function WhyNot(all: seq<Account>, now: real): Refusal {
    var paused, reauth, gone := HasStatus(all, Paused), HasStatus(all, ReauthRequired), HasStatus(all, Deactivated);
    if !HasStatus(all, RateLimited) && !HasStatus(all, QuotaExceeded) && (paused || reauth || gone) then
      AllBlocked(paused, reauth, gone)
    else if HasStatus(all, QuotaExceeded) && QuotaResets(all) != [] then
      RetryHint(Max(0.0, Earliest(QuotaResets(all)) - Truncate(now)))
    else if Cooldowns(all, now) != [] then RetryHint(Max(0.0, Earliest(Cooldowns(all, now)) - now))
    else NoneAvailable
  }

  /** Opportunistic traffic narrows a pool to what it may burn; None closes the window. */
  function Narrowed(pool: seq<Account>, cfg: Config, now: real): Option<seq<Account>> {
    if !cfg.opportunistic then Some(pool)
    else if Opp.Candidates(pool, now) == [] then None
    else Some(Opp.Candidates(pool, now))
  }

  function ChooseFrom(pool: seq<Account>, cfg: Config, now: real): Selection
    requires pool != [] && 0.0 <= cfg.draw < 1.0
  {
    var narrowed := Narrowed(pool, cfg, now);
    if narrowed.None? then Refused(BurnWindowClosed(exists i :: 0 <= i < |pool| && Opp.PolicyOf(pool[i]) == Opp.Preserve))
    else Chosen(Winner(narrowed.value, cfg, now))
  }

  /** `select_account`, for states whose recovery the call has just done. */
  function Decide(available: seq<Account>, backoff: seq<Account>, all: seq<Account>, cfg: Config, now: real): Selection
    requires 0.0 <= cfg.draw < 1.0
  {
    if available != [] then ChooseFrom(available, cfg, now)
    else if FallsBack(all, backoff, cfg) then ChooseFrom([MinBy(backoff, ByExpiry())], cfg, now)
    else Refused(WhyNot(all, now))
  }

  function Select(states: seq<Account>, cfg: Config, now: real): Selection
    requires 0.0 <= cfg.draw < 1.0
  {
    Decide(Sifted(states, Available, now, cfg.bypass), Sifted(states, InBackoff, now, cfg.bypass),
           AfterRecovery(states, now, cfg.bypass), cfg, now)
  }

  // ----- Safety and totality -----

  lemma {:induction false} SiftedMembers(states: seq<Account>, v: Verdict, now: real, b: Bypass, a: Account)
    ensures a in Sifted(states, v, now, b) <==> exists i :: 0 <= i < |states| && RecoverOne(states[i], now, b) == (a, v)
  {
    if states != [] {
      var n := |states| - 1;
      SiftedMembers(states[..n], v, now, b, a);
      assert forall i :: 0 <= i < n ==> states[..n][i] == states[i];
    }
  }

  predicate EligibleAt(states: seq<Account>, i: int, cfg: Config, now: real)
    requires 0 <= i < |states|
  {
    Eligible(states[i], now, Bypasses(cfg.bypass, states[i].profile))
  }

  predicate BackingOffAt(states: seq<Account>, i: int, cfg: Config, now: real)
    requires 0 <= i < |states|
  {
    BackingOff(states[i], now, Bypasses(cfg.bypass, states[i].profile))
  }

  /** The call found nobody eligible, and this is an earliest backoff to expire. */
  ghost predicate LastResort(states: seq<Account>, i: int, cfg: Config, now: real)
    requires 0 <= i < |states|
  {
    && BackingOffAt(states, i, cfg, now)
    && (forall j :: 0 <= j < |states| ==> !EligibleAt(states, j, cfg, now))
    && (forall j :: 0 <= j < |states| && BackingOffAt(states, j, cfg, now) ==>
          ExpiresAt(RecoverOne(states[i], now, cfg.bypass).0) <= ExpiresAt(RecoverOne(states[j], now, cfg.bypass).0))
  }

  ghost predicate SafeChoice(states: seq<Account>, i: int, c: Account, cfg: Config, now: real)
    requires 0 <= i < |states|
  {
    && c == RecoverOne(states[i], now, cfg.bypass).0
    && c.status != Paused && c.status != ReauthRequired && c.status != Deactivated
    && (c.status == RateLimited || c.status == QuotaExceeded ==>
          cfg.bypass.everyone || c.profile.ignoreStandardQuota || c.profile.id in cfg.bypass.ids)
    && (c.cooldownUntil.Some? && c.cooldownUntil.value != 0.0 ==> c.cooldownUntil.value <= now)
    && (EligibleAt(states, i, cfg, now) || LastResort(states, i, cfg, now))
  }

  lemma {:induction false} ChosenFromPool(pool: seq<Account>, cfg: Config, now: real)
    requires pool != [] && 0.0 <= cfg.draw < 1.0
    ensures ChooseFrom(pool, cfg, now).Chosen? ==> ChooseFrom(pool, cfg, now).account in pool
    ensures ChooseFrom(pool, cfg, now).Chosen? && cfg.opportunistic ==>
              ChooseFrom(pool, cfg, now).account in Opp.Candidates(pool, now)
    ensures !cfg.opportunistic ==> ChooseFrom(pool, cfg, now).Chosen?
  {
    var narrowed := Narrowed(pool, cfg, now);
    if narrowed.Some? {
      WinnerOnBestRung(narrowed.value, cfg, now);
      Opp.CandidatesExactly(pool, now, Winner(narrowed.value, cfg, now));
    }
  }

  /** Whatever the strategy, a chosen account is one of the given ones after recovery, never
      blocked, limited only under a bypass, never cooling down, and in error backoff only as
      the last resort. */
  lemma {:induction false} ChosenIsSafe(states: seq<Account>, cfg: Config, now: real)
    requires 0.0 <= cfg.draw < 1.0
    ensures var r := Select(states, cfg, now);
            r.Chosen? ==> exists i :: 0 <= i < |states| && SafeChoice(states, i, r.account, cfg, now)
  {
    if Select(states, cfg, now).Refused? { return; }
    var available := Sifted(states, Available, now, cfg.bypass);
    var backoff := Sifted(states, InBackoff, now, cfg.bypass);
    var c := Select(states, cfg, now).account;
    if available != [] {
      ChosenFromPool(available, cfg, now);
      SiftedMembers(states, Available, now, cfg.bypass, c);
      var i :| 0 <= i < |states| && RecoverOne(states[i], now, cfg.bypass) == (c, Available);
      RecoverDecides(states[i], now, Bypasses(cfg.bypass, states[i].profile));
      assert SafeChoice(states, i, c, cfg, now);
    } else {
      ChosenFromPool([MinBy(backoff, ByExpiry())], cfg, now);
      SiftedMembers(states, InBackoff, now, cfg.bypass, c);
      var i :| 0 <= i < |states| && RecoverOne(states[i], now, cfg.bypass) == (c, InBackoff);
      RecoverDecides(states[i], now, Bypasses(cfg.bypass, states[i].profile));
      FallbackIsLastResort(states, i, c, cfg, now);
      assert SafeChoice(states, i, c, cfg, now);
    }
  }

  lemma {:induction false} FallbackIsLastResort(states: seq<Account>, i: nat, c: Account, cfg: Config, now: real)
    requires i < |states| && RecoverOne(states[i], now, cfg.bypass) == (c, InBackoff)
    requires Sifted(states, Available, now, cfg.bypass) == []
    requires Least(Sifted(states, InBackoff, now, cfg.bypass), ByExpiry(), c)
    ensures LastResort(states, i, cfg, now)
  {
    forall j | 0 <= j < |states|
      ensures !EligibleAt(states, j, cfg, now)
      ensures BackingOffAt(states, j, cfg, now) ==> ExpiresAt(c) <= ExpiresAt(RecoverOne(states[j], now, cfg.bypass).0)
    {
      var d := RecoverOne(states[j], now, cfg.bypass).0;
      RecoverDecides(states[j], now, Bypasses(cfg.bypass, states[j].profile));
      SiftedMembers(states, Available, now, cfg.bypass, d);
      SiftedMembers(states, InBackoff, now, cfg.bypass, d);
      assert ByExpiry()(d) == [N(ExpiresAt(d))] && ByExpiry()(c) == [N(ExpiresAt(c))];
    }
    RecoverDecides(states[i], now, Bypasses(cfg.bypass, states[i].profile));
  }

  /** A foreground call is served whenever anybody is eligible. */
  lemma {:induction false} ForegroundIsServed(states: seq<Account>, cfg: Config, now: real, i: nat)
    requires 0.0 <= cfg.draw < 1.0 && !cfg.opportunistic && i < |states| && EligibleAt(states, i, cfg, now)
    ensures Select(states, cfg, now).Chosen?
  {
    RecoverDecides(states[i], now, Bypasses(cfg.bypass, states[i].profile));
    SiftedMembers(states, Available, now, cfg.bypass, RecoverOne(states[i], now, cfg.bypass).0);
  }

  predicate KeepsReserve(c: Account, available: seq<Account>, now: real) {
    if Opp.PolicyOf(c) == Opp.Preserve
    then && Opp.Remaining(c, true).Some? && Opp.Remaining(c, true).value > 5.0
         && Opp.Remaining(c, false).Some? && Opp.Remaining(c, false).value > 10.0
    else Opp.AboveEmergencyFloor(c) || Opp.OthersUsable(c.profile.id, available, now)
  }

  /** What an opportunistic call takes keeps the reserves. */
  lemma {:induction false} OpportunisticKeepsReserves(states: seq<Account>, cfg: Config, now: real)
    requires 0.0 <= cfg.draw < 1.0 && cfg.opportunistic
    ensures var r := Select(states, cfg, now);
            r.Chosen? ==> KeepsReserve(r.account, Sifted(states, Available, now, cfg.bypass), now)
  {
    if Select(states, cfg, now).Refused? { return; }
    var available := Sifted(states, Available, now, cfg.bypass);
    var c := Select(states, cfg, now).account;
    if available != [] {
      ChosenFromPool(available, cfg, now);
      Opp.BurntAccountsHaveReserve(available, now, c);
    } else {
      var only := MinBy(Sifted(states, InBackoff, now, cfg.bypass), ByExpiry());
      ChosenFromPool([only], cfg, now);
      Opp.BurntAccountsHaveReserve([only], now, c);
    }
  }

  /** An account that cools down until then is not returned before, whatever selections came
      in between, bypassed or not, and whatever its reset. */
  lemma {:induction false} CoolingDownIsHeldBack(states: seq<Account>, k: nat, a: Account, until: real,
                                calls: seq<(real, bool)>, cfg: Config, now: real)
    requires 0.0 <= cfg.draw < 1.0 && until > 0.0 && a.cooldownUntil == Some(until) && now < until
    requires forall i :: 0 <= i < |calls| ==> calls[i].0 < until
    requires k < |states| && states[k] == RecoverRun(a, calls)
    requires forall i :: 0 <= i < |states| && i != k ==> states[i].profile.id != states[k].profile.id
    ensures Select(states, cfg, now).Chosen? ==> Select(states, cfg, now).account.profile.id != states[k].profile.id
  {
    if Select(states, cfg, now).Chosen? {
      ChosenIsSafe(states, cfg, now);
      var c := Select(states, cfg, now).account;
      var i :| 0 <= i < |states| && SafeChoice(states, i, c, cfg, now);
      RecoverDecides(states[i], now, Bypasses(cfg.bypass, states[i].profile));
      CooldownStays(a, until, calls);
    }
  }

  /** Until the delay of a rate-limit error is over no selection returns the account. */
  lemma {:induction false} RateLimitedIsHeldBack(states: seq<Account>, k: nat, a: Account, e: UpstreamError, at: real,
                                delay: real, calls: seq<(real, bool)>, cfg: Config, now: real)
    requires 0.0 <= cfg.draw < 1.0 && at + delay > 0.0 && now < at + delay
    requires forall i :: 0 <= i < |calls| ==> calls[i].0 < at + delay
    requires k < |states| && states[k] == RecoverRun(AfterRateLimit(a, e, at, delay), calls)
    requires forall i :: 0 <= i < |states| && i != k ==> states[i].profile.id != states[k].profile.id
    ensures Select(states, cfg, now).Chosen? ==> Select(states, cfg, now).account.profile.id != states[k].profile.id
  {
    CoolingDownIsHeldBack(states, k, AfterRateLimit(a, e, at, delay), at + delay, calls, cfg, now);
  }

  /** Nor does any within 120 seconds of a quota error. */
  lemma {:induction false} QuotaExceededIsHeldBack(states: seq<Account>, k: nat, a: Account, e: UpstreamError, at: real,
                                calls: seq<(real, bool)>, cfg: Config, now: real)
    requires 0.0 <= cfg.draw < 1.0 && at > 0.0 && now < at + QUOTA_COOLDOWN
    requires forall i :: 0 <= i < |calls| ==> calls[i].0 < at + QUOTA_COOLDOWN
    requires k < |states| && states[k] == RecoverRun(AfterQuotaExceeded(a, e, at), calls)
    requires forall i :: 0 <= i < |states| && i != k ==> states[i].profile.id != states[k].profile.id
    ensures Select(states, cfg, now).Chosen? ==> Select(states, cfg, now).account.profile.id != states[k].profile.id
  {
    CoolingDownIsHeldBack(states, k, AfterQuotaExceeded(a, e, at), at + QUOTA_COOLDOWN, calls, cfg, now);
  }

  /** A retry hint never asks for more than five minutes. */
  lemma {:induction false} HintsAreBounded(states: seq<Account>, cfg: Config, now: real)
    requires 0.0 <= cfg.draw < 1.0
    ensures Select(states, cfg, now).Refused? && Select(states, cfg, now).reason.RetryIn? ==>
              0.0 <= Select(states, cfg, now).reason.seconds <= 300.0
  {
  }

  // ----- The call on the mutable states -----

  ghost function Views(states: seq<AccountState>): (views: seq<Account>)
    reads states
    ensures |views| == |states| && forall i :: 0 <= i < |states| ==> views[i] == states[i].View()
  {
    seq(|states|, i requires 0 <= i < |states| reads states => states[i].View())
  }

  method SnapshotAll(states: seq<AccountState>) returns (all: seq<Account>)
    ensures all == Views(states)
  {
    all := [];
    for i := 0 to |states|
      invariant |all| == i && forall j :: 0 <= j < i ==> all[j] == states[j].View()
    {
      var a := states[i].Snapshot();
      all := all + [a];
    }
  }

  /** The two lists the recovery loop builds. */
  method Partition(all: seq<Account>, verdicts: seq<Verdict>, ghost before: seq<Account>, now: real, b: Bypass)
    returns (available: seq<Account>, backoff: seq<Account>)
    requires |all| == |verdicts| == |before|
    requires forall i :: 0 <= i < |all| ==> (all[i], verdicts[i]) == RecoverOne(before[i], now, b)
    ensures available == Sifted(before, Available, now, b) && backoff == Sifted(before, InBackoff, now, b)
  {
    available, backoff := [], [];
    for i := 0 to |all|
      invariant available == Sifted(before[..i], Available, now, b)
      invariant backoff == Sifted(before[..i], InBackoff, now, b)
    {
      assert before[..i + 1][..i] == before[..i] && before[..i + 1][i] == before[i];
      if verdicts[i] == Available {
        available := available + [all[i]];
      } else if verdicts[i] == InBackoff {
        backoff := backoff + [all[i]];
      }
    }
    assert before[..|all|] == before;
  }

  /** `select_account`: recovers the states in place, then decides.  `now` is the evaluation
      time, read off the clock when the caller passes none or zero; `k` is the position of
      the state that is returned. */
  method SelectAccount(states: seq<AccountState>, cfg: Config, now: real) returns (r: Selection, k: Option<nat>)
    requires 0.0 <= cfg.draw < 1.0
    modifies states
    ensures Views(states) == AfterRecovery(old(Views(states)), now, cfg.bypass)
    ensures r == Select(old(Views(states)), cfg, now)
    ensures r.Chosen? <==> k.Some?
    ensures r.Chosen? ==> k.value < |states| && states[k.value].View() == r.account
  {
    ghost var before := Views(states);
    var verdicts := RecoverAll(states, now, cfg.bypass);
    var all := SnapshotAll(states);
    assert all == AfterRecovery(before, now, cfg.bypass);
    var available, backoff := Partition(all, verdicts, before, now, cfg.bypass);
    r := Decide(available, backoff, all, cfg, now);
    k := None;
    if r.Chosen? {
      ChosenIsListed(before, cfg, now);
      k := Find(all, r.account);
    }
  }

  lemma {:induction false} ChosenIsListed(states: seq<Account>, cfg: Config, now: real)
    requires 0.0 <= cfg.draw < 1.0
    ensures var r := Select(states, cfg, now);
            r.Chosen? ==> r.account in AfterRecovery(states, now, cfg.bypass)
  {
    ChosenIsSafe(states, cfg, now);
    if Select(states, cfg, now).Refused? { return; }
    var i :| 0 <= i < |states| && SafeChoice(states, i, Select(states, cfg, now).account, cfg, now);
    assert AfterRecovery(states, now, cfg.bypass)[i] == Select(states, cfg, now).account;
  }

  method Find(all: seq<Account>, a: Account) returns (k: Option<nat>)
    requires a in all
    ensures k.Some? && k.value < |all| && all[k.value] == a
  {
    var i: nat := 0;
    while all[i] != a
      invariant i < |all| && a in all[i..]
      decreases |all| - i
    {
      i := i + 1;
    }
    return Some(i);
  }
}
