/** Whom each strategy of `select_account` prefers, said in the accounts' own fields: which
    accounts a strategy picks from, and whom the winner beats there. */
module Winners {
  import opened Common
  import opened Accounts
  import opened Ordering
  import opened Scoring
  import opened Selection
  import Order = OrderIndependence
  import Rel = RelativeAvailability

  // ----- Usage, credits, resets -----

  /** Figures of a priority limit win over the standard ones; a missing weekly figure, or one
      that a limit-scoped account does not have, falls back on the short window's. */
  lemma {:induction false} UsageMeans(a: Account)
    ensures PrimaryUsed(a) == if a.profile.priorityUsedPercent.Some? then a.profile.priorityUsedPercent.value
                              else if a.usedPercent.Some? then a.usedPercent.value else 0.0
    ensures a.profile.prioritySecondaryUsedPercent.Some? ==> SecondaryUsed(a) == a.profile.prioritySecondaryUsedPercent.value
    ensures a.profile.prioritySecondaryUsedPercent.None? && !a.profile.limitScopedUsage && a.secondaryUsedPercent.Some? ==>
              SecondaryUsed(a) == a.secondaryUsedPercent.value
    ensures a.profile.prioritySecondaryUsedPercent.None? && (a.profile.limitScopedUsage || a.secondaryUsedPercent.None?) ==>
              SecondaryUsed(a) == PrimaryUsed(a)
    ensures LastSelected(a) == if a.profile.lastSelectedAt.Some? then a.profile.lastSelectedAt.value else 0.0
  {
  }

  /** The unused share of the capacity: of the priority limit, else as configured, else the
      plan's; a capacity that is not positive leaves nothing. */
  lemma {:induction false} CreditsMeans(a: Account)
    ensures var capacity := if a.profile.priorityCapacityCredits.Some? then a.profile.priorityCapacityCredits.value
                            else if a.profile.capacityCredits.Some? then a.profile.capacityCredits.value
                            else PlanCredits(a.profile.plan);
            100.0 * CreditsLeft(a) ==
              if capacity <= 0.0 || SecondaryUsed(a) >= 100.0 then 0.0 else capacity * (100.0 - SecondaryUsed(a))
  {
    var capacity := OrElse(Or(a.profile.priorityCapacityCredits, a.profile.capacityCredits), PlanCredits(a.profile.plan));
    var used := Min(SecondaryUsed(a), 100.0);
    if capacity > 0.0 {
      var left := 1.0 - used / 100.0;
      assert 100.0 * left == 100.0 - used;
      assert 100.0 * (capacity * left) == capacity * (100.0 * left);
      assert left >= 0.0 ==> capacity * left >= 0.0;
    }
  }

  lemma {:induction false} PlanTable()
    ensures PlanCredits("free") == PlanCredits("") == 1134.0
    ensures PlanCredits("plus") == PlanCredits("business") == PlanCredits("team") == 7560.0
    ensures PlanCredits("edu") == PlanCredits("education") == PlanCredits("k12") == 7560.0
    ensures PlanCredits("pro") == PlanCredits("enterprise") == 50400.0 && PlanCredits("prolite") == 37800.0
  {
  }

  /** A score is credits per second until the weekly reset, of which there are five minutes at
      least, and a week if the reset is not known. */
  lemma {:induction false} ScoreMeans(a: Account, now: real)
    ensures var resetAt := if a.profile.priorityResetAt.Some? then a.profile.priorityResetAt else a.profile.secondaryResetAt;
            var seconds := if resetAt.None? then 604800.0 else if resetAt.value - now > 300.0 then resetAt.value - now else 300.0;
            Rel.RawScore(a, now) * seconds == CreditsLeft(a)
  {
  }

  /** The first known reset, the chosen window's first, in whole days for the weekly window and
      whole seconds for the short one; ten thousand days if none is known. */
  lemma {:induction false} ResetBucketMeans(a: Account, now: real, w: Window)
    ensures var p, q, r := a.profile.primaryResetAt, a.profile.priorityResetAt, a.profile.secondaryResetAt;
            var first := if w == PrimaryWindow && p.Some? then p else if q.Some? then q else if r.Some? then r else p;
            var unit := if w == SecondaryWindow then 86400 else 1;
            var bucket := ResetBucket(a, now, w);
            if first.None? then bucket == 10000 * 86400
            else if first.value <= now then bucket == 0
            else (bucket * unit) as real <= first.value - now < (bucket * unit + unit) as real
  {
  }

  // ----- Which accounts a strategy picks from -----

  predicate SoonestReset(s: seq<Account>, cfg: Config, now: real, a: Account) {
    forall b :: b in s && OnBestRung(s, b) ==> ResetBucket(a, now, cfg.window) <= ResetBucket(b, now, cfg.window)
  }

  /** On the best rung, with the soonest reset if that is preferred. */
  predicate Preferred(s: seq<Account>, cfg: Config, now: real, a: Account) {
    OnBestRung(s, a) && (cfg.preferEarlierReset ==> SoonestReset(s, cfg, now, a))
  }

  predicate InPool(s: seq<Account>, cfg: Config, now: real, a: Account) {
    match cfg.strategy
    case SingleAccount => a in s
    case SequentialDrain => a in s
    case ResetDrain => a in s
    case RoundRobin => OnBestRung(s, a)
    case UsageWeighted => OnBestRung(s, a)
    case FillFirst => Preferred(s, cfg, now, a)
    case CapacityWeighted =>
      && Preferred(s, cfg, now, a)
      && (!cfg.deterministicProbe ==> forall b :: b in s && Preferred(s, cfg, now, b) ==> Cost(a, cfg) <= Cost(b, cfg))
    case RelativeAvailability =>
      && OnBestRung(s, a)
      && forall b :: b in s && OnBestRung(s, b) ==> Cost(a, cfg) <= Cost(b, cfg)
  }

  lemma {:induction false} PreferredExactly(s: seq<Account>, cfg: Config, now: real, a: Account)
    requires s != [] && EffectivePool(s) != [] && cfg.preferEarlierReset
    ensures a in EarliestReset(EffectivePool(s), cfg, now) <==> Preferred(s, cfg, now, a)
  {
    EarliestMembers(EffectivePool(s), cfg, now, a);
    forall b ensures b in EffectivePool(s) <==> OnBestRung(s, b) { EffectivePoolExactly(s, b); }
  }

  lemma {:induction false} CheapestOfPreferred(s: seq<Account>, cfg: Config, now: real, pool: seq<Account>, a: Account)
    requires s != [] && pool != [] && forall b :: b in pool <==> Preferred(s, cfg, now, b)
    ensures a in Cheapest(pool, cfg) <==>
            Preferred(s, cfg, now, a) && forall b :: b in s && Preferred(s, cfg, now, b) ==> Cost(a, cfg) <= Cost(b, cfg)
  {
    CheapestMembers(pool, cfg, a);
  }

  /** The pool of a strategy, without the filters that build it. */
  lemma {:induction false} PoolExactly(s: seq<Account>, cfg: Config, now: real, a: Account)
    requires s != []
    ensures a in StrategyPool(s, cfg, now) <==> InPool(s, cfg, now, a)
  {
    PolicyPoolNonEmpty(TierPool(s));
    var effective := EffectivePool(s);
    EarliestNonEmpty(effective, cfg, now);
    forall b ensures b in effective <==> OnBestRung(s, b) { EffectivePoolExactly(s, b); }
    if cfg.preferEarlierReset {
      forall b ensures b in EarliestReset(effective, cfg, now) <==> Preferred(s, cfg, now, b) {
        PreferredExactly(s, cfg, now, b);
      }
    }
    if cfg.strategy.CapacityWeighted? {
      CheapestOfPreferred(s, cfg, now, if cfg.preferEarlierReset then EarliestReset(effective, cfg, now) else effective, a);
    }
    if cfg.strategy.RelativeAvailability? { CheapestMembers(effective, cfg, a); }
  }

  // ----- Whom the winner beats -----

  /** Less first; at a tie, what comes next decides. */
  predicate Then(x: real, y: real, next: bool) { x < y || (x == y && next) }

  predicate ThenText(x: string, y: string, next: bool) { TextLess(x, y) || (x == y && next) }

  predicate IdFirst(a: Account, b: Account) { ThenText(a.profile.id, b.profile.id, true) }

  /** Less used in the week, then in the short window, then longer not selected, then by id. */
  predicate LessUsed(a: Account, b: Account) {
    Then(SecondaryUsed(a), SecondaryUsed(b),
      Then(PrimaryUsed(a), PrimaryUsed(b), Then(LastSelected(a), LastSelected(b), IdFirst(a, b))))
  }

  predicate LessUsedPrimaryFirst(a: Account, b: Account) {
    Then(PrimaryUsed(a), PrimaryUsed(b),
      Then(SecondaryUsed(a), SecondaryUsed(b), Then(LastSelected(a), LastSelected(b), IdFirst(a, b))))
  }

  function Used(a: Account): real { if a.usedPercent.Some? then a.usedPercent.value else 0.0 }

  function WeeklyUsed(a: Account): real { if a.secondaryUsedPercent.Some? then a.secondaryUsedPercent.value else 0.0 }

  function Capacity(a: Account): real {
    if a.profile.capacityCredits.Some? && a.profile.capacityCredits.value > 0.0 then a.profile.capacityCredits.value
    else PlanCredits(a.profile.plan)
  }

  /** The weekly reset, else the short one, as far as it lies ahead. */
  function NextReset(a: Account, now: real): Option<real> {
    if a.profile.secondaryResetAt.Some? && a.profile.secondaryResetAt.value > now then a.profile.secondaryResetAt
    else if a.resetAt.Some? && a.resetAt.value > now then a.resetAt
    else None
  }

  /** Whole days until then; ten thousand if there is none. */
  function DaysLeft(a: Account, now: real): int {
    if NextReset(a, now).None? then 10000 else ((NextReset(a, now).value - now) / 86400.0).Floor
  }

  function Left(used: real): real { if used < 100.0 then 100.0 - used else 0.0 }

  predicate SoonerReset(a: Account, b: Account, now: real, next: bool) {
    match (NextReset(a, now), NextReset(b, now))
    case (Some(x), Some(y)) => Then(x, y, next)
    case (Some(_), None) => true
    case (None, Some(_)) => false
    case (None, None) => next
  }

  predicate Beats(a: Account, b: Account, cfg: Config, now: real) {
    var digests := ThenText(cfg.digest(a.profile.id), cfg.digest(b.profile.id), IdFirst(a, b));
    match cfg.strategy
    case SingleAccount => IdFirst(a, b)
    case SequentialDrain => Then(Capacity(a), Capacity(b), digests)
    case ResetDrain =>
      Then(DaysLeft(a, now) as real, DaysLeft(b, now) as real,
        Then(-Left(Used(a)), -Left(Used(b)),
          Then(-Left(if a.secondaryUsedPercent.Some? then WeeklyUsed(a) else Used(a)),
               -Left(if b.secondaryUsedPercent.Some? then WeeklyUsed(b) else Used(b)),
            SoonerReset(a, b, now, digests))))
    case RoundRobin => Then(Cost(a, cfg), Cost(b, cfg), Then(LastSelected(a), LastSelected(b), IdFirst(a, b)))
    case FillFirst => Then(-Used(a), -Used(b), Then(-WeeklyUsed(a), -WeeklyUsed(b), IdFirst(a, b)))
    case CapacityWeighted => Then(Cost(a, cfg), Cost(b, cfg), Then(-CreditsLeft(a), -CreditsLeft(b), LessUsed(a, b)))
    case UsageWeighted =>
      var cheaper := Then(Cost(a, cfg), Cost(b, cfg), if cfg.primaryFirst then LessUsedPrimaryFirst(a, b) else LessUsed(a, b));
      if cfg.preferEarlierReset
      then Then(ResetBucket(a, now, cfg.window) as real, ResetBucket(b, now, cfg.window) as real, cheaper)
      else cheaper
    case RelativeAvailability => true
  }

  lemma {:induction false} NumberDecides(x: real, y: real, a: Key, b: Key)
    ensures KeyLe([N(x)] + a, [N(y)] + b) <==> Then(x, y, KeyLe(a, b))
  {
    var k, l := [N(x)] + a, [N(y)] + b;
    assert k[0] == N(x) && l[0] == N(y) && k[1..] == a && l[1..] == b;
  }

  lemma {:induction false} TextDecides(x: string, y: string, a: Key, b: Key)
    ensures KeyLe([T(x)] + a, [T(y)] + b) <==> ThenText(x, y, KeyLe(a, b))
  {
    var k, l := [T(x)] + a, [T(y)] + b;
    assert k[0] == T(x) && l[0] == T(y) && k[1..] == a && l[1..] == b;
  }

  lemma {:induction false} IdDecides(a: Account, b: Account)
    ensures KeyLe([T(a.profile.id)], [T(b.profile.id)]) <==> IdFirst(a, b)
  {
    TextDecides(a.profile.id, b.profile.id, [], []);
    assert [T(a.profile.id)] + [] == [T(a.profile.id)] && [T(b.profile.id)] + [] == [T(b.profile.id)];
  }

  /** Three numbers and the id. */
  lemma {:induction false} ThreeDecide(x: real, y: real, z: real, x': real, y': real, z': real, a: Account, b: Account)
    ensures KeyLe([N(x), N(y), N(z), T(a.profile.id)], [N(x'), N(y'), N(z'), T(b.profile.id)]) <==>
            Then(x, x', Then(y, y', Then(z, z', IdFirst(a, b))))
  {
    var i, j := [T(a.profile.id)], [T(b.profile.id)];
    IdDecides(a, b);
    NumberDecides(z, z', i, j);
    NumberDecides(y, y', [N(z)] + i, [N(z')] + j);
    NumberDecides(x, x', [N(y)] + ([N(z)] + i), [N(y')] + ([N(z')] + j));
    assert [N(x)] + ([N(y)] + ([N(z)] + i)) == [N(x), N(y), N(z), T(a.profile.id)];
    assert [N(x')] + ([N(y')] + ([N(z')] + j)) == [N(x'), N(y'), N(z'), T(b.profile.id)];
  }

  lemma {:induction false} TwoDecide(x: real, y: real, x': real, y': real, a: Account, b: Account)
    ensures KeyLe([N(x), N(y), T(a.profile.id)], [N(x'), N(y'), T(b.profile.id)]) <==>
            Then(x, x', Then(y, y', IdFirst(a, b)))
  {
    var i, j := [T(a.profile.id)], [T(b.profile.id)];
    IdDecides(a, b);
    NumberDecides(y, y', i, j);
    NumberDecides(x, x', [N(y)] + i, [N(y')] + j);
    assert [N(x)] + ([N(y)] + i) == [N(x), N(y), T(a.profile.id)];
    assert [N(x')] + ([N(y')] + j) == [N(x'), N(y'), T(b.profile.id)];
  }

  lemma {:induction false} UseDecides(a: Account, b: Account)
    ensures KeyLe(UsageKey(a), UsageKey(b)) <==> LessUsed(a, b)
    ensures KeyLe(PrimaryUsageKey(a), PrimaryUsageKey(b)) <==> LessUsedPrimaryFirst(a, b)
  {
    ThreeDecide(SecondaryUsed(a), PrimaryUsed(a), LastSelected(a), SecondaryUsed(b), PrimaryUsed(b), LastSelected(b), a, b);
    ThreeDecide(PrimaryUsed(a), SecondaryUsed(a), LastSelected(a), PrimaryUsed(b), SecondaryUsed(b), LastSelected(b), a, b);
  }

  lemma {:induction false} DigestDecides(a: Account, b: Account, cfg: Config)
    ensures KeyLe([T(cfg.digest(a.profile.id)), T(a.profile.id)], [T(cfg.digest(b.profile.id)), T(b.profile.id)]) <==>
            ThenText(cfg.digest(a.profile.id), cfg.digest(b.profile.id), IdFirst(a, b))
  {
    var x, y, i, j := cfg.digest(a.profile.id), cfg.digest(b.profile.id), [T(a.profile.id)], [T(b.profile.id)];
    IdDecides(a, b);
    TextDecides(x, y, i, j);
    assert [T(x)] + i == [T(x), T(a.profile.id)] && [T(y)] + j == [T(y), T(b.profile.id)];
  }

  lemma {:induction false} WeightedUseDecides(a: Account, b: Account, cfg: Config, now: real)
    requires cfg.strategy.UsageWeighted?
    ensures KeyLe(KeyOf(a, cfg, now, RankingOf(cfg)), KeyOf(b, cfg, now, RankingOf(cfg))) <==> Beats(a, b, cfg, now)
  {
    UseDecides(a, b);
    var use, use' := if cfg.primaryFirst then PrimaryUsageKey(a) else UsageKey(a), if cfg.primaryFirst then PrimaryUsageKey(b) else UsageKey(b);
    var cost, cost' := Cost(a, cfg), Cost(b, cfg);
    var bucket, bucket' := ResetBucket(a, now, cfg.window) as real, ResetBucket(b, now, cfg.window) as real;
    NumberDecides(cost, cost', use, use');
    NumberDecides(bucket, bucket', [N(cost)] + use, [N(cost')] + use');
    assert [N(bucket)] + ([N(cost)] + use) == [N(bucket), N(cost)] + use;
    assert [N(bucket')] + ([N(cost')] + use') == [N(bucket'), N(cost')] + use';
  }

  lemma {:induction false} ProbeDecides(a: Account, b: Account, cfg: Config, now: real)
    requires cfg.strategy.CapacityWeighted?
    ensures KeyLe(KeyOf(a, cfg, now, ByProbe), KeyOf(b, cfg, now, ByProbe)) <==> Beats(a, b, cfg, now)
  {
    UseDecides(a, b);
    var cost, cost', left, left' := Cost(a, cfg), Cost(b, cfg), -CreditsLeft(a), -CreditsLeft(b);
    NumberDecides(left, left', UsageKey(a), UsageKey(b));
    NumberDecides(cost, cost', [N(left)] + UsageKey(a), [N(left')] + UsageKey(b));
    assert [N(cost)] + ([N(left)] + UsageKey(a)) == [N(cost), N(left)] + UsageKey(a);
    assert [N(cost')] + ([N(left')] + UsageKey(b)) == [N(cost'), N(left')] + UsageKey(b);
  }

  lemma {:induction false} SequenceDecides(a: Account, b: Account, cfg: Config, now: real)
    requires cfg.strategy.SequentialDrain?
    ensures KeyLe(KeyOf(a, cfg, now, BySequence), KeyOf(b, cfg, now, BySequence)) <==> Beats(a, b, cfg, now)
  {
    DigestDecides(a, b, cfg);
    var d, e := [T(cfg.digest(a.profile.id)), T(a.profile.id)], [T(cfg.digest(b.profile.id)), T(b.profile.id)];
    NumberDecides(ConfiguredCredits(a), ConfiguredCredits(b), d, e);
    assert [N(ConfiguredCredits(a))] + d == KeyOf(a, cfg, now, BySequence);
    assert [N(ConfiguredCredits(b))] + e == KeyOf(b, cfg, now, BySequence);
  }

  function ResetPart(a: Account, now: real): Part { if NextReset(a, now).None? then Inf else N(NextReset(a, now).value) }

  lemma {:induction false} ResetDecides(a: Account, b: Account, now: real, k: Key, l: Key)
    ensures KeyLe([ResetPart(a, now)] + k, [ResetPart(b, now)] + l) <==> SoonerReset(a, b, now, KeyLe(k, l))
  {
    var x, y := [ResetPart(a, now)] + k, [ResetPart(b, now)] + l;
    assert x[0] == ResetPart(a, now) && y[0] == ResetPart(b, now) && x[1..] == k && y[1..] == l;
  }

  lemma {:induction false} DrainKeyMeans(a: Account, cfg: Config, now: real)
    ensures KeyOf(a, cfg, now, ByResetDrain) ==
            [N(DaysLeft(a, now) as real)] + ([N(-Left(Used(a)))]
            + ([N(-Left(if a.secondaryUsedPercent.Some? then WeeklyUsed(a) else Used(a)))]
            + ([ResetPart(a, now)] + [T(cfg.digest(a.profile.id)), T(a.profile.id)])))
  {
    var days := ((OrElse(WeeklyReset(a, now), 0.0) - now) / 86400.0).Floor;
    assert WeeklyReset(a, now).Some? ==> days >= 0;
  }

  lemma {:induction false} DrainDecides(a: Account, b: Account, cfg: Config, now: real)
    requires cfg.strategy.ResetDrain?
    ensures KeyLe(KeyOf(a, cfg, now, ByResetDrain), KeyOf(b, cfg, now, ByResetDrain)) <==> Beats(a, b, cfg, now)
  {
    DrainKeyMeans(a, cfg, now);
    DrainKeyMeans(b, cfg, now);
    DigestDecides(a, b, cfg);
    var d, e := [T(cfg.digest(a.profile.id)), T(a.profile.id)], [T(cfg.digest(b.profile.id)), T(b.profile.id)];
    ResetDecides(a, b, now, d, e);
    var w := -Left(if a.secondaryUsedPercent.Some? then WeeklyUsed(a) else Used(a));
    var w' := -Left(if b.secondaryUsedPercent.Some? then WeeklyUsed(b) else Used(b));
    var k, l := [ResetPart(a, now)] + d, [ResetPart(b, now)] + e;
    NumberDecides(w, w', k, l);
    NumberDecides(-Left(Used(a)), -Left(Used(b)), [N(w)] + k, [N(w')] + l);
    NumberDecides(DaysLeft(a, now) as real, DaysLeft(b, now) as real,
                  [N(-Left(Used(a)))] + ([N(w)] + k), [N(-Left(Used(b)))] + ([N(w')] + l));
  }

  /** The strategy's key orders accounts as its rule says. */
  lemma {:induction false} KeyDecides(a: Account, b: Account, cfg: Config, now: real)
    requires Keyed(cfg)
    ensures KeyLe(KeyOf(a, cfg, now, RankingOf(cfg)), KeyOf(b, cfg, now, RankingOf(cfg))) <==> Beats(a, b, cfg, now)
  {
    match cfg.strategy
    case SingleAccount => IdDecides(a, b);
    case SequentialDrain => SequenceDecides(a, b, cfg, now);
    case ResetDrain => DrainDecides(a, b, cfg, now);
    case RoundRobin => TwoDecide(Cost(a, cfg), LastSelected(a), Cost(b, cfg), LastSelected(b), a, b);
    case FillFirst => TwoDecide(-Used(a), -WeeklyUsed(a), -Used(b), -WeeklyUsed(b), a, b);
    case CapacityWeighted => ProbeDecides(a, b, cfg, now);
    case UsageWeighted => WeightedUseDecides(a, b, cfg, now);
  }

  /** Every keyed strategy: the winner is in the strategy's pool and beats everybody there. */
  lemma {:induction false} WinnerBeatsThePool(s: seq<Account>, cfg: Config, now: real, b: Account)
    requires s != [] && 0.0 <= cfg.draw < 1.0 && Keyed(cfg) && InPool(s, cfg, now, b)
    ensures InPool(s, cfg, now, Winner(s, cfg, now)) && Beats(Winner(s, cfg, now), b, cfg, now)
  {
    var a := Winner(s, cfg, now);
    WinnerFromPool(s, cfg, now);
    PoolExactly(s, cfg, now, a);
    PoolExactly(s, cfg, now, b);
    KeyDecides(a, b, cfg, now);
    assert KeyLe(By(cfg, now, RankingOf(cfg))(a), By(cfg, now, RankingOf(cfg))(b));
  }

  // ----- The two random strategies, where they do not draw -----

  /** If nobody in the pool has credits left, capacity weighting takes the least used. */
  lemma {:induction false} WithoutCredits(s: seq<Account>, cfg: Config, now: real, b: Account)
    requires s != [] && 0.0 <= cfg.draw < 1.0 && cfg.strategy.CapacityWeighted? && !cfg.deterministicProbe
    requires forall c :: c in StrategyPool(s, cfg, now) ==> CreditsLeft(c) == 0.0
    requires b in StrategyPool(s, cfg, now)
    ensures Winner(s, cfg, now) in StrategyPool(s, cfg, now) && LessUsed(Winner(s, cfg, now), b)
  {
    var pool := StrategyPool(s, cfg, now);
    NoCredits(pool);
    LeastUsed(pool, cfg, now, b);
  }

  lemma {:induction false} NoCredits(pool: seq<Account>)
    requires forall c :: c in pool ==> CreditsLeft(c) == 0.0
    ensures Sum(CreditWeights(pool)) <= 0.0
  {
    PositiveSum(CreditWeights(pool));
  }

  lemma {:induction false} LeastUsed(pool: seq<Account>, cfg: Config, now: real, b: Account)
    requires b in pool
    ensures var a := MinBy(pool, By(cfg, now, ByUsage)); a in pool && LessUsed(a, b)
  {
    var a := MinBy(pool, By(cfg, now, ByUsage));
    UseDecides(a, b);
    assert KeyLe(By(cfg, now, ByUsage)(a), By(cfg, now, ByUsage)(b));
  }

  /** If nobody in the pool has a positive score, relative availability takes the least used. */
  lemma {:induction false} WithoutScores(s: seq<Account>, cfg: Config, now: real, b: Account)
    requires s != [] && 0.0 <= cfg.draw < 1.0 && cfg.strategy.RelativeAvailability? && Rel.PowerLaws(cfg.pow)
    requires forall c :: c in StrategyPool(s, cfg, now) ==> Rel.RawScore(c, now) == 0.0
    requires b in StrategyPool(s, cfg, now)
    ensures Winner(s, cfg, now) in StrategyPool(s, cfg, now) && LessUsed(Winner(s, cfg, now), b)
  {
    var pool := StrategyPool(s, cfg, now);
    Rel.CandidatesAreTheBest(pool, now, cfg.power, cfg.topK, cfg.pow);
    LeastUsed(pool, cfg, now, b);
  }

  /** A probe of relative availability takes the best score, and the least used at a tie. */
  lemma {:induction false} RelativeProbeBeats(s: seq<Account>, cfg: Config, now: real, b: Account)
    requires s != [] && 0.0 <= cfg.draw < 1.0 && cfg.strategy.RelativeAvailability? && cfg.deterministicProbe
    requires Rel.PowerLaws(cfg.pow) && b in StrategyPool(s, cfg, now) && Rel.RawScore(b, now) > 0.0
    ensures var a := Winner(s, cfg, now);
            && a in StrategyPool(s, cfg, now)
            && Then(-Rel.RawScore(a, now), -Rel.RawScore(b, now), LessUsed(a, b))
  {
    var pool := StrategyPool(s, cfg, now);
    var top := RelativeTop(pool, cfg, now);
    Rel.CandidatesAreTheBest(pool, now, cfg.power, cfg.topK, cfg.pow);
    var i :| 0 <= i < |pool| && pool[i] == b;
    assert top != [] && top[0] in top;
    if Rel.RawScore(b, now) == top[0].raw {
      var best := Rel.Best(pool, now);
      var v := Rel.Weighted(b, 1.0, best);
      Order.TopIsLeast(pool, now, cfg);
      Rel.WeightGrows(best, best, best, cfg.power, cfg.pow);
      Rel.WeighMembers(pool, now, best, cfg.power, cfg.pow, v);
      TieAtTheTop(Rel.Weigh(pool, now, best, cfg.power, cfg.pow), top[0], v);
    }
  }

  lemma {:induction false} TieAtTheTop(weighed: seq<Rel.Weighted>, w: Rel.Weighted, v: Rel.Weighted)
    requires Least(weighed, Rel.WeightedKey, w) && v in weighed && v.weight == w.weight && v.raw == w.raw
    ensures LessUsed(w.account, v.account)
  {
    RankDecides(w, v);
  }

  /** Candidates are ranked by weight, then score, then use. */
  lemma {:induction false} RankDecides(w: Rel.Weighted, v: Rel.Weighted)
    ensures KeyLe(Rel.WeightedKey(w), Rel.WeightedKey(v)) <==>
            Then(-w.weight, -v.weight, Then(-w.raw, -v.raw, LessUsed(w.account, v.account)))
  {
    var k, l := UsageKey(w.account), UsageKey(v.account);
    NumberDecides(-w.raw, -v.raw, k, l);
    NumberDecides(-w.weight, -v.weight, [N(-w.raw)] + k, [N(-v.raw)] + l);
    assert [N(-w.weight)] + ([N(-w.raw)] + k) == Rel.WeightedKey(w);
    assert [N(-v.weight)] + ([N(-v.raw)] + l) == Rel.WeightedKey(v);
    UseDecides(w.account, v.account);
  }

  /** Weights are the scores relative to the best, raised to the power, which is two unless a
      positive one is asked for; and unless the list is full, everybody whose weight is a tenth
      at least is on it. */
  lemma {:induction false} CandidatesAreComplete(s: seq<Account>, cfg: Config, now: real, best: real, a: Account)
    requires Rel.PowerLaws(cfg.pow) && best == Rel.Best(s, now) && best > 0.0 && a in s
    ensures var top := Rel.Candidates(s, now, cfg.power, cfg.topK, cfg.pow);
            var p := if cfg.power > 0.0 then cfg.power else 2.0;
            && (forall w :: w in top ==> w.weight == cfg.pow(Rel.RawScore(w.account, now) / best, p))
            && (|top| < (if cfg.topK > 1 then cfg.topK else 1) && cfg.pow(Rel.RawScore(a, now) / best, p) >= 0.1 ==>
                  Rel.Retained(top, a))
  {
    Rel.Ranked(s, now, best, cfg.power, cfg.pow);
    var top := Rel.Candidates(s, now, cfg.power, cfg.topK, cfg.pow);
    var ranked := SortBy(Rel.Weigh(s, now, best, cfg.power, cfg.pow), Rel.WeightedKey);
    var w := Rel.Weighted(a, Rel.Weight(Rel.RawScore(a, now), best, cfg.power, cfg.pow), Rel.RawScore(a, now));
    if |top| < (if cfg.topK > 1 then cfg.topK else 1) {
      assert top == ranked;
      assert w.weight >= 0.1 ==> w in ranked;
    }
  }
}
