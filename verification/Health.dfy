/** Health tiers: `evaluate_health_tier` of app/core/balancer/logic.py, and the runtime that
    keeps an account's tier, drain time and success streak (app/modules/proxy/load_balancer.py). */
module Health {
  import opened Common
  import opened Accounts

  const HEALTHY := 0
  const DRAINING := 1
  const PROBING := 2

  datatype Thresholds = Thresholds(
    primaryPercent: real, secondaryPercent: real, errorWindow: real, errorCount: int,
    quietSeconds: real, streak: int)

  /** What an evaluation looks at besides the tier. */
  datatype Reading = Reading(
    status: Status, usedPercent: Option<real>, secondaryUsedPercent: Option<real>,
    lastErrorAt: Option<real>, errorCount: int)

  predicate AtLeast(x: Option<real>, bound: real) { x.Some? && x.value >= bound }

  predicate ShouldDrain(x: Reading, now: real, t: Thresholds) {
    || AtLeast(x.usedPercent, t.primaryPercent)
    || AtLeast(x.secondaryUsedPercent, t.secondaryPercent)
    || (x.errorCount >= t.errorCount && x.lastErrorAt.Some? && now - x.lastErrorAt.value < t.errorWindow)
  }

  datatype Runtime = Runtime(tier: int, drainEnteredAt: Option<real>, streak: int)

  function Evaluate(r: Runtime, x: Reading, now: real, t: Thresholds): int {
    if x.status != Active then r.tier
    else if r.tier == HEALTHY then (if ShouldDrain(x, now, t) then DRAINING else HEALTHY)
    else if r.tier == DRAINING then
      if ShouldDrain(x, now, t) then DRAINING
      else if r.drainEnteredAt.Some? && now - r.drainEnteredAt.value >= t.quietSeconds then PROBING
      else DRAINING
    else if r.tier == PROBING then
      if ShouldDrain(x, now, t) then DRAINING
      else if r.streak >= t.streak then HEALTHY
      else PROBING
    else HEALTHY
  }

  /** An evaluation with soft draining on (`entered` is the clock when the result is stored),
      one with it off, a recorded success, and recorded errors. */
  datatype Event =
    | Evaluated(x: Reading, now: real, entered: real, t: Thresholds)
    | SoftDrainOff
    | Success
    | Failures

  function Step(r: Runtime, e: Event): Runtime {
    match e
    case Evaluated(x, now, entered, t) =>
      var tier := Evaluate(r, x, now, t);
      if tier == DRAINING && r.tier != DRAINING then Runtime(DRAINING, Some(entered), 0)
      else if tier == HEALTHY then Runtime(HEALTHY, None, 0)
      else r.(tier := tier)
    case SoftDrainOff => Runtime(HEALTHY, None, 0)
    case Success => if r.tier == PROBING then r.(streak := r.streak + 1) else r
    case Failures => if r.tier == PROBING then r.(streak := 0) else r
  }

  function Run(r: Runtime, events: seq<Event>): Runtime {
    if events == [] then r else Step(Run(r, events[..|events| - 1]), events[|events| - 1])
  }

  const Fresh := Runtime(HEALTHY, None, 0)

  predicate Consistent(r: Runtime) {
    && 0 <= r.tier <= 2
    && (r.tier == DRAINING ==> r.drainEnteredAt.Some? && r.streak == 0)
  }

  lemma {:induction false} RunConsistent(r: Runtime, events: seq<Event>)
    requires Consistent(r)
    ensures Consistent(Run(r, events))
  {
    if events != [] { RunConsistent(r, events[..|events| - 1]); }
  }

  /** Any status but active freezes the tier. */
  lemma {:induction false} InactiveFreezesTier(r: Runtime, e: Event)
    requires Consistent(r) && e.Evaluated? && e.x.status != Active
    ensures Step(r, e).tier == r.tier
  {
  }

  // ----- From draining back to healthy -----

  predicate SoftDraining(events: seq<Event>) { forall i :: 0 <= i < |events| ==> !events[i].SoftDrainOff? }

  /** Event i is an active evaluation without a drain condition that finds the account
      draining for at least the quiet period, and starts probing. */
  predicate StartsProbing(r: Runtime, events: seq<Event>, i: int) {
    && 0 <= i < |events| && events[i].Evaluated?
    && var at, e := Run(r, events[..i]), events[i];
       && at.tier == DRAINING && Step(at, e).tier == PROBING
       && e.x.status == Active && !ShouldDrain(e.x, e.now, e.t)
       && at.drainEnteredAt.Some? && e.now - at.drainEnteredAt.value >= e.t.quietSeconds
  }

  /** Event j is an active evaluation without a drain condition that finds a probing account
      with the required streak. */
  predicate EndsProbing(r: Runtime, events: seq<Event>, j: int) {
    && 0 <= j < |events| && events[j].Evaluated?
    && var at, e := Run(r, events[..j]), events[j];
       && at.tier == PROBING && Step(at, e).tier == HEALTHY
       && e.x.status == Active && !ShouldDrain(e.x, e.now, e.t) && at.streak >= e.t.streak
  }

  function Successes(events: seq<Event>): nat {
    if events == [] then 0
    else Successes(events[..|events| - 1]) + if events[|events| - 1].Success? then 1 else 0
  }

  /** Probing from after event i until event j, on a streak of successes recorded meanwhile. */
  predicate ProbedFrom(r: Runtime, events: seq<Event>, i: int, j: int) {
    && 0 <= i < j <= |events| && StartsProbing(r, events, i)
    && (forall k :: i < k <= j ==> Run(r, events[..k]).tier == PROBING)
    && Run(r, events[..j]).streak <= Successes(events[i + 1..j])
  }

  lemma {:induction false} StepTiers(r: Runtime, e: Event)
    requires Consistent(r) && !e.SoftDrainOff?
    ensures Step(r, e).tier == PROBING ==> r.tier == PROBING || r.tier == DRAINING
    ensures Step(r, e).tier == HEALTHY ==> r.tier == PROBING || r.tier == HEALTHY
  {
  }

  lemma {:induction false} ProbingGoesOn(r: Runtime, events: seq<Event>, i: nat, m: nat)
    requires ProbedFrom(r, events, i, m) && m < |events| && Run(r, events[..m + 1]).tier == PROBING
    requires !events[m].SoftDrainOff?
    ensures ProbedFrom(r, events, i, m + 1)
  {
    assert events[..m + 1][..m] == events[..m];
    var since := events[i + 1..m + 1];
    assert since[..|since| - 1] == events[i + 1..m];
  }

  lemma {:induction false} HowProbingStarted(r: Runtime, events: seq<Event>, n: nat) returns (i: nat)
    requires Consistent(r) && r.tier == DRAINING && SoftDraining(events) && n <= |events|
    requires Run(r, events[..n]).tier == PROBING
    ensures ProbedFrom(r, events, i, n)
    decreases n
  {
    var m := n - 1;
    assert events[..n][..m] == events[..m];
    RunConsistent(r, events[..m]);
    StepTiers(Run(r, events[..m]), events[m]);
    if Run(r, events[..m]).tier == DRAINING {
      i := m;
    } else {
      i := HowProbingStarted(r, events, m);
      ProbingGoesOn(r, events, i, m);
    }
  }

  /** A draining account is healthy again only after an evaluation that started probing, the
      account staying in probing on at least the required number of recorded successes, and
      an evaluation that found it so; neither evaluation saw a drain condition. */
  lemma {:induction false} RecoveryGoesThroughProbing(r: Runtime, events: seq<Event>, n: nat) returns (i: nat, j: nat)
    requires Consistent(r) && r.tier == DRAINING && SoftDraining(events) && n <= |events|
    requires Run(r, events[..n]).tier == HEALTHY
    ensures j < n && ProbedFrom(r, events, i, j) && EndsProbing(r, events, j)
    ensures Successes(events[i + 1..j]) >= events[j].t.streak
    decreases n
  {
    var m := n - 1;
    assert events[..n][..m] == events[..m];
    RunConsistent(r, events[..m]);
    StepTiers(Run(r, events[..m]), events[m]);
    if Run(r, events[..m]).tier == PROBING {
      i := HowProbingStarted(r, events, m);
      j := m;
    } else {
      i, j := RecoveryGoesThroughProbing(r, events, m);
    }
  }

  /** Probing starts if and only if the account is draining, is active without a drain
      condition now, and entered draining at least the quiet period ago. */
  lemma {:induction false} ProbingStartsExactly(r: Runtime, x: Reading, now: real, entered: real, t: Thresholds)
    requires Consistent(r) && r.tier != PROBING
    ensures Step(r, Evaluated(x, now, entered, t)).tier == PROBING <==>
            && r.tier == DRAINING && x.status == Active && !ShouldDrain(x, now, t)
            && now - r.drainEnteredAt.value >= t.quietSeconds
  {
  }

  // ----- How quiet the quiet period is -----

  /** An evaluation that finds a drain condition on an active account. */
  predicate SeesDrain(e: Event) { e.Evaluated? && e.x.status == Active && ShouldDrain(e.x, e.now, e.t) }

  /** The clock never runs backwards, within an evaluation or from one to the next. */
  predicate Clocked(events: seq<Event>) {
    && (forall j :: 0 <= j < |events| && events[j].Evaluated? ==> events[j].now <= events[j].entered)
    && (forall j, k :: 0 <= j < k < |events| && events[j].Evaluated? && events[k].Evaluated? ==>
          events[j].entered <= events[k].now)
  }

  /** Event m took the account into draining, where it stayed until event i. */
  predicate DrainedFrom(r: Runtime, events: seq<Event>, m: int, i: int) {
    && 0 <= m < i <= |events| && SeesDrain(events[m]) && Run(r, events[..m]).tier != DRAINING
    && (forall k :: m < k <= i ==> Run(r, events[..k]).tier == DRAINING)
    && Run(r, events[..i]).drainEnteredAt == Some(events[m].entered)
  }

  lemma {:induction false} DrainingGoesOn(r: Runtime, events: seq<Event>, m: nat, n: nat)
    requires DrainedFrom(r, events, m, n) && n < |events| && Run(r, events[..n + 1]).tier == DRAINING
    ensures DrainedFrom(r, events, m, n + 1)
  {
    assert events[..n + 1][..n] == events[..n];
  }

  lemma {:induction false} DrainingStarts(r: Runtime, e: Event)
    requires Consistent(r) && r.tier != DRAINING && Step(r, e).tier == DRAINING
    ensures SeesDrain(e) && Step(r, e).drainEnteredAt == Some(e.entered)
  {
  }

  lemma {:induction false} HowDrainingStarted(r: Runtime, events: seq<Event>, i: nat) returns (m: nat)
    requires Consistent(r) && r.tier != DRAINING && i <= |events| && Run(r, events[..i]).tier == DRAINING
    ensures DrainedFrom(r, events, m, i)
    decreases i
  {
    var n := i - 1;
    assert events[..i][..n] == events[..n];
    RunConsistent(r, events[..n]);
    if Run(r, events[..n]).tier == DRAINING {
      m := HowDrainingStarted(r, events, n);
      DrainingGoesOn(r, events, m, n);
    } else {
      m := n;
      DrainingStarts(Run(r, events[..n]), events[n]);
    }
  }

  /** Every drain condition seen by an event from `from` on is, at event i, at least as old as
      the quiet period. */
  predicate QuietSince(events: seq<Event>, from: nat, i: nat)
    requires i < |events| && events[i].Evaluated?
  {
    forall j :: from <= j < i && SeesDrain(events[j]) ==> events[i].now - events[j].now >= events[i].t.quietSeconds
  }

  /** In every run that starts probing at event i, the quiet period before it was quiet if and
      only if no evaluation between the entry into draining and event i saw a drain condition
      more recently than that: everything up to the entry is old enough. */
  lemma {:induction false} QuietExactly(r: Runtime, events: seq<Event>, i: nat) returns (m: nat)
    requires Consistent(r) && r.tier != DRAINING && Clocked(events) && StartsProbing(r, events, i)
    ensures DrainedFrom(r, events, m, i)
    ensures QuietSince(events, 0, i) <==> QuietSince(events, m + 1, i)
  {
    m := HowDrainingStarted(r, events, i);
    var e := events[i];
    RunConsistent(r, events[..i]);
    ProbingStartsExactly(Run(r, events[..i]), e.x, e.now, e.entered, e.t);
    forall j | 0 <= j <= m && SeesDrain(events[j]) ensures e.now - events[j].now >= e.t.quietSeconds {
      assert events[j].now <= events[m].entered;
    }
  }

  predicate ClockAfter(events: seq<Event>, clock: real) {
    forall j :: 0 <= j < |events| && events[j].Evaluated? ==> events[j].entered <= clock
  }

  /** An evaluation at the present clock or later, under quiet period q, that starts probing. */
  predicate ProbesNext(r: Runtime, events: seq<Event>, clock: real, q: real, e: Event) {
    && e.Evaluated? && e.now >= clock && e.t.quietSeconds == q
    && Run(r, events).tier == DRAINING && Step(Run(r, events), e).tier == PROBING
  }

  /** What a drain condition seen since the entry must be for the next probing to come after
      a quiet period: seen no later than the entry, or old enough already. */
  predicate Harmless(e: Event, enteredAt: real, clock: real, q: real)
    requires e.Evaluated?
  {
    e.now <= enteredAt || clock - e.now >= q
  }

  const CLEAN := Reading(Active, None, None, None, 0)

  /** Asked of a draining account before the next evaluation: every evaluation that can start
      probing comes after a quiet period if and only if every drain condition seen since the
      entry into draining is harmless by now. */
  lemma {:induction false} QuietForEveryNext(r: Runtime, events: seq<Event>, clock: real, q: real) returns (m: nat)
    requires Consistent(r) && r.tier != DRAINING && Clocked(events) && ClockAfter(events, clock)
    requires Run(r, events).tier == DRAINING
    ensures DrainedFrom(r, events, m, |events|)
    ensures (forall e :: ProbesNext(r, events, clock, q, e) ==> QuietSince(events + [e], 0, |events|)) <==>
            (forall j :: m < j < |events| && SeesDrain(events[j]) ==> Harmless(events[j], events[m].entered, clock, q))
  {
    assert events[..|events|] == events;
    m := HowDrainingStarted(r, events, |events|);
    var enteredAt := events[m].entered;
    if forall j :: m < j < |events| && SeesDrain(events[j]) ==> Harmless(events[j], enteredAt, clock, q) {
      forall e | ProbesNext(r, events, clock, q, e) ensures QuietSince(events + [e], 0, |events|) {
        HarmlessIsQuiet(r, events, clock, q, m, e);
      }
    } else {
      var j :| m < j < |events| && SeesDrain(events[j]) && !Harmless(events[j], enteredAt, clock, q);
      var now := if clock >= enteredAt + q then clock else enteredAt + q;
      var e := Evaluated(CLEAN, now, now, Thresholds(85.0, 90.0, 60.0, 2, q, 3));
      assert ProbesNext(r, events, clock, q, e);
      assert (events + [e])[j] == events[j] && (events + [e])[|events|] == e;
      assert !QuietSince(events + [e], 0, |events|);
    }
  }

  lemma {:induction false} HarmlessIsQuiet(r: Runtime, events: seq<Event>, clock: real, q: real, m: nat, e: Event)
    requires Consistent(r) && Clocked(events) && ClockAfter(events, clock) && DrainedFrom(r, events, m, |events|)
    requires forall j :: m < j < |events| && SeesDrain(events[j]) ==> Harmless(events[j], events[m].entered, clock, q)
    requires ProbesNext(r, events, clock, q, e)
    ensures QuietSince(events + [e], 0, |events|)
  {
    assert events[..|events|] == events;
    RunConsistent(r, events);
    ProbingStartsExactly(Run(r, events), e.x, e.now, e.entered, e.t);
    forall j | 0 <= j < |events| && SeesDrain((events + [e])[j]) ensures e.now - events[j].now >= q {
      assert (events + [e])[j] == events[j];
      assert j <= m ==> events[j].now <= events[m].entered;
    }
  }

  /** The quiet period runs from the entry into draining, not from the last drain condition:
      an account can start probing one second after an evaluation that saw one. */
  lemma {:induction false} QuietPeriodMayNotBeQuiet()
    ensures var t := Thresholds(85.0, 90.0, 60.0, 2, 60.0, 3);
            var full := Reading(Active, Some(99.0), None, None, 0);
            var fine := Reading(Active, Some(10.0), None, None, 0);
            var events := [Evaluated(full, 1.0, 1.0, t), Evaluated(full, 100.0, 100.0, t), Evaluated(fine, 101.0, 101.0, t)];
            && ShouldDrain(full, 100.0, t)
            && Run(Fresh, events[..2]).tier == DRAINING
            && Run(Fresh, events).tier == PROBING
  {
    var t := Thresholds(85.0, 90.0, 60.0, 2, 60.0, 3);
    var full := Reading(Active, Some(99.0), None, None, 0);
    var fine := Reading(Active, Some(10.0), None, None, 0);
    var events := [Evaluated(full, 1.0, 1.0, t), Evaluated(full, 100.0, 100.0, t), Evaluated(fine, 101.0, 101.0, t)];
    assert events[..1][..0] == [] && events[..2][..1] == events[..1];
    assert Run(Fresh, events[..1]) == Step(Fresh, events[0]);
    assert Run(Fresh, events[..2]) == Step(Run(Fresh, events[..1]), events[1]);
    assert Run(Fresh, events) == Step(Run(Fresh, events[..2]), events[2]);
  }

  // ----- What an evaluation does, in its own figures -----

  /** An active account at or above a usage threshold, or with the threshold's number of errors
      and the last one within the window. */
  predicate Hot(e: Event) {
    && e.Evaluated? && e.x.status == Active
    && (|| (e.x.usedPercent.Some? && e.x.usedPercent.value >= e.t.primaryPercent)
        || (e.x.secondaryUsedPercent.Some? && e.x.secondaryUsedPercent.value >= e.t.secondaryPercent)
        || (&& e.x.errorCount >= e.t.errorCount && e.x.lastErrorAt.Some?
            && e.x.lastErrorAt.value > e.now - e.t.errorWindow))
  }

  predicate Cool(e: Event) { e.Evaluated? && e.x.status == Active && !Hot(e) }

  /** A hot evaluation drains whatever the tier; only the first one sets the entry time. */
  lemma {:induction false} HotDrains(r: Runtime, e: Event)
    requires Consistent(r) && Hot(e)
    ensures SeesDrain(e)
    ensures Step(r, e) == if r.tier == DRAINING then r else Runtime(DRAINING, Some(e.entered), 0)
  {
  }

  /** What a cool evaluation does: nothing to a healthy account, probing to one that has been
      draining for the quiet period, health to one that has probed with the required streak. */
  lemma {:induction false} CoolRecovers(r: Runtime, e: Event)
    requires Consistent(r) && Cool(e)
    ensures !SeesDrain(e)
    ensures r.tier == HEALTHY ==> Step(r, e) == Runtime(HEALTHY, None, 0)
    ensures r.tier == DRAINING ==>
              Step(r, e) == r.(tier := if e.now >= r.drainEnteredAt.value + e.t.quietSeconds then PROBING else DRAINING)
    ensures r.tier == PROBING ==> Step(r, e) == if r.streak >= e.t.streak then Runtime(HEALTHY, None, 0) else r
  {
  }

  lemma {:induction false} RunConcat(r: Runtime, events: seq<Event>, e: Event)
    ensures Run(r, events + [e]) == Step(Run(r, events), e)
  {
    assert (events + [e])[..|events|] == events;
  }

  lemma {:induction false} SuccessesCount(r: Runtime, k: nat)
    requires r.tier == PROBING
    ensures Run(r, seq(k, _ => Success)) == r.(streak := r.streak + k)
  {
    if k > 0 {
      SuccessesCount(r, k - 1);
      assert seq(k, _ => Success) == seq(k - 1, _ => Success) + [Success];
      RunConcat(r, seq(k - 1, _ => Success), Success);
    }
  }

  /** The way back: a cool evaluation a quiet period after the entry, k successes, and another
      cool evaluation make a draining account healthy exactly if k reaches the streak. */
  lemma {:induction false} WayBack(r: Runtime, first: Event, k: nat, last: Event)
    requires Consistent(r) && r.tier == DRAINING && Cool(first) && Cool(last)
    requires first.now >= r.drainEnteredAt.value + first.t.quietSeconds
    ensures Run(Run(Step(r, first), seq(k, _ => Success)), [last]).tier == if k >= last.t.streak then HEALTHY else PROBING
  {
    CoolRecovers(r, first);
    var probing := Step(r, first);
    SuccessesCount(probing, k);
    var counted := Run(probing, seq(k, _ => Success));
    CoolRecovers(counted, last);
    assert [last][..0] == [];
    assert Run(counted, [last]) == Step(counted, last);
  }

  /** Without soft draining every account is healthy. */
  lemma {:induction false} SwitchedOffIsHealthy(r: Runtime, events: seq<Event>)
    ensures Run(r, events + [SoftDrainOff]) == Runtime(0, None, 0)
  {
    RunConcat(r, events, SoftDrainOff);
  }

  /** An error while probing starts the streak over. */
  lemma {:induction false} ErrorsStartOver(r: Runtime, k: nat)
    requires r.tier == PROBING
    ensures Run(Step(r, Failures), seq(k, _ => Success)) == r.(streak := k)
  {
    SuccessesCount(Step(r, Failures), k);
  }
}
