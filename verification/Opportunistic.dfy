/** Opportunistic traffic: which accounts it may burn (app/core/balancer/logic.py). */
module Opportunistic {
  import opened Common
  import opened Accounts

  datatype Policy = BurnFirst | Normal | Preserve

  function PolicyOf(a: Account): Policy {
    if a.profile.routingPolicy == "burn_first" then BurnFirst
    else if a.profile.routingPolicy == "preserve" then Preserve
    else Normal
  }

  const HOUR := 3600.0
  const DAY := 86400.0
  const WEEK := 604800.0

  function UsedPercent(a: Account, secondary: bool): Option<real> {
    if secondary && a.secondaryUsedPercent.Some? then a.secondaryUsedPercent else a.usedPercent
  }

  function Remaining(a: Account, secondary: bool): Option<real> {
    var used := UsedPercent(a, secondary);
    if used.None? then None else Some(Max(0.0, 100.0 - Min(100.0, used.value)))
  }

  function SecondsUntil(t: Option<real>, now: real): Option<real> {
    if t.None? then None else Some(Max(0.0, t.value - now))
  }

  predicate RecentlySelected(a: Account, now: real) {
    a.profile.lastSelectedAt.Some? && now - a.profile.lastSelectedAt.value <= 1800.0
  }

  function WeeklyFloor(a: Account, now: real): real {
    var left, used := SecondsUntil(a.profile.secondaryResetAt, now), UsedPercent(a, true);
    if left.None? || used.None? then 100.0
    else
      var elapsed := Max(0.0, WEEK - left.value);
      var expected := Min(100.0, (elapsed / WEEK) * 100.0);
      var behind := used.value + 5.0 < expected;
      var pace := if left.value <= 6.0 * HOUR && behind then 0.0
                  else if left.value <= DAY && behind then 2.0
                  else if behind then 5.0
                  else 15.0;
      Max(5.0, if RecentlySelected(a, now) then Max(pace, 25.0) else pace)
  }

  function ShortFloor(a: Account, now: real, preserveCount: int): real {
    var left := SecondsUntil(a.resetAt, now);
    if left.None? then 100.0
    else
      var one := if left.value > HOUR then 20.0 else 10.0;
      var two := if RecentlySelected(a, now) then Max(one, 30.0) else one;
      if preserveCount <= 1 then Max(two, 25.0) else two
  }

  predicate PreserveAllowsBurn(a: Account, now: real, preserveCount: int) {
    && Remaining(a, true).Some? && Remaining(a, false).Some?
    && a.profile.secondaryResetAt.Some? && a.resetAt.Some?
    && Remaining(a, true).value > WeeklyFloor(a, now)
    && Remaining(a, false).value > ShortFloor(a, now, preserveCount)
  }

  function CountPreserve(s: seq<Account>): nat {
    if s == [] then 0
    else CountPreserve(s[..|s| - 1]) + if PolicyOf(s[|s| - 1]) == Preserve then 1 else 0
  }

  /** What makes `other` usable foreground capacity besides the candidate. */
  predicate UsableBesides(id: string, other: Account, now: real, preserveCount: int) {
    && other.profile.id != id && other.status == Active
    && (PolicyOf(other) == Preserve ==> PreserveAllowsBurn(other, now, preserveCount))
  }

  predicate OthersUsable(id: string, available: seq<Account>, now: real) {
    exists i :: 0 <= i < |available| && UsableBesides(id, available[i], now, CountPreserve(available))
  }

  predicate AboveEmergencyFloor(a: Account) {
    && Remaining(a, false).Some? && Remaining(a, false).value > 5.0
    && Remaining(a, true).Some? && Remaining(a, true).value > 5.0
  }

  predicate Burnable(a: Account, available: seq<Account>, now: real) {
    if PolicyOf(a) == Preserve then PreserveAllowsBurn(a, now, CountPreserve(available))
    else OthersUsable(a.profile.id, available, now) || AboveEmergencyFloor(a)
  }

  /** The burnable accounts of one policy, in order. */
  function Pick(s: seq<Account>, p: Policy, available: seq<Account>, now: real): seq<Account> {
    if s == [] then []
    else
      var init, last := Pick(s[..|s| - 1], p, available, now), s[|s| - 1];
      if PolicyOf(last) == p && Burnable(last, available, now) then init + [last] else init
  }

  /** `_filter_opportunistic_candidates`: burn-first accounts, then normal ones, then preserved ones. */
  function Candidates(available: seq<Account>, now: real): seq<Account> {
    Pick(available, BurnFirst, available, now) + Pick(available, Normal, available, now)
    + Pick(available, Preserve, available, now)
  }

  method HasOtherUsableCapacity(id: string, available: seq<Account>, now: real) returns (usable: bool)
    ensures usable == OthersUsable(id, available, now)
  {
    var preserveCount := CountPreserve(available);
    for i := 0 to |available|
      invariant forall j :: 0 <= j < i ==> !UsableBesides(id, available[j], now, preserveCount)
    {
      var other := available[i];
      if other.profile.id == id || other.status != Active {
        continue;
      }
      if PolicyOf(other) == Preserve {
        if PreserveAllowsBurn(other, now, preserveCount) {
          return true;
        }
        continue;
      }
      return true;
    }
    return false;
  }

  method FilterCandidates(available: seq<Account>, now: real) returns (pool: seq<Account>)
    ensures pool == Candidates(available, now)
  {
    var burnFirst, normal, preserve: seq<Account> := [], [], [];
    var preserveCount := CountPreserve(available);
    for i := 0 to |available|
      invariant burnFirst == Pick(available[..i], BurnFirst, available, now)
      invariant normal == Pick(available[..i], Normal, available, now)
      invariant preserve == Pick(available[..i], Preserve, available, now)
    {
      var a := available[i];
      assert available[..i + 1][..i] == available[..i];
      match PolicyOf(a) {
        case Preserve =>
          if PreserveAllowsBurn(a, now, preserveCount) { preserve := preserve + [a]; }
        case BurnFirst =>
          var others := HasOtherUsableCapacity(a.profile.id, available, now);
          if others || AboveEmergencyFloor(a) { burnFirst := burnFirst + [a]; }
        case Normal =>
          var others := HasOtherUsableCapacity(a.profile.id, available, now);
          if others || AboveEmergencyFloor(a) { normal := normal + [a]; }
      }
    }
    assert available[..|available|] == available;
    return burnFirst + normal + preserve;
  }

  lemma {:induction false} PickMembers(s: seq<Account>, p: Policy, available: seq<Account>, now: real, a: Account)
    ensures a in Pick(s, p, available, now) <==> a in s && PolicyOf(a) == p && Burnable(a, available, now)
  {
    if s != [] {
      PickMembers(s[..|s| - 1], p, available, now, a);
      assert s == s[..|s| - 1] + [s[|s| - 1]];
    }
  }

  lemma {:induction false} CandidatesExactly(available: seq<Account>, now: real, a: Account)
    ensures a in Candidates(available, now) <==> a in available && Burnable(a, available, now)
  {
    PickMembers(available, BurnFirst, available, now, a);
    PickMembers(available, Normal, available, now, a);
    PickMembers(available, Preserve, available, now, a);
  }

  /** A preserved account is burnt only above 5% of the week and 10% of the short window; any
      other one only if the pool has other usable capacity or it is above 5% in both. */
  lemma {:induction false} BurntAccountsHaveReserve(available: seq<Account>, now: real, a: Account)
    requires a in Candidates(available, now)
    ensures PolicyOf(a) == Preserve ==>
              && Remaining(a, true).Some? && Remaining(a, true).value > 5.0
              && Remaining(a, false).Some? && Remaining(a, false).value > 10.0
    ensures PolicyOf(a) != Preserve ==>
              || OthersUsable(a.profile.id, available, now)
              || (&& Remaining(a, true).Some? && Remaining(a, true).value > 5.0
                  && Remaining(a, false).Some? && Remaining(a, false).value > 5.0)
  {
    CandidatesExactly(available, now, a);
  }

  lemma {:induction false} WeeklyFloorFalls(a: Account, now: real, later: real)
    requires now <= later
    ensures WeeklyFloor(a, later) <= WeeklyFloor(a, now)
  {
    if a.profile.secondaryResetAt.Some? && UsedPercent(a, true).Some? {
      var left := SecondsUntil(a.profile.secondaryResetAt, now).value;
      var left' := SecondsUntil(a.profile.secondaryResetAt, later).value;
      assert left' <= left;
      assert Max(0.0, WEEK - left) / WEEK * 100.0 <= Max(0.0, WEEK - left') / WEEK * 100.0;
    }
  }

  lemma {:induction false} ShortFloorFalls(a: Account, now: real, later: real, preserveCount: int)
    requires now <= later
    ensures ShortFloor(a, later, preserveCount) <= ShortFloor(a, now, preserveCount)
  {
  }

  /** Permission to burn a preserved account, once given, stays given. */
  lemma {:induction false} PermissionIsMonotone(a: Account, now: real, later: real, preserveCount: int)
    requires now <= later && PreserveAllowsBurn(a, now, preserveCount)
    ensures PreserveAllowsBurn(a, later, preserveCount)
  {
    WeeklyFloorFalls(a, now, later);
    ShortFloorFalls(a, now, later, preserveCount);
  }

  // ----- The same in the accounts' own fields -----

  /** The account's use is more than five points below its even share of the week. */
  predicate BehindPace(used: real, secondsLeft: real) {
    (used + 5.0) * 604800.0 < 100.0 * (if secondsLeft < 604800.0 then 604800.0 - secondsLeft else 0.0)
  }

  predicate SelectedWithinHalfAnHour(a: Account, now: real) {
    a.profile.lastSelectedAt.Some? && a.profile.lastSelectedAt.value >= now - 1800.0
  }

  /** The weekly floor takes three values only: the two lower pace floors of the last day and
      the last six hours never act, because the floor is five percent at least. */
  lemma {:induction false} WeeklyFloorExactly(a: Account, now: real)
    ensures var used := if a.secondaryUsedPercent.Some? then a.secondaryUsedPercent else a.usedPercent;
            WeeklyFloor(a, now) ==
              if a.profile.secondaryResetAt.None? || used.None? then 100.0
              else if SelectedWithinHalfAnHour(a, now) then 25.0
              else if BehindPace(used.value, Max(0.0, a.profile.secondaryResetAt.value - now)) then 5.0
              else 15.0
  {
    if a.profile.secondaryResetAt.Some? && UsedPercent(a, true).Some? {
      PaceExactly(UsedPercent(a, true).value, Max(0.0, a.profile.secondaryResetAt.value - now));
    }
  }

  lemma {:induction false} PaceExactly(used: real, left: real)
    requires left >= 0.0
    ensures used + 5.0 < Min(100.0, (Max(0.0, WEEK - left) / WEEK) * 100.0) <==> BehindPace(used, left)
  {
    var elapsed := Max(0.0, WEEK - left);
    assert (elapsed / WEEK) * 100.0 * WEEK == elapsed * 100.0;
  }

  lemma {:induction false} ShortFloorExactly(a: Account, now: real, preserveCount: int)
    ensures ShortFloor(a, now, preserveCount) ==
              if a.resetAt.None? then 100.0
              else if SelectedWithinHalfAnHour(a, now) then 30.0
              else if preserveCount <= 1 then 25.0
              else if a.resetAt.value > now + 3600.0 then 20.0
              else 10.0
  {
  }

  /** What is left of a window: a hundred percent minus the use, never negative; the weekly
      window falls back on the short one's use. */
  lemma {:induction false} RemainingMeans(a: Account, secondary: bool)
    ensures var used := if secondary && a.secondaryUsedPercent.Some? then a.secondaryUsedPercent else a.usedPercent;
            && (Remaining(a, secondary).Some? <==> used.Some?)
            && (used.Some? ==> Remaining(a, secondary).value == if used.value > 100.0 then 0.0 else 100.0 - used.value)
  {
  }

  /** When a preserved account may be burnt. */
  lemma {:induction false} PreserveBurnExactly(a: Account, now: real, preserveCount: int)
    ensures PreserveAllowsBurn(a, now, preserveCount) <==>
            && a.usedPercent.Some? && a.profile.secondaryResetAt.Some? && a.resetAt.Some?
            && var week := if a.secondaryUsedPercent.Some? then a.secondaryUsedPercent.value else a.usedPercent.value;
               var left := Max(0.0, a.profile.secondaryResetAt.value - now);
               if SelectedWithinHalfAnHour(a, now) then week < 75.0 && a.usedPercent.value < 70.0
               else && week < (if BehindPace(week, left) then 95.0 else 85.0)
                    && a.usedPercent.value <
                       (if preserveCount <= 1 then 75.0 else if a.resetAt.value > now + 3600.0 then 80.0 else 90.0)
  {
    WeeklyFloorExactly(a, now);
    ShortFloorExactly(a, now, preserveCount);
  }

  lemma {:induction false} EmergencyExactly(a: Account)
    ensures AboveEmergencyFloor(a) <==>
            && a.usedPercent.Some? && a.usedPercent.value < 95.0
            && (a.secondaryUsedPercent.Some? ==> a.secondaryUsedPercent.value < 95.0)
  {
  }

  ghost function PreservedAt(s: seq<Account>): set<nat> {
    set i: nat | i < |s| && s[i].profile.routingPolicy == "preserve"
  }

  lemma {:induction false} CountPreserveMeans(s: seq<Account>)
    ensures CountPreserve(s) == |PreservedAt(s)|
  {
    if s != [] {
      var n := |s| - 1;
      CountPreserveMeans(s[..n]);
      if s[n].profile.routingPolicy == "preserve" {
        assert PreservedAt(s) == PreservedAt(s[..n]) + {n};
      } else {
        assert PreservedAt(s) == PreservedAt(s[..n]);
      }
    }
  }

  /** Whom opportunistic traffic may take. */
  lemma {:induction false} BurnExactly(available: seq<Account>, now: real, a: Account)
    ensures a in Candidates(available, now) <==>
            && a in available
            && if a.profile.routingPolicy == "preserve" then PreserveAllowsBurn(a, now, CountPreserve(available))
               else || (exists b :: && b in available && b.profile.id != a.profile.id && b.status == Active
                                    && (b.profile.routingPolicy == "preserve" ==> PreserveAllowsBurn(b, now, CountPreserve(available))))
                    || (&& a.usedPercent.Some? && a.usedPercent.value < 95.0
                        && (a.secondaryUsedPercent.Some? ==> a.secondaryUsedPercent.value < 95.0))
  {
    CandidatesExactly(available, now, a);
    EmergencyExactly(a);
    if OthersUsable(a.profile.id, available, now) {
      var i :| 0 <= i < |available| && UsableBesides(a.profile.id, available[i], now, CountPreserve(available));
      assert available[i] in available;
    }
    if b :| && b in available && b.profile.id != a.profile.id && b.status == Active
            && (b.profile.routingPolicy == "preserve" ==> PreserveAllowsBurn(b, now, CountPreserve(available))) {
      var i :| 0 <= i < |available| && available[i] == b;
      assert UsableBesides(a.profile.id, available[i], now, CountPreserve(available));
    }
  }

  /** Burn-first accounts come first, preserved ones last. */
  lemma {:induction false} CandidatesInOrder(available: seq<Account>, now: real, i: nat, j: nat)
    requires i < j < |Candidates(available, now)|
    ensures var a, b := Candidates(available, now)[i].profile.routingPolicy, Candidates(available, now)[j].profile.routingPolicy;
            (b == "burn_first" ==> a == "burn_first") && (a == "preserve" ==> b == "preserve")
  {
    var pool := Candidates(available, now);
    var first, second, third :=
      Pick(available, BurnFirst, available, now), Pick(available, Normal, available, now), Pick(available, Preserve, available, now);
    assert pool == first + second + third;
    PickMembers(available, BurnFirst, available, now, pool[i]);
    PickMembers(available, Normal, available, now, pool[i]);
    PickMembers(available, Preserve, available, now, pool[i]);
    PickMembers(available, BurnFirst, available, now, pool[j]);
    PickMembers(available, Normal, available, now, pool[j]);
    PickMembers(available, Preserve, available, now, pool[j]);
  }
}
