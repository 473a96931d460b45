/** When `select_account` serves a call, when it refuses one, and what a refusal says. */
module Refusals {
  import opened Common
  import opened Accounts
  import opened Ordering
  import opened Selection
  import Opp = Opportunistic

  // ----- When a call is served -----

  predicate Gets(a: Account, v: Verdict, now: real, b: Bypass) { RecoverOne(a, now, b).1 == v }

  ghost function With(states: seq<Account>, v: Verdict, now: real, b: Bypass): set<nat> {
    set i: nat | i < |states| && Gets(states[i], v, now, b)
  }

  lemma {:induction false} WithOneMore(states: seq<Account>, v: Verdict, now: real, b: Bypass)
    requires states != []
    ensures var n := |states| - 1;
            With(states, v, now, b) == With(states[..n], v, now, b) + if Gets(states[n], v, now, b) then {n} else {}
    ensures |states| - 1 !in With(states[..|states| - 1], v, now, b)
  {
    var n := |states| - 1;
    assert forall i :: 0 <= i < n ==> states[..n][i] == states[i];
  }

  lemma {:induction false} SiftedCount(states: seq<Account>, v: Verdict, now: real, b: Bypass)
    ensures |Sifted(states, v, now, b)| == |With(states, v, now, b)|
  {
    if states != [] {
      SiftedCount(states[..|states| - 1], v, now, b);
      WithOneMore(states, v, now, b);
      assert Gets(states[|states| - 1], v, now, b) <==> RecoverOne(states[|states| - 1], now, b).1 == v;
    }
  }

  /** Paused, deactivated, to be re-authenticated, or limited with no reset that is due. */
  predicate StillBlocked(a: Account, now: real) {
    || a.status == Paused || a.status == ReauthRequired || a.status == Deactivated
    || ((a.status == RateLimited || a.status == QuotaExceeded)
        && !(a.resetAt.Some? && a.resetAt.value != 0.0 && a.resetAt.value <= now))
  }

  lemma {:induction false} StillBlockedExactly(a: Account, now: real, b: Bypass)
    ensures Blocked(RecoverOne(a, now, b).0.status) <==> StillBlocked(a, now)
  {
  }

  ghost predicate BlockedBeside(states: seq<Account>, cfg: Config, now: real) {
    exists i :: 0 <= i < |states| && StillBlocked(states[i], now) && NotBackingOff(states, states[i].profile.id, cfg, now)
  }

  predicate NotBackingOff(states: seq<Account>, id: string, cfg: Config, now: real) {
    forall j :: 0 <= j < |states| && Gets(states[j], InBackoff, now, cfg.bypass) ==> states[j].profile.id != id
  }

  predicate NoSuchId(s: seq<Account>, id: string) { forall j :: 0 <= j < |s| ==> s[j].profile.id != id }

  lemma {:induction false} RecoveryKeepsProfile(a: Account, now: real, b: Bypass)
    ensures RecoverOne(a, now, b).0.profile == a.profile
  {
  }

  lemma {:induction false} NotBackingOffExactly(states: seq<Account>, id: string, cfg: Config, now: real)
    ensures NoSuchId(Sifted(states, InBackoff, now, cfg.bypass), id) <==> NotBackingOff(states, id, cfg, now)
  {
    var backoff := Sifted(states, InBackoff, now, cfg.bypass);
    if NotBackingOff(states, id, cfg, now) {
      forall j | 0 <= j < |backoff| ensures backoff[j].profile.id != id {
        SiftedMembers(states, InBackoff, now, cfg.bypass, backoff[j]);
        var i :| 0 <= i < |states| && RecoverOne(states[i], now, cfg.bypass) == (backoff[j], InBackoff);
        assert Gets(states[i], InBackoff, now, cfg.bypass);
        RecoveryKeepsProfile(states[i], now, cfg.bypass);
      }
    }
    if NoSuchId(backoff, id) {
      forall i | 0 <= i < |states| && Gets(states[i], InBackoff, now, cfg.bypass) ensures states[i].profile.id != id {
        var a := RecoverOne(states[i], now, cfg.bypass).0;
        SiftedMembers(states, InBackoff, now, cfg.bypass, a);
        var j :| 0 <= j < |backoff| && backoff[j] == a;
        RecoveryKeepsProfile(states[i], now, cfg.bypass);
      }
    }
  }

  lemma {:induction false} BlockedBesideExactly(states: seq<Account>, cfg: Config, now: real)
    ensures BlockedElsewhere(AfterRecovery(states, now, cfg.bypass), Sifted(states, InBackoff, now, cfg.bypass)) <==>
            BlockedBeside(states, cfg, now)
  {
    var all, backoff := AfterRecovery(states, now, cfg.bypass), Sifted(states, InBackoff, now, cfg.bypass);
    forall i | 0 <= i < |states|
      ensures Blocked(all[i].status) <==> StillBlocked(states[i], now)
      ensures all[i].profile == states[i].profile
      ensures NoSuchId(backoff, all[i].profile.id) <==> NotBackingOff(states, states[i].profile.id, cfg, now)
    {
      StillBlockedExactly(states[i], now, cfg.bypass);
      RecoveryKeepsProfile(states[i], now, cfg.bypass);
      NotBackingOffExactly(states, states[i].profile.id, cfg, now);
    }
  }

  /** A foreground call is served exactly if somebody is eligible or, where the fallback is
      allowed, if two accounts are backing off, or one is and an account of another id is
      blocked. */
  lemma {:induction false} ServedExactly(states: seq<Account>, cfg: Config, now: real)
    requires 0.0 <= cfg.draw < 1.0 && !cfg.opportunistic
    ensures var backingOff := With(states, InBackoff, now, cfg.bypass);
            Select(states, cfg, now).Chosen? <==>
              || With(states, Available, now, cfg.bypass) != {}
              || (cfg.allowBackoffFallback && (|backingOff| > 1 || (backingOff != {} && BlockedBeside(states, cfg, now))))
  {
    SiftedCount(states, Available, now, cfg.bypass);
    SiftedCount(states, InBackoff, now, cfg.bypass);
    BlockedBesideExactly(states, cfg, now);
  }

  /** When a backoff runs out: so many seconds after the last error. */
  lemma {:induction false} ExpiryMeans(a: Account, now: real, b: Bypass)
    requires Gets(a, InBackoff, now, b)
    ensures a.lastErrorAt.Some?
    ensures ExpiresAt(RecoverOne(a, now, b).0) == a.lastErrorAt.value + BackoffTable(a.errorCount) as real
  {
    BackoffExactly(a.errorCount);
  }

  /** The last resort is the account whose backoff runs out first. */
  lemma {:induction false} LastResortMeans(states: seq<Account>, i: nat, j: nat, cfg: Config, now: real)
    requires i < |states| && LastResort(states, i, cfg, now) && j < |states| && Gets(states[j], InBackoff, now, cfg.bypass)
    ensures states[i].lastErrorAt.Some? && states[j].lastErrorAt.Some?
    ensures states[i].lastErrorAt.value + BackoffTable(states[i].errorCount) as real
            <= states[j].lastErrorAt.value + BackoffTable(states[j].errorCount) as real
  {
    RecoverDecides(states[i], now, Bypasses(cfg.bypass, states[i].profile));
    RecoverDecides(states[j], now, Bypasses(cfg.bypass, states[j].profile));
    ExpiryMeans(states[i], now, cfg.bypass);
    ExpiryMeans(states[j], now, cfg.bypass);
  }

  // ----- What a refusal says -----

  predicate Has(all: seq<Account>, s: Status) { exists i :: 0 <= i < |all| && all[i].status == s }

  /** At most five minutes, at least nothing. */
  function Clamped(wait: real): real { if wait < 0.0 then 0.0 else if wait > 300.0 then 300.0 else wait }

  predicate QuotaReset(a: Account) { a.status == QuotaExceeded && a.resetAt.Some? && a.resetAt.value != 0.0 }

  predicate CoolingDown(a: Account, now: real) {
    a.cooldownUntil.Some? && a.cooldownUntil.value != 0.0 && a.cooldownUntil.value > now
  }

  lemma {:induction false} QuotaResetsMeans(all: seq<Account>, t: real)
    ensures t in QuotaResets(all) <==> exists i :: 0 <= i < |all| && QuotaReset(all[i]) && all[i].resetAt.value == t
  {
    if all != [] {
      QuotaResetsMeans(all[1..], t);
      assert forall i :: 0 < i < |all| ==> all[i] == all[1..][i - 1];
    }
  }

  lemma {:induction false} CooldownsMeans(all: seq<Account>, now: real, t: real)
    ensures t in Cooldowns(all, now) <==> exists i :: 0 <= i < |all| && CoolingDown(all[i], now) && all[i].cooldownUntil.value == t
  {
    if all != [] {
      CooldownsMeans(all[1..], now, t);
      assert forall i :: 0 < i < |all| ==> all[i] == all[1..][i - 1];
    }
  }

  /** Which accounts stand in the way, if all that do are paused, deactivated or to be
      re-authenticated. */
  lemma {:induction false} BlockedReason(all: seq<Account>, now: real)
    ensures var paused, reauth, gone := Has(all, Paused), Has(all, ReauthRequired), Has(all, Deactivated);
            WhyNot(all, now).AllBlocked? <==>
              !Has(all, RateLimited) && !Has(all, QuotaExceeded) && (paused || reauth || gone)
    ensures WhyNot(all, now).AllBlocked? ==>
              WhyNot(all, now) == AllBlocked(Has(all, Paused), Has(all, ReauthRequired), Has(all, Deactivated))
  {
    assert forall s :: Has(all, s) <==> HasStatus(all, s);
  }

  /** Otherwise the earliest reset of a quota-exceeded account, in whole seconds from now. */
  lemma {:induction false} QuotaReason(all: seq<Account>, now: real, i: nat)
    requires i < |all| && QuotaReset(all[i])
    ensures exists k :: && 0 <= k < |all| && QuotaReset(all[k])
                        && WhyNot(all, now) == RetryIn(Clamped(all[k].resetAt.value - Truncate(now)))
                        && forall j :: 0 <= j < |all| && QuotaReset(all[j]) ==> all[k].resetAt.value <= all[j].resetAt.value
  {
    QuotaResetsMeans(all, all[i].resetAt.value);
    var t := Earliest(QuotaResets(all));
    QuotaResetsMeans(all, t);
    var k :| 0 <= k < |all| && QuotaReset(all[k]) && all[k].resetAt.value == t;
    forall j | 0 <= j < |all| && QuotaReset(all[j]) ensures t <= all[j].resetAt.value {
      QuotaResetsMeans(all, all[j].resetAt.value);
      var m :| 0 <= m < |QuotaResets(all)| && QuotaResets(all)[m] == all[j].resetAt.value;
    }
    assert HasStatus(all, QuotaExceeded);
  }

  /** Otherwise the earliest end of a cooldown, and otherwise nothing. */
  lemma {:induction false} CooldownReason(all: seq<Account>, now: real)
    requires !WhyNot(all, now).AllBlocked? && forall i :: 0 <= i < |all| ==> !QuotaReset(all[i])
    ensures WhyNot(all, now) == NoneAvailable <==> forall i :: 0 <= i < |all| ==> !CoolingDown(all[i], now)
    ensures WhyNot(all, now) != NoneAvailable ==>
              exists k :: && 0 <= k < |all| && CoolingDown(all[k], now)
                          && WhyNot(all, now) == RetryIn(Clamped(all[k].cooldownUntil.value - now))
                          && forall j :: 0 <= j < |all| && CoolingDown(all[j], now) ==>
                               all[k].cooldownUntil.value <= all[j].cooldownUntil.value
  {
    NoQuotaResets(all);
    if i :| 0 <= i < |all| && CoolingDown(all[i], now) { CooldownsMeans(all, now, all[i].cooldownUntil.value); }
    if Cooldowns(all, now) != [] {
      var t := Earliest(Cooldowns(all, now));
      CooldownsMeans(all, now, t);
      var k :| 0 <= k < |all| && CoolingDown(all[k], now) && all[k].cooldownUntil.value == t;
      forall j | 0 <= j < |all| && CoolingDown(all[j], now) ensures t <= all[j].cooldownUntil.value {
        CooldownsMeans(all, now, all[j].cooldownUntil.value);
        var m :| 0 <= m < |Cooldowns(all, now)| && Cooldowns(all, now)[m] == all[j].cooldownUntil.value;
      }
    }
  }

  lemma {:induction false} NoQuotaResets(all: seq<Account>)
    requires forall i :: 0 <= i < |all| ==> !QuotaReset(all[i])
    ensures QuotaResets(all) == []
  {
    if QuotaResets(all) != [] { QuotaResetsMeans(all, QuotaResets(all)[0]); }
  }

  /** A refused foreground call says why, as its accounts stand after recovery. */
  lemma {:induction false} RefusalIsTheReason(states: seq<Account>, cfg: Config, now: real)
    requires 0.0 <= cfg.draw < 1.0 && !cfg.opportunistic
    ensures var r := Select(states, cfg, now);
            r.Refused? ==> r.reason == WhyNot(AfterRecovery(states, now, cfg.bypass), now)
  {
  }

  /** With somebody eligible, an opportunistic call is refused exactly if nobody eligible may be
      burnt, and says whether a preserved account was among them. */
  lemma {:induction false} BurnRefusedExactly(states: seq<Account>, cfg: Config, now: real)
    requires 0.0 <= cfg.draw < 1.0 && cfg.opportunistic && Sifted(states, Available, now, cfg.bypass) != []
    ensures var available := Sifted(states, Available, now, cfg.bypass);
            && (Select(states, cfg, now).Refused? <==> forall a :: a in available ==> a !in Opp.Candidates(available, now))
            && (Select(states, cfg, now).Refused? ==>
                  Select(states, cfg, now).reason ==
                    BurnWindowClosed(exists i :: 0 <= i < |available| && available[i].profile.routingPolicy == "preserve"))
  {
    var available := Sifted(states, Available, now, cfg.bypass);
    var pool := Opp.Candidates(available, now);
    if pool != [] { Opp.CandidatesExactly(available, now, pool[0]); }
    assert forall i :: 0 <= i < |available| ==>
             (Opp.PolicyOf(available[i]) == Opp.Preserve <==> available[i].profile.routingPolicy == "preserve");
  }
}
