/** Account states, their in-place recovery, and who is eligible: the first part of
    `select_account` and the `handle_*` functions of app/core/balancer/logic.py.

    Floats are reals.  A timestamp of zero counts as unset wherever the source tests a
    timestamp for truth. */
module Accounts {
  import opened Common

  datatype Status = Active | RateLimited | QuotaExceeded | Paused | ReauthRequired | Deactivated

  /** The fields that selection and the error handlers never write. */
  datatype Profile = Profile(
    id: string,
    primaryResetAt: Option<real>,
    secondaryResetAt: Option<real>,
    lastSelectedAt: Option<real>,
    plan: string,
    capacityCredits: Option<real>,
    healthTier: int,
    priorityUsedPercent: Option<real>,
    prioritySecondaryUsedPercent: Option<real>,
    priorityResetAt: Option<real>,
    priorityCapacityCredits: Option<real>,
    limitScopedUsage: bool,
    routingPolicy: string,
    ignoreStandardQuota: bool)

  datatype Account = Account(
    profile: Profile,
    status: Status,
    usedPercent: Option<real>,
    secondaryUsedPercent: Option<real>,
    resetAt: Option<real>,
    blockedAt: Option<real>,
    cooldownUntil: Option<real>,
    lastErrorAt: Option<real>,
    errorCount: int,
    deactivationReason: Option<string>)

  /** `if t and now >= t` */
  predicate Due(t: Option<real>, now: real) { t.Some? && t.value != 0.0 && now >= t.value }

  /** `if t and now < t` */
  predicate Ahead(t: Option<real>, now: real) { t.Some? && t.value != 0.0 && now < t.value }

  function Pow2(n: nat): nat { if n == 0 then 1 else 2 * Pow2(n - 1) }

  /** min(300, 30 * 2 ** (errors - 3)) */
  function Backoff(errors: int): int
    requires errors >= 3
  {
    if 30 * Pow2(errors - 3) > 300 then 300 else 30 * Pow2(errors - 3)
  }

  predicate BackoffRuns(lastErrorAt: Option<real>, errors: int, now: real) {
    errors >= 3 && lastErrorAt.Some? && lastErrorAt.value != 0.0 && now - lastErrorAt.value < Backoff(errors) as real
  }

  // ----- Recovery, as the loop over the states does it -----

  datatype Verdict = Skipped | InBackoff | Available

  function Unblock(a: Account, now: real): Account {
    if a.status == RateLimited && Due(a.resetAt, now) then
      a.(status := Active, usedPercent := Some(0.0), errorCount := 0, resetAt := None)
    else if a.status == QuotaExceeded && Due(a.resetAt, now) then
      a.(status := Active, usedPercent := Some(0.0), secondaryUsedPercent := Some(0.0), resetAt := None)
    else a
  }

  function EndCooldown(a: Account, now: real): Account {
    if Due(a.cooldownUntil, now) then a.(cooldownUntil := None, lastErrorAt := None, errorCount := 0) else a
  }

  function Recover(a: Account, now: real, bypass: bool): (Account, Verdict) {
    if a.status == Paused || a.status == ReauthRequired || a.status == Deactivated then (a, Skipped)
    else
      var b := Unblock(a, now);
      if b.status != Active && !bypass then (b, Skipped)
      else
        var c := EndCooldown(b, now);
        if Ahead(c.cooldownUntil, now) then (c, Skipped)
        else if BackoffRuns(c.lastErrorAt, c.errorCount, now) then (c, InBackoff)
        else if c.errorCount >= 3 then (c.(errorCount := 0, lastErrorAt := None), Available)
        else (c, Available)
  }

  // ----- Eligibility, read off the state before recovery -----

  predicate Limited(s: Status) { s == RateLimited || s == QuotaExceeded }

  predicate HardBlocked(s: Status) { s == Paused || s == ReauthRequired || s == Deactivated }

  /** The status does not stand in the way: active, or limited with its reset due, or bypassed. */
  predicate Admitted(a: Account, now: real, bypass: bool) {
    !HardBlocked(a.status) && (Limited(a.status) ==> bypass || Due(a.resetAt, now))
  }

  /** Errors that a due rate-limit reset or a due cooldown has not wiped out. */
  predicate ErrorsRun(a: Account, now: real) {
    && !(a.status == RateLimited && Due(a.resetAt, now))
    && !Due(a.cooldownUntil, now)
    && BackoffRuns(a.lastErrorAt, a.errorCount, now)
  }

  predicate Eligible(a: Account, now: real, bypass: bool) {
    Admitted(a, now, bypass) && !Ahead(a.cooldownUntil, now) && !ErrorsRun(a, now)
  }

  predicate BackingOff(a: Account, now: real, bypass: bool) {
    Admitted(a, now, bypass) && !Ahead(a.cooldownUntil, now) && ErrorsRun(a, now)
  }

  /** The loop sorts accounts exactly by eligibility, and what it lets through is clean:
      active unless bypassed, no cooldown, no running backoff. */
  lemma {:induction false} RecoverDecides(a: Account, now: real, bypass: bool)
    ensures var (b, verdict) := Recover(a, now, bypass);
            && (verdict == Available <==> Eligible(a, now, bypass))
            && (verdict == InBackoff <==> BackingOff(a, now, bypass))
            && b.profile == a.profile
            && (verdict != Skipped ==>
                  && !HardBlocked(b.status)
                  && (Limited(b.status) ==> bypass)
                  && !Ahead(b.cooldownUntil, now))
            && (verdict == Available ==> b.errorCount < 3 && Eligible(b, now, bypass))
  {
  }

  /** Recovering again at the same time changes nothing and decides the same. */
  lemma {:induction false} RecoverIdempotent(a: Account, now: real, bypass: bool)
    ensures Recover(Recover(a, now, bypass).0, now, bypass) == Recover(a, now, bypass)
  {
  }

  /** Time only helps. */
  lemma {:induction false} EligibleLater(a: Account, now: real, later: real, bypass: bool)
    requires now <= later && Eligible(a, now, bypass)
    ensures Eligible(a, later, bypass)
  {
  }

  /** Earlier recoveries, with any bypass, never change who is eligible later. */
  lemma {:induction false} RecoverIsTransparent(a: Account, now: real, later: real, early: bool, bypass: bool)
    requires now <= later
    ensures Eligible(Recover(a, now, early).0, later, bypass) <==> Eligible(a, later, bypass)
  {
  }

  lemma {:induction false} BackoffBounds(errors: int)
    requires errors >= 3
    ensures 30 <= Backoff(errors) <= 300
    decreases errors
  {
    if errors > 3 { BackoffBounds(errors - 1); }
  }

  /** The seconds of backoff after so many errors. */
  function BackoffTable(errors: int): int {
    if errors <= 3 then 30 else if errors == 4 then 60 else if errors == 5 then 120 else if errors == 6 then 240 else 300
  }

  lemma {:induction false} Pow2Grows(n: nat)
    requires n >= 4
    ensures Pow2(n) >= 16
  {
    if n == 4 {
      assert Pow2(1) == 2 && Pow2(2) == 4 && Pow2(3) == 8;
    } else {
      Pow2Grows(n - 1);
    }
  }

  /** Thirty seconds after three errors, twice as long with each further one, five minutes at
      most. */
  lemma {:induction false} BackoffExactly(errors: int)
    requires errors >= 3
    ensures Backoff(errors) == BackoffTable(errors)
    ensures Backoff(errors + 1) == if 2 * Backoff(errors) <= 300 then 2 * Backoff(errors) else 300
  {
    assert Pow2(0) == 1 && Pow2(1) == 2 && Pow2(2) == 4 && Pow2(3) == 8 && Pow2(4) == 16;
    if errors >= 7 { Pow2Grows(errors - 3); }
    if errors + 1 >= 7 { Pow2Grows(errors + 1 - 3); }
  }

  /** Who is let through, in the account's own fields. */
  lemma {:induction false} AvailableExactly(a: Account, now: real, bypass: bool)
    ensures var resetDue := a.resetAt.Some? && a.resetAt.value != 0.0 && a.resetAt.value <= now;
            var cooled := a.cooldownUntil.Some? && a.cooldownUntil.value != 0.0 && a.cooldownUntil.value <= now;
            var cooling := a.cooldownUntil.Some? && a.cooldownUntil.value != 0.0 && a.cooldownUntil.value > now;
            Recover(a, now, bypass).1 == Available <==>
              && a.status != Paused && a.status != ReauthRequired && a.status != Deactivated
              && (a.status == RateLimited || a.status == QuotaExceeded ==> bypass || resetDue)
              && !cooling
              && (|| a.errorCount < 3 || cooled || (a.status == RateLimited && resetDue)
                  || a.lastErrorAt.None? || a.lastErrorAt.value == 0.0
                  || now >= a.lastErrorAt.value + BackoffTable(a.errorCount) as real)
  {
    if a.errorCount >= 3 { BackoffExactly(a.errorCount); }
  }

  /** Who is held back by its errors alone, in the account's own fields. */
  lemma {:induction false} BackoffHoldsExactly(a: Account, now: real, bypass: bool)
    ensures var resetDue := a.resetAt.Some? && a.resetAt.value != 0.0 && a.resetAt.value <= now;
            Recover(a, now, bypass).1 == InBackoff <==>
              && a.status != Paused && a.status != ReauthRequired && a.status != Deactivated
              && (a.status == RateLimited || a.status == QuotaExceeded ==> bypass || resetDue)
              && !(a.status == RateLimited && resetDue)
              && (a.cooldownUntil.None? || a.cooldownUntil.value == 0.0)
              && a.errorCount >= 3 && a.lastErrorAt.Some? && a.lastErrorAt.value != 0.0
              && now < a.lastErrorAt.value + BackoffTable(a.errorCount) as real
  {
    if a.errorCount >= 3 { BackoffExactly(a.errorCount); }
  }

  /** What a recovery changes, field by field: a reset that is due makes the account active and
      empties its usage, a cooldown that is due goes away with the errors, a backoff that has
      run out forgets the errors; nothing else changes. */
  lemma {:induction false} RecoverChanges(a: Account, now: real, bypass: bool)
    ensures var resetDue := a.resetAt.Some? && a.resetAt.value != 0.0 && a.resetAt.value <= now;
            var cooled := a.cooldownUntil.Some? && a.cooldownUntil.value != 0.0 && a.cooldownUntil.value <= now;
            var lifted := (a.status == RateLimited || a.status == QuotaExceeded) && resetDue;
            var admitted := a.status == Active || lifted || (bypass && (a.status == RateLimited || a.status == QuotaExceeded));
            var (b, verdict) := Recover(a, now, bypass);
            && b.profile == a.profile && b.blockedAt == a.blockedAt && b.deactivationReason == a.deactivationReason
            && b.status == (if lifted then Active else a.status)
            && b.usedPercent == (if lifted then Some(0.0) else a.usedPercent)
            && b.secondaryUsedPercent == (if lifted && a.status == QuotaExceeded then Some(0.0) else a.secondaryUsedPercent)
            && b.resetAt == (if lifted then None else a.resetAt)
            && b.cooldownUntil == (if admitted && cooled then None else a.cooldownUntil)
            && b.errorCount == (if (lifted && a.status == RateLimited) || (admitted && cooled)
                                   || (verdict == Available && a.errorCount >= 3) then 0 else a.errorCount)
            && b.lastErrorAt == (if (admitted && cooled)
                                    || (verdict == Available && a.errorCount >= 3 && !(lifted && a.status == RateLimited))
                                 then None else a.lastErrorAt)
  {
  }

  predicate NotBefore(t: Option<real>, plus: real, now: real) { t.Some? ==> now >= t.value + plus }

  /** Every active account, and every limited one whose reset is set, is eligible from the
      latest of its reset, its cooldown and its last error + 300 s on. */
  lemma {:induction false} EventuallyEligible(a: Account, now: real, bypass: bool)
    requires a.status == Active || (Limited(a.status) && a.resetAt.Some? && a.resetAt.value != 0.0)
    requires Limited(a.status) ==> NotBefore(a.resetAt, 0.0, now)
    requires NotBefore(a.cooldownUntil, 0.0, now) && NotBefore(a.lastErrorAt, 300.0, now)
    ensures Eligible(a, now, bypass)
  {
    if a.errorCount >= 3 { BackoffBounds(a.errorCount); }
  }

  // ----- Error handlers -----

  /** `_extract_reset_at`: what the upstream error says about the reset, if anything. */
  datatype UpstreamError = UpstreamError(resetsAt: Option<real>, resetsInSeconds: Option<real>)

  /** int(): truncation toward zero */
  function Truncate(x: real): real { if x >= 0.0 then x.Floor as real else -((-x).Floor as real) }

  function ExtractResetAt(e: UpstreamError, now: real): Option<real> {
    if e.resetsAt.Some? then Some(Truncate(e.resetsAt.value))
    else if e.resetsInSeconds.Some? then Some(Truncate(now + e.resetsInSeconds.value))
    else None
  }

  const QUOTA_COOLDOWN := 120.0

  function AfterQuotaExceeded(a: Account, e: UpstreamError, now: real): Account {
    a.(status := QuotaExceeded, usedPercent := Some(100.0), blockedAt := Some(now),
       cooldownUntil := Some(now + QUOTA_COOLDOWN),
       resetAt := if ExtractResetAt(e, now).Some? then ExtractResetAt(e, now) else Some(Truncate(now + 3600.0)))
  }

  /** Selections that happen one after the other, each with its own time and bypass. */
  function RecoverRun(a: Account, calls: seq<(real, bool)>): Account
    decreases |calls|
  {
    if calls == [] then a else RecoverRun(Recover(a, calls[0].0, calls[0].1).0, calls[1..])
  }

  /** After a quota error no run of selections, bypassed or past the reset, lets the account
      through (or falls back to it) within 120 seconds. */
  lemma {:induction false} QuotaCooldownHolds(a: Account, e: UpstreamError, at: real, calls: seq<(real, bool)>, now: real, bypass: bool)
    requires at > 0.0 && now < at + QUOTA_COOLDOWN
    requires forall i :: 0 <= i < |calls| ==> calls[i].0 < at + QUOTA_COOLDOWN
    ensures Recover(RecoverRun(AfterQuotaExceeded(a, e, at), calls), now, bypass).1 == Skipped
  {
    CooldownStays(AfterQuotaExceeded(a, e, at), at + QUOTA_COOLDOWN, calls);
  }

  lemma {:induction false} CooldownStays(a: Account, until: real, calls: seq<(real, bool)>)
    requires until > 0.0 && a.cooldownUntil == Some(until)
    requires forall i :: 0 <= i < |calls| ==> calls[i].0 < until
    ensures RecoverRun(a, calls).cooldownUntil == Some(until)
    decreases |calls|
  {
    if calls != [] { CooldownStays(Recover(a, calls[0].0, calls[0].1).0, until, calls[1..]); }
  }

  function AfterRateLimit(a: Account, e: UpstreamError, now: real, delay: real): Account {
    a.(status := RateLimited, errorCount := a.errorCount + 1, lastErrorAt := Some(now), blockedAt := Some(now),
       resetAt := if ExtractResetAt(e, now).Some? then ExtractResetAt(e, now) else a.resetAt,
       cooldownUntil := Some(now + delay))
  }

  /** After a rate-limit error no run of selections, bypassed or past the reset, lets the
      account through before the delay is over. */
  lemma {:induction false} RateLimitCooldownHolds(
    a: Account, e: UpstreamError, at: real, delay: real, calls: seq<(real, bool)>, now: real, bypass: bool)
    requires at + delay > 0.0 && now < at + delay
    requires forall i :: 0 <= i < |calls| ==> calls[i].0 < at + delay
    ensures Recover(RecoverRun(AfterRateLimit(a, e, at, delay), calls), now, bypass).1 == Skipped
  {
    CooldownStays(AfterRateLimit(a, e, at, delay), at + delay, calls);
  }

  /** int() drops the fraction. */
  lemma {:induction false} TruncateMeans(x: real) returns (n: int)
    ensures Truncate(x) == n as real
    ensures if x >= 0.0 then n as real <= x < n as real + 1.0 else n as real - 1.0 < x <= n as real
  {
    n := if x >= 0.0 then x.Floor else -(-x).Floor;
  }

  /** After a quota error the account is eligible again exactly when 120 seconds are over and,
      unless bypassed, the announced reset, or failing that one hour, is over too. */
  lemma {:induction false} QuotaErrorEndsExactly(a: Account, e: UpstreamError, at: real, later: real, bypass: bool)
    requires at > 0.0
    ensures var resetAt := Truncate(if e.resetsAt.Some? then e.resetsAt.value
                                    else if e.resetsInSeconds.Some? then at + e.resetsInSeconds.value
                                    else at + 3600.0);
            Eligible(AfterQuotaExceeded(a, e, at), later, bypass) <==>
              later >= at + 120.0 && (bypass || (resetAt != 0.0 && later >= resetAt))
  {
  }

  /** After a rate-limit error, when the delay is over and, unless bypassed, the announced
      reset, or failing that the one it had, is over too. */
  lemma {:induction false} RateLimitEndsExactly(a: Account, e: UpstreamError, at: real, delay: real, later: real, bypass: bool)
    requires at + delay > 0.0
    ensures var resetAt := if e.resetsAt.Some? then Some(Truncate(e.resetsAt.value))
                           else if e.resetsInSeconds.Some? then Some(Truncate(at + e.resetsInSeconds.value))
                           else a.resetAt;
            Eligible(AfterRateLimit(a, e, at, delay), later, bypass) <==>
              later >= at + delay && (bypass || (resetAt.Some? && resetAt.value != 0.0 && later >= resetAt.value))
  {
  }

  // ----- The mutable account states -----

  class AccountState {
    const profile: Profile
    var status: Status
    var usedPercent: Option<real>
    var secondaryUsedPercent: Option<real>
    var resetAt: Option<real>
    var blockedAt: Option<real>
    var cooldownUntil: Option<real>
    var lastErrorAt: Option<real>
    var errorCount: int
    var deactivationReason: Option<string>

    ghost function View(): Account
      reads this
    {
      Account(profile, status, usedPercent, secondaryUsedPercent, resetAt, blockedAt, cooldownUntil,
              lastErrorAt, errorCount, deactivationReason)
    }

    constructor (a: Account)
      ensures View() == a
    {
      profile, status, usedPercent, secondaryUsedPercent := a.profile, a.status, a.usedPercent, a.secondaryUsedPercent;
      resetAt, blockedAt, cooldownUntil := a.resetAt, a.blockedAt, a.cooldownUntil;
      lastErrorAt, errorCount, deactivationReason := a.lastErrorAt, a.errorCount, a.deactivationReason;
    }

    method Snapshot() returns (a: Account)
      ensures a == View()
    {
      return Account(profile, status, usedPercent, secondaryUsedPercent, resetAt, blockedAt, cooldownUntil,
                     lastErrorAt, errorCount, deactivationReason);
    }

    /** One round of the loop in `select_account`. */
    method RecoverInPlace(now: real, bypass: bool) returns (verdict: Verdict)
      modifies this
      ensures (View(), verdict) == Recover(old(View()), now, bypass)
    {
      if status == ReauthRequired || status == Deactivated {
        return Skipped;
      }
      if status == Paused {
        return Skipped;
      }
      if status == RateLimited {
        if Due(resetAt, now) {
          status, usedPercent, errorCount, resetAt := Active, Some(0.0), 0, None;
        } else if !bypass {
          return Skipped;
        }
      }
      if status == QuotaExceeded {
        if Due(resetAt, now) {
          status, usedPercent, secondaryUsedPercent, resetAt := Active, Some(0.0), Some(0.0), None;
        } else if !bypass {
          return Skipped;
        }
      }
      if Due(cooldownUntil, now) {
        cooldownUntil, lastErrorAt, errorCount := None, None, 0;
      }
      if Ahead(cooldownUntil, now) {
        return Skipped;
      }
      if errorCount >= 3 {
        if BackoffRuns(lastErrorAt, errorCount, now) {
          return InBackoff;
        }
        errorCount, lastErrorAt := 0, None;
      }
      return Available;
    }

    method HandleQuotaExceeded(e: UpstreamError, now: real)
      modifies this
      ensures View() == AfterQuotaExceeded(old(View()), e, now)
      ensures now > 0.0 ==> forall later, bypass :: later < now + 120.0 ==> !Eligible(View(), later, bypass)
      ensures status == QuotaExceeded && usedPercent == Some(100.0) && blockedAt == Some(now)
      ensures errorCount == old(errorCount) && lastErrorAt == old(lastErrorAt)
      ensures secondaryUsedPercent == old(secondaryUsedPercent) && deactivationReason == old(deactivationReason)
    {
      status, usedPercent, blockedAt := QuotaExceeded, Some(100.0), Some(now);
      cooldownUntil := Some(now + QUOTA_COOLDOWN);
      var extracted := ExtractResetAt(e, now);
      resetAt := if extracted.Some? then extracted else Some(Truncate(now + 3600.0));
    }

    /** `delay` is the retry hint of the message, or the jittered backoff of the new count. */
    method HandleRateLimit(e: UpstreamError, now: real, delay: real)
      modifies this
      ensures View() == AfterRateLimit(old(View()), e, now, delay)
      ensures now + delay > 0.0 ==> forall later, bypass :: later < now + delay ==> !Eligible(View(), later, bypass)
      ensures status == RateLimited && errorCount == old(errorCount) + 1 && lastErrorAt == blockedAt == Some(now)
      ensures usedPercent == old(usedPercent) && secondaryUsedPercent == old(secondaryUsedPercent)
      ensures deactivationReason == old(deactivationReason)
    {
      status := RateLimited;
      errorCount := errorCount + 1;
      lastErrorAt, blockedAt := Some(now), Some(now);
      var extracted := ExtractResetAt(e, now);
      if extracted.Some? {
        resetAt := extracted;
      }
      cooldownUntil := Some(now + delay);
    }
  }

  /** Which accounts ignore their standard quota. */
  datatype Bypass = Bypass(everyone: bool, ids: set<string>)

  predicate Bypasses(b: Bypass, p: Profile) { b.everyone || p.ignoreStandardQuota || p.id in b.ids }

  function RecoverOne(a: Account, now: real, b: Bypass): (Account, Verdict) {
    Recover(a, now, Bypasses(b, a.profile))
  }

  /** Everybody's quota is ignored, or the account's own settings say so, or its id is listed. */
  lemma {:induction false} BypassMeans(a: Account, now: real, b: Bypass)
    ensures RecoverOne(a, now, b) == Recover(a, now, b.everyone || a.profile.ignoreStandardQuota || a.profile.id in b.ids)
  {
  }

  /** The whole recovery loop.  The same object may be listed twice: recovering it again
      changes nothing, because recovery is idempotent at a fixed time. */
  method RecoverAll(states: seq<AccountState>, now: real, b: Bypass) returns (verdicts: seq<Verdict>)
    modifies states
    ensures |verdicts| == |states|
    ensures forall i :: 0 <= i < |states| ==> (states[i].View(), verdicts[i]) == old(RecoverOne(states[i].View(), now, b))
  {
    verdicts := [];
    for i := 0 to |states|
      invariant |verdicts| == i
      invariant forall j :: 0 <= j < i ==> (states[j].View(), verdicts[j]) == old(RecoverOne(states[j].View(), now, b))
      invariant forall x: AccountState :: x in states && x !in states[..i] ==> x.View() == old(x.View())
    {
      var x := states[i];
      ghost var before := x.View();
      RecoverIdempotent(old(x.View()), now, Bypasses(b, x.profile));
      assert before == old(x.View()) || before == old(RecoverOne(x.View(), now, b)).0;
      var verdict := x.RecoverInPlace(now, Bypasses(b, x.profile));
      verdicts := verdicts + [verdict];
      assert states[..i + 1] == states[..i] + [x];
    }
  }
}
