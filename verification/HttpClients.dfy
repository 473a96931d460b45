/** The leased HTTP client lifecycle of app/core/clients/http.py.

    `Pool` is what a reader needs to know about the module's globals: the phase of
    every client ever built, and the lease ledger.  `Manager` keeps the source's
    own flags, counters and lists, and its critical sections refine steps of `Pool`. */
module HttpClients {
  import opened Common

  datatype Phase = Serving | Retired | CloseStarted

  /** A lease: `closed` is its own flag, `released` says its decrement has run. */
  datatype Lease = Lease(client: nat, closed: bool, released: bool)

  datatype Pool = Pool(current: Option<nat>, phases: seq<Phase>, leases: seq<Lease>)

  datatype Event =
    | Init(buildOk: bool)
    | Acquire
    | CloseLease(lease: nat)
    | Release(lease: nat)
    | Refresh(buildOk: bool)
    | CloseAll
    | TaskFinished(client: nat)
    | CloseDone(client: nat)

  // ----- The ledger -----

  /** Leases of client `c` acquired and not yet decremented. */
  ghost function Outstanding(leases: seq<Lease>, c: nat): set<nat> {
    set l | 0 <= l < |leases| && leases[l].client == c && !leases[l].released
  }

  lemma {:induction false} AcquireCounts(leases: seq<Lease>, c: nat)
    ensures var more := leases + [Lease(c, false, false)];
            forall d: nat :: |Outstanding(more, d)| == |Outstanding(leases, d)| + (if d == c then 1 else 0)
  {
    var more := leases + [Lease(c, false, false)];
    forall d: nat
      ensures |Outstanding(more, d)| == |Outstanding(leases, d)| + (if d == c then 1 else 0)
    {
      assert Outstanding(more, d) == Outstanding(leases, d) + if d == c then {|leases|} else {};
    }
  }

  lemma {:induction false} ReleaseCounts(leases: seq<Lease>, l: nat)
    requires l < |leases| && !leases[l].released
    ensures var less := leases[l := leases[l].(released := true)];
            forall d: nat :: |Outstanding(less, d)| == |Outstanding(leases, d)| - (if d == leases[l].client then 1 else 0)
  {
    var less := leases[l := leases[l].(released := true)];
    forall d: nat
      ensures |Outstanding(less, d)| == |Outstanding(leases, d)| - (if d == leases[l].client then 1 else 0)
    {
      assert Outstanding(less, d) == Outstanding(leases, d) - if d == leases[l].client then {l} else {};
    }
  }

  lemma {:induction false} FlagCounts(leases: seq<Lease>, l: nat)
    requires l < |leases|
    ensures var flagged := leases[l := leases[l].(closed := true)];
            forall d: nat :: Outstanding(flagged, d) == Outstanding(leases, d)
  {
  }

  // ----- The phase machine -----

  /** Retiring a client closes it at once unless somebody still holds it. */
  ghost function AfterRetire(p: Pool, c: nat): Phase {
    if Outstanding(p.leases, c) == {} then CloseStarted else Retired
  }

  ghost function Step(p: Pool, e: Event): Pool {
    match e
    case Init(buildOk) =>
      if p.current.Some? || !buildOk then p else Pool(Some(|p.phases|), p.phases + [Serving], p.leases)
    case Acquire =>
      if p.current.None? then p else p.(leases := p.leases + [Lease(p.current.value, false, false)])
    case CloseLease(l) =>
      if l < |p.leases| then p.(leases := p.leases[l := p.leases[l].(closed := true)]) else p
    case Release(l) =>
      if l < |p.leases| && p.leases[l].closed && !p.leases[l].released then
        var c := p.leases[l].client;
        var q := p.(leases := p.leases[l := p.leases[l].(released := true)]);
        if c < |p.phases| && p.phases[c] == Retired then q.(phases := q.phases[c := AfterRetire(q, c)]) else q
      else p
    case Refresh(buildOk) =>
      if !buildOk then p
      else
        Pool(Some(|p.phases|),
             (if p.current.Some? && p.current.value < |p.phases|
              then p.phases[p.current.value := AfterRetire(p, p.current.value)]
              else p.phases) + [Serving],
             p.leases)
    case CloseAll => Pool(None, seq(|p.phases|, _ => CloseStarted), p.leases)
    case TaskFinished(_) => p
    case CloseDone(_) => p
  }

  ghost function Run(p: Pool, events: seq<Event>): Pool
    decreases |events|
  {
    if events == [] then p else Run(Step(p, events[0]), events[1..])
  }

  const Start := Pool(None, [], [])

  /** Only the current client serves, a retired one is held by somebody, and every
      lease names a client that was built. */
  ghost predicate Sound(p: Pool) {
    && (forall c: nat :: p.current == Some(c) <==> c < |p.phases| && p.phases[c] == Serving)
    && (forall c :: 0 <= c < |p.phases| && p.phases[c] == Retired ==> Outstanding(p.leases, c) != {})
    && (forall l :: 0 <= l < |p.leases| ==> p.leases[l].client < |p.phases|)
  }

  lemma {:induction false} StepSound(p: Pool, e: Event)
    requires Sound(p)
    ensures Sound(Step(p, e))
  {
    match e
    case Init(_) =>
      forall c: nat ensures Outstanding(Step(p, e).leases, c) == Outstanding(p.leases, c) {}
    case Acquire =>
      if p.current.Some? {
        var q := Step(p, e);
        forall c: nat ensures Outstanding(q.leases, c) >= Outstanding(p.leases, c) {}
      }
    case CloseLease(l) =>
      if l < |p.leases| { FlagCounts(p.leases, l); }
    case Release(l) =>
      var q := Step(p, e);
      if q != p {
        forall c: nat | c != p.leases[l].client ensures Outstanding(q.leases, c) == Outstanding(p.leases, c) {}
      }
    case Refresh(_) =>
    case CloseAll =>
    case TaskFinished(_) =>
    case CloseDone(_) =>
  }

  lemma {:induction false} RunSound(p: Pool, events: seq<Event>)
    requires Sound(p)
    ensures Sound(Run(p, events))
    decreases |events|
  {
    if events != [] {
      StepSound(p, events[0]);
      RunSound(Step(p, events[0]), events[1..]);
    }
  }

  ghost function Rank(ph: Phase): nat {
    match ph case Serving => 0 case Retired => 1 case CloseStarted => 2
  }

  /** Phases only move forward: in particular a close that has started never starts again. */
  lemma {:induction false} RunMovesForward(p: Pool, events: seq<Event>, c: nat)
    requires Sound(p) && c < |p.phases|
    ensures |p.phases| <= |Run(p, events).phases|
    ensures Rank(p.phases[c]) <= Rank(Run(p, events).phases[c])
    decreases |events|
  {
    if events != [] {
      StepSound(p, events[0]);
      RunMovesForward(Step(p, events[0]), events[1..], c);
    }
  }

  ghost predicate NoForcedClose(events: seq<Event>) {
    forall i :: 0 <= i < |events| ==> events[i] != CloseAll
  }

  ghost predicate ClosedOnlyIdle(p: Pool, c: nat) {
    c < |p.phases| && p.phases[c] == CloseStarted ==> Outstanding(p.leases, c) == {}
  }

  /** A close starts under somebody's lease only in a shutdown: a client that no shutdown
      has covered (one built later, say) is never closed while it is held. */
  lemma {:induction false} NeverClosedUnderALease(p: Pool, events: seq<Event>, c: nat)
    requires Sound(p) && ClosedOnlyIdle(p, c) && NoForcedClose(events)
    ensures ClosedOnlyIdle(Run(p, events), c)
    decreases |events|
  {
    if events != [] {
      var q := Step(p, events[0]);
      StepSound(p, events[0]);
      IdleStep(p, events[0], c);
      assert NoForcedClose(events[1..]);
      NeverClosedUnderALease(q, events[1..], c);
    }
  }

  lemma {:induction false} IdleStep(p: Pool, e: Event, c: nat)
    requires Sound(p) && ClosedOnlyIdle(p, c) && e != CloseAll
    ensures ClosedOnlyIdle(Step(p, e), c)
  {
    var q := Step(p, e);
    if c < |p.phases| && p.phases[c] == CloseStarted {
      assert p.current != Some(c);
      forall l | l in Outstanding(q.leases, c) ensures l in Outstanding(p.leases, c) {}
    }
  }

  predicate Undisturbed(events: seq<Event>, l: nat) { CloseAll !in events && Release(l) !in events }

  lemma {:induction false} HeldStaysOpen(p: Pool, events: seq<Event>, c: nat, l: nat)
    requires Sound(p) && c < |p.phases| && p.phases[c] != CloseStarted && l in Outstanding(p.leases, c)
    requires Undisturbed(events, l)
    ensures c < |Run(p, events).phases| && Run(p, events).phases[c] != CloseStarted
    ensures l in Outstanding(Run(p, events).leases, c)
    decreases |events|
  {
    if events != [] {
      StepSound(p, events[0]);
      HeldStep(p, events[0], c, l);
      HeldStaysOpen(Step(p, events[0]), events[1..], c, l);
    }
  }

  lemma {:induction false} HeldStep(p: Pool, e: Event, c: nat, l: nat)
    requires Sound(p) && c < |p.phases| && p.phases[c] != CloseStarted && l in Outstanding(p.leases, c)
    requires e != CloseAll && e != Release(l)
    ensures var q := Step(p, e);
            c < |q.phases| && q.phases[c] != CloseStarted && l in Outstanding(q.leases, c)
  {
    assert e.Release? && Step(p, e) != p ==> l in Outstanding(Step(p, e).leases, c);
  }

  /** From the moment a lease is acquired until it is released, and unless there is a
      shutdown, the client it was acquired on is not closed, whatever else happens: refreshes,
      other leases, their releases. */
  lemma {:induction false} LeaseKeepsClientOpen(p: Pool, events: seq<Event>, c: nat)
    requires Sound(p) && p.current == Some(c) && Undisturbed(events, |p.leases|)
    ensures var q := Run(Step(p, Acquire), events);
            c < |q.phases| && q.phases[c] != CloseStarted
  {
    StepSound(p, Acquire);
    assert |p.leases| in Outstanding(Step(p, Acquire).leases, c);
    HeldStaysOpen(Step(p, Acquire), events, c, |p.leases|);
  }

  /** And once nobody holds a client that was refreshed away, it is closed. */
  lemma {:induction false} ReplacedAndReleasedIsClosed(p: Pool, events: seq<Event>, c: nat)
    requires Sound(p) && p.current == Some(c)
    ensures var q := Run(Step(p, Refresh(true)), events);
            c < |q.phases| && (Outstanding(q.leases, c) == {} ==> q.phases[c] == CloseStarted)
  {
    StepSound(p, Refresh(true));
    var r := Step(p, Refresh(true));
    RunSound(r, events);
    RunMovesForward(r, events, c);
  }

  /** After a shutdown every client ever built has its close started and nothing serves,
      and no later release, flag or callback changes that. */
  lemma {:induction false} ShutdownIsFinal(p: Pool, after: seq<Event>)
    requires forall e :: e in after ==> !e.Init? && !e.Refresh?
    ensures var q := Run(Step(p, CloseAll), after);
            q.current == None && q.phases == seq(|p.phases|, _ => CloseStarted)
  {
    ShutdownStays(Step(p, CloseAll), after);
  }

  lemma {:induction false} ShutdownStays(p: Pool, after: seq<Event>)
    requires p.current == None && forall c :: 0 <= c < |p.phases| ==> p.phases[c] == CloseStarted
    requires forall e :: e in after ==> !e.Init? && !e.Refresh?
    ensures var q := Run(p, after); q.current == None && q.phases == p.phases
    decreases |after|
  {
    if after != [] {
      var q := Step(p, after[0]);
      assert q.current == None && q.phases == p.phases;
      ShutdownStays(q, after[1..]);
    }
  }

  // ----- The module's own globals and critical sections -----

  datatype Managed = Managed(activeLeases: int, closeRequested: bool, closeStarted: bool, closed: bool)

  ghost function PhaseOf(m: Managed): Phase {
    if m.closeStarted then CloseStarted else if m.closeRequested then Retired else Serving
  }

  ghost function PhasesOf(ms: seq<Managed>): (phases: seq<Phase>)
    ensures |phases| == |ms|
    ensures forall c :: 0 <= c < |ms| ==> phases[c] == PhaseOf(ms[c])
  {
    seq(|ms|, c requires 0 <= c < |ms| => PhaseOf(ms[c]))
  }

  class Manager {
    var clients: seq<Managed>       // every managed client ever built, by identity
    var current: Option<nat>
    var retired: seq<nat>
    var closing: seq<nat>
    var leases: seq<Lease>
    var closeTasks: seq<nat>        // close tasks created so far, in order

    ghost function Abs(): Pool
      reads this
    {
      Pool(current, PhasesOf(clients), leases)
    }

    /** The three lists and the flags describe the same phases (`c` aside, whose
        retirement is in progress), each close task was created once, and every counter
        is exactly the ledger's. */
    ghost predicate ListedBut(moving: set<nat>)
      reads this
    {
      && NoDuplicates(retired) && NoDuplicates(closing) && NoDuplicates(closeTasks)
      && (forall c: nat :: c in retired ==> c < |clients| && PhaseOf(clients[c]) == Retired)
      && (forall c: nat :: c < |clients| && PhaseOf(clients[c]) == Retired && c !in moving ==> c in retired)
      && (forall c: nat :: c in closeTasks <==> c < |clients| && PhaseOf(clients[c]) == CloseStarted)
      && (forall c: nat :: c in closing ==> c in closeTasks)
      && (forall c: nat :: c < |clients| ==>
            && clients[c].activeLeases == |Outstanding(leases, c)|
            && (clients[c].closeStarted ==> clients[c].closeRequested && (clients[c].closed || c in closing)))
    }

    ghost predicate Valid()
      reads this
    {
      ListedBut({}) && Sound(Abs())
    }

    /** Every client ever built is current, or retired and held, or has its one close
        task, and only one of these; a finished close is all that leaves the lists. */
    lemma {:induction false} Partition()
      requires Valid()
      ensures forall c: nat :: c < |clients| ==>
                && (current == Some(c) || c in retired || c in closeTasks)
                && !(current == Some(c) && c in retired)
                && !(current == Some(c) && c in closeTasks)
                && !(c in retired && c in closeTasks)
                && (c in retired ==> clients[c].activeLeases > 0)
                && (c in closeTasks ==> c in closing || clients[c].closed)
      ensures forall c: nat :: c in retired || c in closing || current == Some(c) ==> c < |clients|
    {
      forall c: nat | c < |clients| ensures Abs().phases[c] == PhaseOf(clients[c]) {}
    }

    constructor ()
      ensures Valid() && Abs() == Start
    {
      clients, current, retired, closing, leases, closeTasks := [], None, [], [], [], [];
    }

    /** `_start_client_close_locked`: creates the close task unless there is one. */
    method StartClose(c: nat)
      requires ListedBut({c}) && c < |clients| && clients[c].closeRequested
      modifies this`clients, this`retired, this`closing, this`closeTasks
      ensures ListedBut({})
      ensures clients == old(clients)[c := old(clients)[c].(closeStarted := true)]
      ensures closeTasks == old(closeTasks) + if old(clients)[c].closeStarted then [] else [c]
    {
      if clients[c].closeStarted {
        return;
      }
      retired := RemoveFirst(retired, c);
      closing := closing + [c];
      closeTasks := closeTasks + [c];
      clients := clients[c := clients[c].(closeStarted := true)];
    }

    /** `_request_client_close_locked`.  Only an unforced request for a held client that is
        already closing would list it as retired too; nothing makes one. */
    method RequestClose(c: nat, force: bool)
      requires ListedBut({}) && c < |clients|
      modifies this`clients, this`retired, this`closing, this`closeTasks
      ensures force || !old(clients)[c].closeStarted || Outstanding(leases, c) == {} ==> ListedBut({})
      ensures !force && old(clients)[c].closeStarted && Outstanding(leases, c) != {} ==>
                retired == old(retired) + [c] && closing == old(closing) && closeTasks == old(closeTasks)
      ensures clients == old(clients)[c := old(clients)[c].(
                closeRequested := true,
                closeStarted := old(clients)[c].closeStarted || force || Outstanding(leases, c) == {})]
    {
      clients := clients[c := clients[c].(closeRequested := true)];
      if clients[c].activeLeases > 0 && !force {
        if c !in retired {
          retired := retired + [c];
        }
        return;
      }
      StartClose(c);
    }

    /** Installs a freshly built client as the current one. */
    method Install()
      requires ListedBut({})
      requires forall l :: 0 <= l < |leases| ==> leases[l].client < |clients|
      modifies this`clients, this`current
      ensures ListedBut({})
      ensures clients == old(clients) + [Managed(0, false, false, false)] && current == Some(|old(clients)|)
    {
      assert Outstanding(leases, |clients|) == {};
      clients := clients + [Managed(0, false, false, false)];
      current := Some(|clients| - 1);
    }

    method InitClient(buildOk: bool)
      requires Valid()
      modifies this
      ensures Valid() && Abs() == Step(old(Abs()), Init(buildOk))
      ensures leases == old(leases)
      ensures if old(current).Some? || !buildOk then clients == old(clients) && current == old(current)
              else clients == old(clients) + [Managed(0, false, false, false)] && current == Some(|old(clients)|)
    {
      ghost var before := Abs();
      StepSound(before, Init(buildOk));
      if current.Some? || !buildOk {
        return;
      }
      Install();
      assert Abs() == Step(before, Init(buildOk));
    }

    method AcquireLease() returns (lease: Option<nat>)
      requires Valid()
      modifies this`clients, this`leases
      ensures Valid() && Abs() == Step(old(Abs()), Acquire)
      ensures current.None? ==> lease == None && leases == old(leases) && clients == old(clients)
      ensures current.Some? ==>
                && lease == Some(|old(leases)|) && leases == old(leases) + [Lease(current.value, false, false)]
                && var held := old(clients)[current.value];
                   clients == old(clients)[current.value := held.(activeLeases := held.activeLeases + 1)]
    {
      StepSound(Abs(), Acquire);
      if current.None? {
        return None;
      }
      AcquireCounts(leases, current.value);
      ghost var before := Abs();
      var c := current.value;
      clients := clients[c := clients[c].(activeLeases := clients[c].activeLeases + 1)];
      leases := leases + [Lease(c, false, false)];
      assert Abs() == Step(before, Acquire);
      return Some(|leases| - 1);
    }

    /** The flag half of `HttpClientLease.close`: only the first call goes on to release. */
    method FlagLease(l: nat) returns (mustRelease: bool)
      requires Valid() && l < |leases|
      modifies this`leases
      ensures Valid() && Abs() == Step(old(Abs()), CloseLease(l))
      ensures mustRelease == !old(leases)[l].closed
      ensures leases == old(leases)[l := old(leases)[l].(closed := true)]
    {
      StepSound(Abs(), CloseLease(l));
      ghost var before := Abs();
      mustRelease := !leases[l].closed;
      if mustRelease {
        FlagCounts(leases, l);
        leases := leases[l := leases[l].(closed := true)];
      }
      assert Abs() == Step(before, CloseLease(l));
    }

    /** The decrement of `_release_http_client`. */
    method Decrement(l: nat)
      requires Valid() && l < |leases| && !leases[l].released
      modifies this`clients, this`leases
      ensures ListedBut({}) && leases == old(leases)[l := old(leases)[l].(released := true)]
      ensures var c := old(leases)[l].client;
              && c < |old(clients)|
              && clients == old(clients)[c := old(clients)[c].(activeLeases := old(clients)[c].activeLeases - 1)]
              && clients[c].activeLeases == |Outstanding(leases, c)|
    {
      ReleaseCounts(leases, l);
      var c := leases[l].client;
      assert l in Outstanding(leases, c);
      leases := leases[l := leases[l].(released := true)];
      clients := clients[c := clients[c].(activeLeases := clients[c].activeLeases - 1)];
    }

    /** `_release_http_client`, whose "released too many times" error never happens. */
    method ReleaseLease(l: nat) returns (tooManyReleases: bool)
      requires Valid() && l < |leases| && leases[l].closed && !leases[l].released
      modifies this
      ensures Valid() && Abs() == Step(old(Abs()), Release(l))
      ensures !tooManyReleases && current == old(current)
      ensures leases == old(leases)[l := old(leases)[l].(released := true)]
      ensures var c := old(leases)[l].client;
              var held := old(clients)[c];
              clients == old(clients)[c := held.(
                activeLeases := held.activeLeases - 1,
                closeStarted := held.closeStarted || (held.closeRequested && held.activeLeases == 1))]
    {
      StepSound(Abs(), Release(l));
      ghost var before := Abs();
      var c := leases[l].client;
      Decrement(l);
      if clients[c].activeLeases < 0 {
        return true;
      }
      assert PhaseOf(clients[c]) == before.phases[c];
      if clients[c].closeRequested && clients[c].activeLeases == 0 {
        StartClose(c);
      }
      assert Abs().phases == Step(before, Release(l)).phases;
      return false;
    }

    method RefreshClient(buildOk: bool)
      requires Valid()
      modifies this
      ensures Valid() && Abs() == Step(old(Abs()), Refresh(buildOk))
      ensures leases == old(leases)
      ensures !buildOk ==> clients == old(clients) && current == old(current)
      ensures buildOk ==>
                && current == Some(|old(clients)|)
                && clients == (match old(current)
                               case None => old(clients)
                               case Some(c) =>
                                 var held := old(clients)[c];
                                 old(clients)[c := held.(closeRequested := true, closeStarted := held.activeLeases == 0)])
                              + [Managed(0, false, false, false)]
    {
      ghost var before := Abs();
      StepSound(before, Refresh(buildOk));
      if !buildOk {
        return;
      }
      var previous := current;
      Install();
      if previous.Some? {
        assert before.phases[previous.value] == Serving;
        RequestClose(previous.value, false);
      }
      assert Abs().phases == Step(before, Refresh(buildOk)).phases;
    }

    /** The loop of `close_http_client` over the clients it collected. */
    method ForceClose(covered: seq<nat>)
      requires ListedBut({})
      requires forall c :: c in covered ==> c < |clients|
      modifies this`clients, this`retired, this`closing, this`closeTasks
      ensures ListedBut({}) && |clients| == |old(clients)|
      ensures forall c: nat :: c < |clients| ==>
                && clients[c].closed == old(clients)[c].closed
                && (c in covered || old(clients)[c].closeStarted ==> clients[c].closeStarted)
                && (c !in covered ==> clients[c] == old(clients)[c])
    {
      for i := 0 to |covered|
        invariant ListedBut({}) && |clients| == |old(clients)|
        invariant forall c: nat :: c < |clients| ==>
                    && clients[c].closed == old(clients)[c].closed
                    && (c in covered[..i] || old(clients)[c].closeStarted ==> clients[c].closeStarted)
                    && (c !in covered[..i] ==> clients[c] == old(clients)[c])
      {
        assert covered[i] in covered && covered[..i + 1] == covered[..i] + [covered[i]];
        RequestClose(covered[i], true);
      }
      assert covered[..|covered|] == covered;
    }

    /** `close_http_client`: the clients it goes on to wait for are all that are not closed yet. */
    method CloseClients() returns (waitFor: seq<nat>)
      requires Valid()
      modifies this
      ensures Valid() && Abs() == Step(old(Abs()), CloseAll)
      ensures current == None && leases == old(leases) && |clients| == |old(clients)|
      ensures forall c: nat :: c < |clients| ==> clients[c].closeStarted && clients[c].closed == old(clients)[c].closed
      ensures forall c: nat :: c < |clients| && !clients[c].closed ==> c in waitFor
    {
      Partition();
      ghost var before := Abs();
      waitFor := (if current.Some? then [current.value] else []) + retired + closing;
      current := None;
      ForceClose(waitFor);
      StepSound(before, CloseAll);
      assert Abs().phases == Step(before, CloseAll).phases;
    }

    /** The close task's own end, and its done-callback. */
    method FinishTask(c: nat)
      requires Valid() && c in closeTasks
      modifies this`clients
      ensures Valid() && Abs() == old(Abs())
      ensures clients == old(clients)[c := old(clients)[c].(closed := true)]
    {
      ghost var before := Abs();
      clients := clients[c := clients[c].(closed := true)];
      assert Abs() == before;
    }

    method CompleteClose(c: nat)
      requires Valid() && c < |clients| && clients[c].closed
      modifies this`closing
      ensures Valid() && Abs() == old(Abs())
      ensures forall d :: d in closing <==> d in old(closing) && d != c
    {
      ghost var before := Abs();
      closing := RemoveFirst(closing, c);
      assert Abs() == before;
    }

    /** One event; an event that is not enabled changes nothing. */
    method Dispatch(e: Event)
      requires Valid()
      modifies this
      ensures Valid() && Abs() == Step(old(Abs()), e)
    {
      match e
      case Init(ok) => InitClient(ok);
      case Acquire => var _ := AcquireLease();
      case CloseLease(l) => if l < |leases| { var _ := FlagLease(l); }
      case Release(l) => if l < |leases| && leases[l].closed && !leases[l].released { var _ := ReleaseLease(l); }
      case Refresh(ok) => RefreshClient(ok);
      case CloseAll => var _ := CloseClients();
      case TaskFinished(c) => if c in closeTasks { FinishTask(c); }
      case CloseDone(c) => if c < |clients| && clients[c].closed { CompleteClose(c); }
    }

    /** Any interleaving of the critical sections follows the phase machine. */
    method Replay(events: seq<Event>)
      requires Valid()
      modifies this
      ensures Valid() && Abs() == Run(old(Abs()), events)
    {
      for i := 0 to |events|
        invariant Valid() && Run(Abs(), events[i..]) == Run(old(Abs()), events)
      {
        assert events[i..][0] == events[i] && events[i..][1..] == events[i + 1..];
        Dispatch(events[i]);
      }
    }
  }
}
