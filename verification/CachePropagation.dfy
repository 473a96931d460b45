/** How a bump of the version table reaches a replica: through its polls, if and only if the
    replica has read the table before. */
module CachePropagation {
  import opened Common
  import opened CacheProtocol
  import opened CacheRuns

  predicate Reached(p: Replica, stamps: map<Key, nat>, calls: nat) {
    p.callbacks > calls && forall k :: k in stamps ==> ReplicaFenced(p, k, stamps[k])
  }

  /** Polls once, or is past reading the table in its first poll, with an older version. */
  predicate Watching(p: Replica, v: int) {
    p.initialized || p.poll.Handled? || (p.poll.Polled? && Version(p.poll.row) < v)
  }

  /** After the bump to version v: the replica still knows an older version, or it has
      called back since and is fenced against everything committed before the bump. */
  predicate ReplicaPending(p: Replica, v: int, stamps: map<Key, nat>, calls: nat) {
    && Watching(p, v) && p.callbacks >= calls
    && (Version(p.known) < v || Reached(p, stamps, calls))
  }

  ghost predicate Pending(s: System, r: nat, v: int, stamps: map<Key, nat>, calls: nat) {
    && r < |s.replicas| && ReplicaPending(s.replicas[r], v, stamps, calls)
    && 1 <= v <= Version(s.table)
    && (forall k :: k in stamps ==> k in s.db && s.db[k] >= stamps[k])
  }

  lemma {:induction false} PendingReplicaStep(p: Replica, e: Event, db: map<Key, nat>, table: Option<int>,
                           v: int, stamps: map<Key, nat>, calls: nat)
    requires ReplicaOk(p, db, table) && AtReplica(e) && 1 <= v <= Version(table)
    requires forall k :: k in stamps ==> k in db && db[k] >= stamps[k]
    requires ReplicaPending(p, v, stamps, calls)
    ensures ReplicaPending(ReplicaStep(p, e, db, table), v, stamps, calls)
  {
    var q := ReplicaStep(p, e, db, table);
    if Version(p.known) >= v {
      forall k | k in stamps ensures ReplicaFenced(q, k, stamps[k]) {
        assert ReplicaFenced(p, k, stamps[k]);
        ReplicaFenceStep(p, e, db, table, k, stamps[k]);
      }
    }
  }

  lemma {:induction false} PendingStep(s: System, e: Event, r: nat, v: int, stamps: map<Key, nat>, calls: nat)
    requires Ok(s) && Pending(s, r, v, stamps, calls)
    ensures Pending(Step(s, e), r, v, stamps, calls)
  {
    if AtReplica(e) && e.r == r {
      assert ReplicaOk(s.replicas[r], s.db, s.table);
      PendingReplicaStep(s.replicas[r], e, s.db, s.table, v, stamps, calls);
    }
  }

  lemma {:induction false} PendingHolds(s: System, events: seq<Event>, r: nat, v: int, stamps: map<Key, nat>, calls: nat)
    requires Ok(s) && Pending(s, r, v, stamps, calls)
    ensures Ok(Run(s, events)) && Pending(Run(s, events), r, v, stamps, calls)
    decreases |events|
  {
    if events != [] {
      StepOk(s, events[0]);
      PendingStep(s, events[0], r, v, stamps, calls);
      PendingHolds(Step(s, events[0]), events[1..], r, v, stamps, calls);
    }
  }

  /** The poll in progress read version v or later, or one that did has been handled. */
  predicate SawVersion(p: Replica, v: int) {
    (p.poll.Polled? && Version(p.poll.row) >= v) || Version(p.known) >= v
  }

  lemma {:induction false} SawStep(s: System, e: Event, r: nat, v: int)
    requires Ok(s) && r < |s.replicas| && v >= 1
    ensures r < |Step(s, e).replicas|
    ensures SawVersion(s.replicas[r], v) ==> SawVersion(Step(s, e).replicas[r], v)
    ensures Version(s.replicas[r].known) <= Version(Step(s, e).replicas[r].known)
  {
    assert ReplicaOk(s.replicas[r], s.db, s.table);
  }

  lemma {:induction false} SawHolds(s: System, events: seq<Event>, r: nat, v: int)
    requires Ok(s) && r < |s.replicas| && v >= 1
    ensures r < |Run(s, events).replicas|
    ensures SawVersion(s.replicas[r], v) ==> SawVersion(Run(s, events).replicas[r], v)
    ensures Version(s.replicas[r].known) <= Version(Run(s, events).replicas[r].known)
    decreases |events|
  {
    if events != [] {
      SawStep(s, events[0], r, v);
      StepOk(s, events[0]);
      SawHolds(Step(s, events[0]), events[1..], r, v);
    }
  }

  /** The replica has read the table at least once: its first poll has got that far. */
  predicate HasPolled(p: Replica) { p.initialized || !p.poll.Resting? }

  /** After a bump, and whatever happens in between, the replica reads the table in a new poll
      and handles what it read. */
  ghost predicate PollsAfterBump(s: System, r: nat, between: seq<Event>, during: seq<Event>) {
    var ready := Run(s, [Bump] + between);
    var handled := Run(ready, [PollRead(r)] + during);
    && r < |ready.replicas| && ready.replicas[r].poll.Resting?
    && r < |handled.replicas| && handled.replicas[r].poll.Handled?
  }

  /** The state when that poll has ended. */
  function PollEnded(s: System, r: nat, between: seq<Event>, during: seq<Event>, after: seq<Event>): System {
    Run(Run(Run(s, [Bump] + between), [PollRead(r)] + during), [PollEnd(r)] + after)
  }

  /** The replica has called back, and holds nothing read before the bump. */
  ghost predicate SawTheBump(s: System, r: nat, end: System)
    requires r < |s.replicas|
  {
    && r < |end.replicas|
    && end.replicas[r].callbacks > s.replicas[r].callbacks
    && forall k :: k in s.db && k in end.replicas[r].entries ==> end.replicas[r].entries[k] >= s.db[k]
  }

  /** A bump reaches every replica that has read the table before it: by the end of the next
      poll that reads after the bump, the replica has called back, and from then on it holds
      nothing, and lets no reader insert anything, read before the bump. */
  lemma {:induction false} BumpPropagates(s: System, between: seq<Event>, r: nat, during: seq<Event>, after: seq<Event>)
    requires Reachable(s) && r < |s.replicas| && HasPolled(s.replicas[r]) && PollsAfterBump(s, r, between, during)
    ensures SawTheBump(s, r, PollEnded(s, r, between, during, after))
  {
    ReachableOk(s);
    var v, calls := Step(s, Bump).table.value, s.replicas[r].callbacks;
    BumpPending(s, r);
    var ready := Run(s, [Bump] + between);
    assert ([Bump] + between)[1..] == between;
    PendingHolds(Step(s, Bump), between, r, v, s.db, calls);
    var handled := Run(ready, [PollRead(r)] + during);
    PollSees(ready, r, v, during);
    PendingHolds(ready, [PollRead(r)] + during, r, v, s.db, calls);
    PendingHolds(handled, [PollEnd(r)] + after, r, v, s.db, calls);
    SawHolds(handled, [PollEnd(r)] + after, r, v);
    var end := Run(handled, [PollEnd(r)] + after);
    assert Reached(end.replicas[r], s.db, calls);
    forall k | k in s.db && k in end.replicas[r].entries ensures end.replicas[r].entries[k] >= s.db[k] {
      assert ReplicaFenced(end.replicas[r], k, s.db[k]);
    }
  }

  lemma {:induction false} BumpPending(s: System, r: nat)
    requires Ok(s) && r < |s.replicas| && HasPolled(s.replicas[r])
    ensures var bumped := Step(s, Bump);
            Ok(bumped) && Pending(bumped, r, bumped.table.value, s.db, s.replicas[r].callbacks)
  {
    assert ReplicaOk(s.replicas[r], s.db, s.table);
    StepOk(s, Bump);
  }

  lemma {:induction false} PollSees(ready: System, r: nat, v: int, during: seq<Event>)
    requires Ok(ready) && r < |ready.replicas| && ready.replicas[r].poll.Resting?
    requires 1 <= v <= Version(ready.table)
    ensures var handled := Run(ready, [PollRead(r)] + during);
            r < |handled.replicas| && SawVersion(handled.replicas[r], v)
  {
    var polled := Step(ready, PollRead(r));
    StepOk(ready, PollRead(r));
    assert ([PollRead(r)] + during)[1..] == during;
    SawHolds(polled, during, r, v);
  }

  // ----- A replica that has not read the table yet -----

  /** Until its first poll has handled a row, a replica knows no version. */
  predicate Unversed(p: Replica) { !p.initialized && !p.poll.Handled? ==> p.known.None? }

  ghost predicate AllUnversed(s: System) { forall r :: 0 <= r < |s.replicas| ==> Unversed(s.replicas[r]) }

  lemma {:induction false} RunUnversed(s: System, events: seq<Event>)
    requires AllUnversed(s)
    ensures AllUnversed(Run(s, events))
    decreases |events|
  {
    if events != [] {
      assert AllUnversed(Step(s, events[0]));
      RunUnversed(Step(s, events[0]), events[1..]);
    }
  }

  /** From every reachable state in which the replica has not read the table yet, its next poll
      misses the bump: it neither calls back nor drops an entry. */
  lemma {:induction false} FirstPollMissesTheBump(s: System, r: nat)
    requires Reachable(s) && r < |s.replicas| && !HasPolled(s.replicas[r])
    ensures PollsAfterBump(s, r, [], [PollHandle(r)])
    ensures var end := PollEnded(s, r, [], [PollHandle(r)], []);
            && r < |end.replicas| && end.replicas[r].initialized
            && end.replicas[r].callbacks == s.replicas[r].callbacks
            && end.replicas[r].entries == s.replicas[r].entries
  {
    var n, events :| s == Run(Start(n), events);
    RunUnversed(Start(n), events);
    var bumped := Step(s, Bump);
    var read := Step(bumped, PollRead(r));
    var handled := Step(read, PollHandle(r));
    RunTwo(bumped, PollRead(r), PollHandle(r));
    assert [Bump] + [] == [Bump] && [Bump][1..] == [];
    assert Run(s, [Bump]) == bumped;
    assert [PollRead(r)] + [PollHandle(r)] == [PollRead(r), PollHandle(r)];
    assert [PollEnd(r)] + [] == [PollEnd(r)] && [PollEnd(r)][1..] == [];
    assert Run(handled, [PollEnd(r)]) == Step(handled, PollEnd(r));
  }

  /** A bump is sure to reach a replica if and only if the replica has read the table before. */
  lemma {:induction false} BumpReachesExactly(s: System, r: nat)
    requires Reachable(s) && r < |s.replicas|
    ensures HasPolled(s.replicas[r]) <==>
            forall between, during, after :: PollsAfterBump(s, r, between, during) ==>
              SawTheBump(s, r, PollEnded(s, r, between, during, after))
  {
    if HasPolled(s.replicas[r]) {
      forall between, during, after | PollsAfterBump(s, r, between, during)
        ensures SawTheBump(s, r, PollEnded(s, r, between, during, after))
      {
        BumpPropagates(s, between, r, during, after);
      }
    } else {
      FirstPollMissesTheBump(s, r);
      assert !SawTheBump(s, r, PollEnded(s, r, [], [PollHandle(r)], []));
    }
  }

  lemma {:induction false} CachedBeforeTheFirstPoll(k: Key) returns (s: System)
    ensures Reachable(s) && s == System(map[k := 1], 1, None, [Fresh().(entries := map[k := 1]), Fresh()])
  {
    s := Run(Start(2), [Commit(k), Begin(0, 0, k), ReadDb(0, 0, true), Insert(0, 0, None)]);
    RunFour(Start(2), Commit(k), Begin(0, 0, k), ReadDb(0, 0, true), Insert(0, 0, None));
    assert Step(Start(2), Commit(k)) == System(map[k := 1], 1, None, [Fresh(), Fresh()]);
    assert ReplicaStep(Fresh(), Begin(0, 0, k), map[k := 1], None) == Fresh().(readers := map[0 := Snapped(k, 0)]);
  }

  /** The first replica has cached the key before its first poll.  The second one commits the
      key anew, invalidates its own cache and bumps the table; after its first poll the first
      replica still serves the old value. */
  lemma {:induction false} StaleAfterTheFirstPoll(k: Key) returns (s: System, end: System)
    ensures Reachable(s) && |s.replicas| == 2 && k in s.replicas[0].entries && !HasPolled(s.replicas[0])
    ensures end == Run(Run(s, [Commit(k), Invalidate(1, k)]), [Bump, PollRead(0), PollHandle(0), PollEnd(0)])
    ensures |end.replicas| == 2 && end.replicas[0].initialized
    ensures k in end.db && k in end.replicas[0].entries && end.replicas[0].entries[k] < end.db[k]
  {
    s := CachedBeforeTheFirstPoll(k);
    RunTwo(s, Commit(k), Invalidate(1, k));
    var written := Run(s, [Commit(k), Invalidate(1, k)]);
    assert written.db == map[k := 2] && written.replicas[0] == s.replicas[0] && |written.replicas| == 2;
    end := Run(written, [Bump, PollRead(0), PollHandle(0), PollEnd(0)]);
    RunFour(written, Bump, PollRead(0), PollHandle(0), PollEnd(0));
  }
}
