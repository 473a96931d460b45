/** Readers, writers, version tables and pollers of every replica, interleaved.

    A reader is `_validate_api_key_token`: after a miss it snapshots the cache version,
    reads the database, and inserts only if the version has not moved.  A writer commits,
    invalidates its own cache and bumps the version table; each replica's poller reads the
    table, then handles the row, then ends.  Stamps order the commits of a key. */
module CacheProtocol {
  import opened Common
  import ApiKeyCache
  import Invalidation

  type Key = string

  datatype Reader =
    | Snapped(key: Key, version: nat)
    | ReadDone(key: Key, version: nat, stamp: nat)

  datatype Poll = Resting | Polled(row: Option<int>) | Handled

  datatype Replica = Replica(
    entries: map<Key, nat>,           // cached stamp of each key
    version: nat,
    readers: map<nat, Reader>,
    known: Option<int>,
    initialized: bool,
    poll: Poll,
    callbacks: nat)

  datatype System = System(db: map<Key, nat>, clock: nat, table: Option<int>, replicas: seq<Replica>)

  datatype Event =
    | Commit(key: Key)
    | Bump
    | Invalidate(r: nat, key: Key)
    | Clear(r: nat)
    | Begin(r: nat, reader: nat, key: Key)
    | ReadDb(r: nat, reader: nat, keyIsValid: bool)
    | Insert(r: nat, reader: nat, evicted: Option<Key>)
    | Drop(r: nat, key: Key)          // expiry
    | PollRead(r: nat)
    | PollHandle(r: nat)
    | PollEnd(r: nat)

  predicate AtReplica(e: Event) { !e.Commit? && !e.Bump? }

  function Cleared(p: Replica): Replica {
    p.(entries := map[], version := p.version + 1, callbacks := p.callbacks + 1)
  }

  /** The guarded insert, evicting at most one other entry. */
  function Inserted(p: Replica, reader: nat, evicted: Option<Key>): Replica
    requires reader in p.readers && p.readers[reader].ReadDone?
  {
    var rd := p.readers[reader];
    var done := p.(readers := p.readers - {reader});
    if rd.version != p.version then done
    else
      var room := if evicted.Some? then p.entries - {evicted.value} else p.entries;
      done.(entries := room[rd.key := rd.stamp])
  }

  /** What a cache of stamps holds, without the expiry times. */
  function Stamps(cache: map<Key, ApiKeyCache.Entry<nat>>): map<Key, nat> { map k | k in cache :: cache[k].data }

  /** A guarded insert takes effect exactly if the version is still the reader's, and then
      changes nothing but the key and the evicted entry. */
  lemma {:induction false} InsertExactly(p: Replica, reader: nat, evicted: Option<Key>)
    requires reader in p.readers && p.readers[reader].ReadDone?
    ensures var rd, q := p.readers[reader], Inserted(p, reader, evicted);
            && q.version == p.version && q.readers == p.readers - {reader}
            && if rd.version == p.version
               then && rd.key in q.entries && q.entries[rd.key] == rd.stamp
                    && forall k :: k != rd.key ==>
                         && (k in q.entries <==> k in p.entries && evicted != Some(k))
                         && (k in q.entries ==> q.entries[k] == p.entries[k])
               else q.entries == p.entries
  {
  }

  /** The cache's insert and removal are the protocol's, entry by entry. */
  lemma {:induction false} CacheStepsAgree(
    p: Replica, cache: map<Key, ApiKeyCache.Entry<nat>>, reader: nat, evicted: Option<Key>, key: Key, expiresAt: real)
    requires p.entries == Stamps(cache) && reader in p.readers && p.readers[reader].ReadDone?
    ensures var rd := p.readers[reader];
            rd.version == p.version ==>
              Inserted(p, reader, evicted).entries ==
                Stamps(ApiKeyCache.Stored(cache, evicted, rd.key, ApiKeyCache.Entry(rd.stamp, expiresAt)))
    ensures p.entries - {key} == Stamps(cache - {key})
  {
  }

  function Handle(p: Replica): Replica
    requires p.poll.Polled?
  {
    var row := p.poll.row;
    if row.None? then p.(poll := Handled)
    else
      var q := if Invalidation.Fires(p.known, p.initialized, row.value) then Cleared(p) else p;
      q.(known := row, poll := Handled)
  }

  function ReplicaStep(p: Replica, e: Event, db: map<Key, nat>, table: Option<int>): Replica
    requires AtReplica(e)
  {
    match e
    case Invalidate(_, k) => p.(entries := p.entries - {k}, version := p.version + 1)
    case Clear(_) => p.(entries := map[], version := p.version + 1)
    case Begin(_, reader, k) => p.(readers := p.readers[reader := Snapped(k, p.version)])
    case ReadDb(_, reader, keyIsValid) =>
      if reader in p.readers && p.readers[reader].Snapped? then
        var rd := p.readers[reader];
        if keyIsValid && rd.key in db
        then p.(readers := p.readers[reader := ReadDone(rd.key, rd.version, db[rd.key])])
        else p.(readers := p.readers - {reader})
      else p
    case Insert(_, reader, evicted) =>
      if reader in p.readers && p.readers[reader].ReadDone? then Inserted(p, reader, evicted) else p
    case Drop(_, k) => p.(entries := p.entries - {k})
    case PollRead(_) => if p.poll.Resting? then p.(poll := Polled(table)) else p
    case PollHandle(_) => if p.poll.Polled? then Handle(p) else p
    case PollEnd(_) => if p.poll.Handled? then p.(poll := Resting, initialized := true) else p
  }

  function Step(s: System, e: Event): System {
    match e
    case Commit(k) => s.(db := s.db[k := s.clock + 1], clock := s.clock + 1)
    case Bump => s.(table := Some(if s.table.Some? then s.table.value + 1 else 1))
    case _ =>
      if e.r < |s.replicas|
      then s.(replicas := s.replicas[e.r := ReplicaStep(s.replicas[e.r], e, s.db, s.table)])
      else s
  }

  function Run(s: System, events: seq<Event>): System
    decreases |events|
  {
    if events == [] then s else Run(Step(s, events[0]), events[1..])
  }

  function Fresh(): Replica { Replica(map[], 0, map[], None, false, Resting, 0) }

  function Start(n: nat): System { System(map[], 0, None, seq(n, _ => Fresh())) }

  // ----- What every run keeps -----

  function Version(o: Option<int>): int { if o.Some? then o.value else 0 }

  predicate ReplicaOk(p: Replica, db: map<Key, nat>, table: Option<int>) {
    && (forall x :: x in p.readers ==> p.readers[x].version <= p.version)
    && (forall x :: x in p.readers && p.readers[x].ReadDone? ==>
          p.readers[x].key in db && p.readers[x].stamp <= db[p.readers[x].key])
    && (forall k :: k in p.entries ==> k in db && p.entries[k] <= db[k])
    && 0 <= Version(p.known) <= Version(table)
    && (p.poll.Polled? ==> Version(p.known) <= Version(p.poll.row) <= Version(table))
    && (p.poll.Polled? && p.poll.row.Some? ==> p.poll.row.value >= 1)
  }

  ghost predicate Ok(s: System) {
    && (forall k :: k in s.db ==> s.db[k] <= s.clock)
    && (s.table.Some? ==> s.table.value >= 1)
    && (forall r :: 0 <= r < |s.replicas| ==> ReplicaOk(s.replicas[r], s.db, s.table))
  }

  lemma {:induction false} ReplicaStepOk(p: Replica, e: Event, db: map<Key, nat>, table: Option<int>)
    requires ReplicaOk(p, db, table) && AtReplica(e) && (table.Some? ==> table.value >= 1)
    ensures ReplicaOk(ReplicaStep(p, e, db, table), db, table)
  {
  }

  lemma {:induction false} StepOk(s: System, e: Event)
    requires Ok(s)
    ensures Ok(Step(s, e))
  {
    if AtReplica(e) {
      if e.r < |s.replicas| { ReplicaStepOk(s.replicas[e.r], e, s.db, s.table); }
    } else {
      var t := Step(s, e);
      forall r | 0 <= r < |s.replicas| ensures ReplicaOk(t.replicas[r], t.db, t.table) {
        assert ReplicaOk(s.replicas[r], s.db, s.table);
      }
    }
  }

  lemma {:induction false} RunOk(s: System, events: seq<Event>)
    requires Ok(s)
    ensures Ok(Run(s, events))
    decreases |events|
  {
    if events != [] {
      StepOk(s, events[0]);
      RunOk(Step(s, events[0]), events[1..]);
    }
  }

  ghost predicate Reachable(s: System) {
    exists n, events :: s == Run(Start(n), events)
  }

  lemma {:induction false} ReachableOk(s: System)
    requires Reachable(s)
    ensures Ok(s)
  {
    var n, events :| s == Run(Start(n), events);
    RunOk(Start(n), events);
  }

  // ----- A fence: nothing older than stamp t can be served or inserted any more -----

  predicate MayInsert(p: Replica, x: nat, k: Key)
    requires x in p.readers
  {
    p.readers[x].ReadDone? && p.readers[x].key == k && p.readers[x].version == p.version
  }

  predicate ReplicaFenced(p: Replica, k: Key, t: nat) {
    && (k in p.entries ==> p.entries[k] >= t)
    && (forall x :: x in p.readers && MayInsert(p, x, k) ==> p.readers[x].stamp >= t)
  }

  ghost predicate Fenced(s: System, r: nat, k: Key, t: nat) {
    && r < |s.replicas|
    && k in s.db && s.db[k] >= t
    && ReplicaFenced(s.replicas[r], k, t)
  }

  /** Committing and then invalidating, or clearing, raises the fence: the version moves,
      so every reader still in flight has lost its right to insert. */
  lemma {:induction false} FenceRaised(s: System, e: Event, k: Key, t: nat)
    requires Ok(s) && (e.Clear? || (e.Invalidate? && e.key == k)) && e.r < |s.replicas|
    requires k in s.db && s.db[k] >= t
    ensures Fenced(Step(s, e), e.r, k, t)
  {
    assert ReplicaOk(s.replicas[e.r], s.db, s.table);
  }

  lemma {:induction false} ReplicaFenceStep(p: Replica, e: Event, db: map<Key, nat>, table: Option<int>, k: Key, t: nat)
    requires ReplicaOk(p, db, table) && AtReplica(e)
    requires ReplicaFenced(p, k, t) && k in db && db[k] >= t
    ensures ReplicaFenced(ReplicaStep(p, e, db, table), k, t)
  {
  }

  lemma {:induction false} FenceStep(s: System, e: Event, r: nat, k: Key, t: nat)
    requires Ok(s) && Fenced(s, r, k, t)
    ensures Fenced(Step(s, e), r, k, t)
  {
    if AtReplica(e) && e.r == r {
      assert ReplicaOk(s.replicas[r], s.db, s.table);
      ReplicaFenceStep(s.replicas[r], e, s.db, s.table, k, t);
    }
  }

  lemma {:induction false} FenceHolds(s: System, events: seq<Event>, r: nat, k: Key, t: nat)
    requires Ok(s) && Fenced(s, r, k, t)
    ensures Fenced(Run(s, events), r, k, t)
    decreases |events|
  {
    if events != [] {
      StepOk(s, events[0]);
      FenceStep(s, events[0], r, k, t);
      FenceHolds(Step(s, events[0]), events[1..], r, k, t);
    }
  }

  lemma {:induction false} StampsGrow(s: System, events: seq<Event>, k: Key)
    requires Ok(s) && k in s.db
    ensures k in Run(s, events).db && Run(s, events).db[k] >= s.db[k]
    ensures |Run(s, events).replicas| == |s.replicas|
    decreases |events|
  {
    if events != [] {
      StepOk(s, events[0]);
      StampsGrow(Step(s, events[0]), events[1..], k);
    }
  }

  /** Once a writer has committed key k and the replica has invalidated it (or cleared its
      cache), the replica never again serves an older value, whatever readers were in flight. */
  lemma {:induction false} NoStaleGet(s: System, k: Key, between: seq<Event>, fence: Event, after: seq<Event>)
    requires Reachable(s)
    requires (fence.Clear? || (fence.Invalidate? && fence.key == k)) && fence.r < |s.replicas|
    ensures var committed := Step(s, Commit(k));
            var end := Run(Step(Run(committed, between), fence), after);
            && k in committed.db
            && fence.r < |end.replicas|
            && (k in end.replicas[fence.r].entries ==> end.replicas[fence.r].entries[k] >= committed.db[k])
  {
    ReachableOk(s);
    StepOk(s, Commit(k));
    var committed := Step(s, Commit(k));
    var invalidating := Run(committed, between);
    RunOk(committed, between);
    StampsGrow(committed, between, k);
    FenceRaised(invalidating, fence, k, committed.db[k]);
    StepOk(invalidating, fence);
    FenceHolds(Step(invalidating, fence), after, fence.r, k, committed.db[k]);
  }

  /** If the key has not been committed again, a fenced entry is the database's own row. */
  lemma {:induction false} FencedMeansCurrent(s: System, r: nat, k: Key)
    requires Ok(s) && k in s.db && Fenced(s, r, k, s.db[k])
    ensures k in s.replicas[r].entries ==> s.replicas[r].entries[k] == s.db[k]
  {
    assert ReplicaOk(s.replicas[r], s.db, s.table);
  }
}
