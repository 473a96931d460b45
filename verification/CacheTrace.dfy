/** Where a cached entry comes from: in every run of the protocol it was read after the last
    event that removed its key. */
module CacheTrace {
  import opened Common
  import opened CacheProtocol
  import Invalidation

  /** The event removes key k from replica r: an invalidation, a clear, or a poll's callback. */
  predicate Cuts(s: System, e: Event, r: nat, k: Key) {
    && AtReplica(e) && e.r == r && r < |s.replicas|
    && var p := s.replicas[r];
       || e.Clear?
       || (e.Invalidate? && e.key == k)
       || (e.PollHandle? && p.poll.Polled? && p.poll.row.Some?
           && Invalidation.Fires(p.known, p.initialized, p.poll.row.value))
  }

  /** The event is a reader of replica r reading key k from the database, which holds `stamp`. */
  predicate Reads(s: System, e: Event, r: nat, k: Key, stamp: nat) {
    && e.ReadDb? && e.r == r && e.keyIsValid && r < |s.replicas|
    && e.reader in s.replicas[r].readers
    && s.replicas[r].readers[e.reader].Snapped? && s.replicas[r].readers[e.reader].key == k
    && k in s.db && s.db[k] == stamp
  }

  /** The state before event i of a run. */
  function Before(n: nat, events: seq<Event>, i: nat): System
    requires i <= |events|
  {
    Run(Start(n), events[..i])
  }

  lemma {:induction false} RunSnoc(s: System, events: seq<Event>, e: Event)
    ensures Run(s, events + [e]) == Step(Run(s, events), e)
    decreases |events|
  {
    if events == [] {
      assert [] + [e] == [e] && [e][1..] == [];
    } else {
      assert (events + [e])[0] == events[0] && (events + [e])[1..] == events[1..] + [e];
      RunSnoc(Step(s, events[0]), events[1..], e);
    }
  }

  lemma {:induction false} BeforeNext(n: nat, events: seq<Event>, i: nat)
    requires i < |events|
    ensures Before(n, events, i + 1) == Step(Before(n, events, i), events[i])
    ensures |Before(n, events, i).replicas| == |Before(n, events, i + 1).replicas|
  {
    assert events[..i + 1] == events[..i] + [events[i]];
    RunSnoc(Start(n), events[..i], events[i]);
  }

  predicate ReadAt(n: nat, events: seq<Event>, i: int, r: nat, k: Key, stamp: nat) {
    0 <= i < |events| && Reads(Before(n, events, i), events[i], r, k, stamp)
  }

  predicate CutAt(n: nat, events: seq<Event>, j: int, r: nat, k: Key) {
    0 <= j < |events| && Cuts(Before(n, events, j), events[j], r, k)
  }

  /** Key k of replica r with this stamp was read at event i, and not removed from then to m. */
  predicate ReadSince(n: nat, events: seq<Event>, m: nat, i: int, r: nat, k: Key, stamp: nat) {
    && i < m && ReadAt(n, events, i, r, k, stamp)
    && forall j :: i < j < m ==> !CutAt(n, events, j, r, k)
  }

  /** A reader with a row in hand read it at event i, under the version it had snapped or later. */
  predicate ReadUnder(n: nat, events: seq<Event>, m: nat, i: int, r: nat, reader: Reader)
    requires reader.ReadDone?
  {
    && i < m && ReadAt(n, events, i, r, reader.key, reader.stamp)
    && reader.version <= Before(n, events, i).replicas[r].version
  }

  ghost predicate Traced(n: nat, events: seq<Event>, m: nat, r: nat)
    requires m <= |events| && r < |Before(n, events, m).replicas|
  {
    var p := Before(n, events, m).replicas[r];
    && (forall k :: k in p.entries ==> exists i :: ReadSince(n, events, m, i, r, k, p.entries[k]))
    && (forall x :: x in p.readers && p.readers[x].ReadDone? ==> exists i :: ReadUnder(n, events, m, i, r, p.readers[x]))
  }

  lemma {:induction false} VersionStep(s: System, e: Event, r: nat, k: Key)
    requires r < |s.replicas|
    ensures r < |Step(s, e).replicas| && s.replicas[r].version <= Step(s, e).replicas[r].version
    ensures Cuts(s, e, r, k) ==> s.replicas[r].version < Step(s, e).replicas[r].version
  {
  }

  /** The version never falls, and a removal raises it. */
  lemma {:induction false} CutsRaiseTheVersion(n: nat, events: seq<Event>, i: nat, m: nat, r: nat, k: Key)
    requires i <= m <= |events| && r < n
    ensures r < |Before(n, events, i).replicas| && r < |Before(n, events, m).replicas|
    ensures Before(n, events, i).replicas[r].version <= Before(n, events, m).replicas[r].version
    ensures Before(n, events, i).replicas[r].version == Before(n, events, m).replicas[r].version ==>
              forall j :: i <= j < m ==> !CutAt(n, events, j, r, k)
    decreases m - i
  {
    ReplicasStay(Start(n), events[..m]);
    if i < m {
      CutsRaiseTheVersion(n, events, i, m - 1, r, k);
      BeforeNext(n, events, m - 1);
      VersionStep(Before(n, events, m - 1), events[m - 1], r, k);
    }
  }

  lemma {:induction false} ReplicasStay(s: System, events: seq<Event>)
    ensures |Run(s, events).replicas| == |s.replicas|
    decreases |events|
  {
    if events != [] { ReplicasStay(Step(s, events[0]), events[1..]); }
  }

  /** An entry is there after a step because it was before and was not removed, or because a
      reader whose version is the cache's has inserted it. */
  lemma {:induction false} EntryStep(s: System, e: Event, r: nat, k: Key)
    requires r < |s.replicas| && r < |Step(s, e).replicas| && k in Step(s, e).replicas[r].entries
    ensures var p, stamp := s.replicas[r], Step(s, e).replicas[r].entries[k];
            || (k in p.entries && p.entries[k] == stamp && !Cuts(s, e, r, k))
            || (e.Insert? && e.reader in p.readers && p.readers[e.reader] == ReadDone(k, p.version, stamp))
    ensures e.Insert? ==> !Cuts(s, e, r, k)
  {
  }

  lemma {:induction false} ReaderStep(s: System, e: Event, r: nat, x: nat)
    requires r < |s.replicas| && ReplicaOk(s.replicas[r], s.db, s.table) && r < |Step(s, e).replicas|
    requires x in Step(s, e).replicas[r].readers && Step(s, e).replicas[r].readers[x].ReadDone?
    ensures var p, reader := s.replicas[r], Step(s, e).replicas[r].readers[x];
            || (x in p.readers && p.readers[x] == reader)
            || (Reads(s, e, r, reader.key, reader.stamp) && reader.version <= p.version)
  {
  }

  lemma {:induction false} SinceGrows(n: nat, events: seq<Event>, m: nat, next: nat, i: int, r: nat, k: Key, stamp: nat)
    requires next == m + 1 && ReadSince(n, events, m, i, r, k, stamp) && !CutAt(n, events, m, r, k)
    ensures ReadSince(n, events, next, i, r, k, stamp)
  {
  }

  /** As long as the version is still the reader's, nothing was removed since it read. */
  lemma {:induction false} UnderMeansSince(n: nat, events: seq<Event>, m: nat, i: int, r: nat, reader: Reader)
    requires m <= |events| && r < n && r < |Before(n, events, m).replicas| && reader.ReadDone?
    requires ReadUnder(n, events, m, i, r, reader) && reader.version == Before(n, events, m).replicas[r].version
    ensures ReadSince(n, events, m, i, r, reader.key, reader.stamp)
  {
    CutsRaiseTheVersion(n, events, i, m, r, reader.key);
  }

  lemma {:induction false} EntryStaysTraced(n: nat, events: seq<Event>, m: nat, next: nat, r: nat, k: Key, stamp: nat)
    requires next == m + 1 <= |events| && r < n
    requires r < |Before(n, events, m).replicas| && Traced(n, events, m, r)
    requires var q := Step(Before(n, events, m), events[m]).replicas;
             r < |q| && k in q[r].entries && q[r].entries[k] == stamp
    ensures exists i :: ReadSince(n, events, next, i, r, k, stamp)
  {
    var s, e := Before(n, events, m), events[m];
    var p := s.replicas[r];
    EntryStep(s, e, r, k);
    if k in p.entries && p.entries[k] == stamp && !Cuts(s, e, r, k) {
      var i :| ReadSince(n, events, m, i, r, k, stamp);
      SinceGrows(n, events, m, next, i, r, k, stamp);
    } else {
      var reader := ReadDone(k, p.version, stamp);
      var i :| ReadUnder(n, events, m, i, r, reader);
      UnderMeansSince(n, events, m, i, r, reader);
      SinceGrows(n, events, m, next, i, r, k, stamp);
    }
  }

  lemma {:induction false} ReaderStaysTraced(n: nat, events: seq<Event>, m: nat, next: nat, r: nat, x: nat, reader: Reader)
    requires next == m + 1 <= |events| && r < n && reader.ReadDone?
    requires r < |Before(n, events, m).replicas| && Traced(n, events, m, r)
    requires ReplicaOk(Before(n, events, m).replicas[r], Before(n, events, m).db, Before(n, events, m).table)
    requires var q := Step(Before(n, events, m), events[m]).replicas;
             r < |q| && x in q[r].readers && q[r].readers[x] == reader
    ensures exists i :: ReadUnder(n, events, next, i, r, reader)
  {
    var s, e := Before(n, events, m), events[m];
    ReaderStep(s, e, r, x);
    if x in s.replicas[r].readers && s.replicas[r].readers[x] == reader {
      var i :| ReadUnder(n, events, m, i, r, reader);
      assert ReadUnder(n, events, next, i, r, reader);
    } else {
      assert ReadUnder(n, events, next, m, r, reader);
    }
  }

  lemma {:induction false} RunIsTraced(n: nat, events: seq<Event>, m: nat, r: nat)
    requires m <= |events| && r < n
    ensures r < |Before(n, events, m).replicas| && Traced(n, events, m, r)
    decreases m
  {
    ReplicasStay(Start(n), events[..m]);
    if m > 0 {
      RunIsTraced(n, events, m - 1, r);
      RunOk(Start(n), events[..m - 1]);
      BeforeNext(n, events, m - 1);
      var p := Before(n, events, m).replicas[r];
      forall k | k in p.entries ensures exists i :: ReadSince(n, events, m, i, r, k, p.entries[k]) {
        EntryStaysTraced(n, events, m - 1, m, r, k, p.entries[k]);
      }
      forall x | x in p.readers && p.readers[x].ReadDone? ensures exists i :: ReadUnder(n, events, m, i, r, p.readers[x]) {
        ReaderStaysTraced(n, events, m - 1, m, r, x, p.readers[x]);
      }
    }
  }

  /** In every run, every cached entry is the row that some reader read from the database after
      the last event that invalidated the key or cleared the cache. */
  lemma {:induction false} EntriesAreReadAfterTheLastCut(n: nat, events: seq<Event>, r: nat, k: Key) returns (i: nat)
    requires r < n && r < |Run(Start(n), events).replicas| && k in Run(Start(n), events).replicas[r].entries
    ensures ReadAt(n, events, i, r, k, Run(Start(n), events).replicas[r].entries[k])
    ensures forall j :: CutAt(n, events, j, r, k) ==> j < i
  {
    assert events[..|events|] == events;
    RunIsTraced(n, events, |events|, r);
    i :| ReadSince(n, events, |events|, i, r, k, Run(Start(n), events).replicas[r].entries[k]);
    assert i >= 0 && !CutAt(n, events, i, r, k);
  }
}
