/** What a commit, an insert and a reader of the cache protocol bring about, and what stays. */
module CacheReaders {
  import opened Common
  import opened CacheProtocol
  import opened CacheRuns

  /** A commit is newer than everything the database, a cache or a reader holds. */
  lemma {:induction false} CommitIsNewer(s: System, k: Key)
    requires Ok(s)
    ensures var t := Step(s, Commit(k));
            && t.replicas == s.replicas && t.table == s.table && t.db.Keys == s.db.Keys + {k}
            && (forall j :: j in s.db ==> s.db[j] < t.db[k] && (j != k ==> t.db[j] == s.db[j]))
            && (forall r, j :: 0 <= r < |s.replicas| && j in s.replicas[r].entries ==> s.replicas[r].entries[j] < t.db[k])
            && (forall r, x :: 0 <= r < |s.replicas| && x in s.replicas[r].readers && s.replicas[r].readers[x].ReadDone? ==>
                  s.replicas[r].readers[x].stamp < t.db[k])
  {
    forall r | 0 <= r < |s.replicas| ensures ReplicaOk(s.replicas[r], s.db, s.table) {}
  }

  /** The event removes, overwrites or evicts key k at replica r. */
  predicate Touches(s: System, e: Event, r: nat, k: Key)
    requires r < |s.replicas|
  {
    var p := s.replicas[r];
    && AtReplica(e) && e.r == r
    && (|| e.Clear? || e.PollHandle? || (e.Invalidate? && e.key == k) || (e.Drop? && e.key == k)
        || (e.Insert? && e.reader in p.readers && (p.readers[e.reader].key == k || e.evicted == Some(k))))
  }

  predicate Untouched(s: System, events: seq<Event>, r: nat, k: Key)
    decreases |events|
  {
    events == [] || (r < |s.replicas| && !Touches(s, events[0], r, k) && Untouched(Step(s, events[0]), events[1..], r, k))
  }

  lemma {:induction false} EntryStaysOneStep(s: System, e: Event, r: nat, k: Key)
    requires r < |s.replicas| && k in s.replicas[r].entries && !Touches(s, e, r, k)
    ensures r < |Step(s, e).replicas| && k in Step(s, e).replicas[r].entries
    ensures Step(s, e).replicas[r].entries[k] == s.replicas[r].entries[k]
  {
  }

  /** A cached entry stays, with its value, over every run that does not touch it. */
  lemma {:induction false} EntryStays(s: System, events: seq<Event>, r: nat, k: Key)
    requires r < |s.replicas| && k in s.replicas[r].entries && Untouched(s, events, r, k)
    ensures var t := Run(s, events);
            r < |t.replicas| && k in t.replicas[r].entries && t.replicas[r].entries[k] == s.replicas[r].entries[k]
    decreases |events|
  {
    if events != [] {
      EntryStaysOneStep(s, events[0], r, k);
      EntryStays(Step(s, events[0]), events[1..], r, k);
    }
  }

  /** A reader that nothing disturbs caches the row the database holds when it reads, and
      every other entry stays. */
  lemma {:induction false} UndisturbedReaderCaches(s: System, r: nat, reader: nat, k: Key)
    requires r < |s.replicas| && k in s.db
    ensures var t := Run(s, [Begin(r, reader, k), ReadDb(r, reader, true), Insert(r, reader, None)]);
            && r < |t.replicas| && t.db == s.db
            && t.replicas[r].entries == s.replicas[r].entries[k := s.db[k]]
            && t.replicas[r].version == s.replicas[r].version
  {
    RunThree(s, Begin(r, reader, k), ReadDb(r, reader, true), Insert(r, reader, None));
  }

  /** A reader during whose read anything was invalidated or cleared leaves the cache alone. */
  lemma {:induction false} DisturbedReaderDoesNot(s: System, r: nat, reader: nat, k: Key, cut: Event)
    requires r < |s.replicas| && k in s.db && (cut == Clear(r) || (cut.Invalidate? && cut.r == r))
    ensures var before := Step(s, cut);
            var t := Run(s, [Begin(r, reader, k), ReadDb(r, reader, true), cut, Insert(r, reader, None)]);
            && r < |t.replicas| && r < |before.replicas|
            && t.replicas[r].entries == before.replicas[r].entries
  {
    RunFour(s, Begin(r, reader, k), ReadDb(r, reader, true), cut, Insert(r, reader, None));
  }
}
