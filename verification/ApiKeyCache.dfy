/** The versioned API-key cache (app/core/auth/api_key_cache.py), and its reader
    `_validate_api_key_token` (app/core/auth/dependencies.py) with whatever other tasks do to
    the cache while the reader waits for the database. */
module ApiKeyCache {
  import opened Common

  datatype Entry<+V> = Entry(data: V, expiresAt: real)

  datatype SetOutcome = Accepted | VersionChanged | NothingToEvict

  /** A cache without an evicted entry and with a stored one. */
  function Stored<V>(cache: map<string, Entry<V>>, evicted: Option<string>, key: string, e: Entry<V>): map<string, Entry<V>> {
    (if evicted.Some? then cache - {evicted.value} else cache)[key := e]
  }

  predicate IsOldest<V>(cache: map<string, Entry<V>>, k: string) {
    k in cache && forall j :: j in cache ==> cache[k].expiresAt <= cache[j].expiresAt
  }

  lemma {:induction false} OldestExists<V>(cache: map<string, Entry<V>>)
    requires cache != map[]
    ensures exists k :: IsOldest(cache, k)
    decreases |cache|
  {
    var k :| k in cache;
    if !IsOldest(cache, k) {
      var rest := cache - {k};
      assert |rest| < |cache| by { assert rest.Keys == cache.Keys - {k}; }
      var j :| j in cache && cache[j].expiresAt < cache[k].expiresAt;
      assert j in rest;
      OldestExists(rest);
      var o :| IsOldest(rest, o);
      forall i | i in cache ensures cache[o].expiresAt <= cache[i].expiresAt {
        assert rest[o].expiresAt <= rest[j].expiresAt;
        assert i != k ==> i in rest;
      }
      assert IsOldest(cache, o);
    }
  }

  class Cache<V> {
    var cache: map<string, Entry<V>>
    var version: nat
    const ttl: real
    const maxEntries: int

    ghost predicate Bounded()
      reads this
    {
      maxEntries >= 1 ==> |cache| <= maxEntries
    }

    constructor (ttl: real, maxEntries: int)
      ensures cache == map[] && version == 0 && this.ttl == ttl && this.maxEntries == maxEntries && Bounded()
    {
      cache, version := map[], 0;
      this.ttl, this.maxEntries := ttl, maxEntries;
    }

    method Get(key: string, now: real) returns (hit: Option<V>)
      ensures hit == if key in cache && now < cache[key].expiresAt then Some(cache[key].data) else None
    {
      if key in cache && now < cache[key].expiresAt {
        return Some(cache[key].data);
      }
      return None;
    }

    method EvictOldest() returns (oldest: string)
      requires cache != map[]
      modifies this`cache
      ensures IsOldest(old(cache), oldest) && cache == old(cache) - {oldest} && |cache| == |old(cache)| - 1
    {
      OldestExists(cache);
      oldest :| IsOldest(cache, oldest);
      assert (cache - {oldest}).Keys == cache.Keys - {oldest};
      cache := cache - {oldest};
    }

    /** A stale guard drops the insert; a full cache loses one oldest entry and nothing else. */
    method Set(key: string, data: V, ifVersion: Option<nat>, now: real)
      returns (outcome: SetOutcome, evicted: Option<string>)
      requires Bounded()
      modifies this`cache
      ensures Bounded()
      ensures outcome.VersionChanged? <==> ifVersion.Some? && ifVersion.value != version
      ensures outcome.NothingToEvict? <==> !outcome.VersionChanged? && maxEntries <= 0 && old(cache) == map[]
      ensures !outcome.Accepted? ==> cache == old(cache)
      ensures evicted.Some? <==> outcome.Accepted? && |old(cache)| >= maxEntries
      ensures evicted.Some? ==> IsOldest(old(cache), evicted.value)
      ensures outcome.Accepted? ==> cache == Stored(old(cache), evicted, key, Entry(data, now + ttl))
      ensures outcome.Accepted? ==>
                && key in cache && cache[key] == Entry(data, now + ttl)
                && forall k :: k != key ==>
                     && (k in cache <==> k in old(cache) && evicted != Some(k))
                     && (k in cache ==> cache[k] == old(cache)[k])
    {
      evicted := None;
      if ifVersion.Some? && ifVersion.value != version {
        return VersionChanged, None;
      }
      if |cache| >= maxEntries {
        if cache == map[] {
          return NothingToEvict, None;
        }
        var oldest := EvictOldest();
        evicted := Some(oldest);
      }
      assert cache[key := Entry(data, now + ttl)].Keys == cache.Keys + {key};
      cache := cache[key := Entry(data, now + ttl)];
      outcome := Accepted;
    }

    method Invalidate(key: string)
      requires Bounded()
      modifies this`cache, this`version
      ensures Bounded() && version == old(version) + 1
      ensures cache == old(cache) - {key}
    {
      var rest := cache - {key};
      assert rest.Keys == cache.Keys - {key};
      cache := rest;
      version := version + 1;
    }

    method Clear()
      modifies this`cache, this`version
      ensures Bounded() && version == old(version) + 1 && cache == map[]
    {
      cache := map[];
      version := version + 1;
    }

    /** One operation of another task. */
    method Perform(op: Operation<V>) returns (evicted: Option<string>)
      requires Bounded()
      modifies this`cache, this`version
      ensures Bounded() && version == old(version) + if op.Store? then 0 else 1
      ensures Effect(old(cache), op, evicted, cache, ttl, maxEntries)
    {
      evicted := None;
      match op
      case Store(key, data, ifVersion, now) => var _, lost := Set(key, data, ifVersion, now); evicted := lost;
      case Remove(key) => Invalidate(key);
      case RemoveAll => Clear();
    }

    /** `evicted` says what each operation evicted.  Every entry afterwards has an origin, and
        every entry that was there, or was stored, is there until an operation touches it. */
    method PerformAll(ops: seq<Operation<V>>) returns (evicted: seq<Option<string>>)
      requires Bounded()
      modifies this`cache, this`version
      ensures Bounded() && version == old(version) + Invalidations(ops) && |evicted| == |ops|
      ensures forall k :: k in cache ==> Explained(old(cache), ops, k, cache[k], ttl)
      ensures OldStay(old(cache), ops, evicted, cache) && NewStay(ops, evicted, cache, ttl, maxEntries)
    {
      evicted := [];
      for i := 0 to |ops|
        invariant Bounded() && version == old(version) + Invalidations(ops[..i]) && |evicted| == i
        invariant forall k :: k in cache ==> Explained(old(cache), ops[..i], k, cache[k], ttl)
        invariant OldStay(old(cache), ops[..i], evicted, cache) && NewStay(ops[..i], evicted, cache, ttl, maxEntries)
      {
        ghost var before := cache;
        var lost := Perform(ops[i]);
        assert ops[..i + 1] == ops[..i] + [ops[i]];
        assert ops[..i + 1][..i] == ops[..i];
        ExplainedNext(old(cache), ops[..i], ops[i], lost, before, cache, ttl, maxEntries);
        OldStayNext(old(cache), ops[..i], evicted, ops[i], lost, before, cache, ttl, maxEntries);
        NewStayNext(ops[..i], evicted, ops[i], lost, before, cache, ttl, maxEntries);
        evicted := evicted + [lost];
      }
      assert ops[..|ops|] == ops;
    }
  }

  datatype Operation<+V> =
    | Store(key: string, data: V, ifVersion: Option<nat>, now: real)
    | Remove(key: string)
    | RemoveAll

  predicate Removes<V>(op: Operation<V>, k: string) { op.RemoveAll? || (op.Remove? && op.key == k) }

  /** The operation removes, overwrites or evicts key k. */
  predicate Touches<V>(op: Operation<V>, evicted: Option<string>, k: string) {
    op.RemoveAll? || op.key == k || evicted == Some(k)
  }

  predicate LeftAlone<V>(ops: seq<Operation<V>>, evicted: seq<Option<string>>, k: string, from: nat)
    requires |ops| == |evicted|
  {
    forall j :: from <= j < |ops| ==> !Touches(ops[j], evicted[j], k)
  }

  /** What one operation does to the cache. */
  ghost predicate Effect<V>(before: map<string, Entry<V>>, op: Operation<V>, lost: Option<string>,
                            after: map<string, Entry<V>>, ttl: real, maxEntries: int) {
    && (forall k :: k in after ==>
          || (k in before && after[k] == before[k] && !Removes(op, k))
          || Stores(op, k, after[k], ttl))
    && (forall k :: k in before && !Touches(op, lost, k) ==> k in after && after[k] == before[k])
    && (op.Store? && op.ifVersion.None? && maxEntries >= 1 ==>
          op.key in after && after[op.key] == Entry(op.data, op.now + ttl))
  }

  /** An entry that was there before is there until an operation touches it. */
  ghost predicate OldStay<V>(before: map<string, Entry<V>>, ops: seq<Operation<V>>, evicted: seq<Option<string>>,
                             after: map<string, Entry<V>>)
    requires |ops| == |evicted|
  {
    forall k :: k in before && LeftAlone(ops, evicted, k, 0) ==> k in after && after[k] == before[k]
  }

  /** What an unguarded operation stored is there until a later one touches it. */
  ghost predicate NewStay<V>(ops: seq<Operation<V>>, evicted: seq<Option<string>>, after: map<string, Entry<V>>,
                             ttl: real, maxEntries: int)
    requires |ops| == |evicted|
  {
    forall j: nat ::
      (j < |ops| && ops[j].Store? && ops[j].ifVersion.None? && maxEntries >= 1 && LeftAlone(ops, evicted, ops[j].key, j + 1)) ==>
      ops[j].key in after && after[ops[j].key] == Entry(ops[j].data, ops[j].now + ttl)
  }

  lemma {:induction false} LeftAloneBefore<V>(ops: seq<Operation<V>>, evicted: seq<Option<string>>, op: Operation<V>,
                                              lost: Option<string>, k: string, from: nat)
    requires from <= |ops| == |evicted| && LeftAlone(ops + [op], evicted + [lost], k, from)
    ensures LeftAlone(ops, evicted, k, from) && !Touches(op, lost, k)
  {
    var next, log := ops + [op], evicted + [lost];
    assert !Touches(next[|ops|], log[|ops|], k);
    forall j | from <= j < |ops| ensures !Touches(ops[j], evicted[j], k) {
      assert !Touches(next[j], log[j], k);
    }
  }

  lemma {:induction false} OldStayNext<V>(
    first: map<string, Entry<V>>, ops: seq<Operation<V>>, evicted: seq<Option<string>>, op: Operation<V>,
    lost: Option<string>, before: map<string, Entry<V>>, after: map<string, Entry<V>>, ttl: real, maxEntries: int)
    requires |ops| == |evicted| && OldStay(first, ops, evicted, before) && Effect(before, op, lost, after, ttl, maxEntries)
    ensures OldStay(first, ops + [op], evicted + [lost], after)
  {
    forall k | k in first && LeftAlone(ops + [op], evicted + [lost], k, 0) ensures k in after && after[k] == first[k] {
      LeftAloneBefore(ops, evicted, op, lost, k, 0);
    }
  }

  lemma {:induction false} NewStayNext<V>(
    ops: seq<Operation<V>>, evicted: seq<Option<string>>, op: Operation<V>, lost: Option<string>,
    before: map<string, Entry<V>>, after: map<string, Entry<V>>, ttl: real, maxEntries: int)
    requires |ops| == |evicted| && NewStay(ops, evicted, before, ttl, maxEntries)
    requires Effect(before, op, lost, after, ttl, maxEntries)
    ensures NewStay(ops + [op], evicted + [lost], after, ttl, maxEntries)
  {
    var next := ops + [op];
    forall j: nat | j < |next| && next[j].Store? && next[j].ifVersion.None? && maxEntries >= 1
                    && LeftAlone(next, evicted + [lost], next[j].key, j + 1)
      ensures next[j].key in after && after[next[j].key] == Entry(next[j].data, next[j].now + ttl)
    {
      if j < |ops| {
        assert next[j] == ops[j];
        LeftAloneBefore(ops, evicted, op, lost, ops[j].key, j + 1);
      }
    }
  }

  ghost predicate Stores<V>(op: Operation<V>, k: string, e: Entry<V>, ttl: real) {
    op.Store? && op.key == k && e == Entry(op.data, op.now + ttl)
  }

  predicate Untouched<V>(ops: seq<Operation<V>>, k: string, from: nat) {
    forall j :: from <= j < |ops| ==> !Removes(ops[j], k)
  }

  /** Why an entry is there after the operations: it was there before and none removed it, or
      one of them stored it and none removed it since. */
  ghost predicate Explained<V>(before: map<string, Entry<V>>, ops: seq<Operation<V>>, k: string, e: Entry<V>, ttl: real) {
    || (k in before && before[k] == e && Untouched(ops, k, 0))
    || exists i: nat :: i < |ops| && Stores(ops[i], k, e, ttl) && Untouched(ops, k, i)
  }

  lemma {:induction false} ExplainedNext<V>(
    first: map<string, Entry<V>>, ops: seq<Operation<V>>, op: Operation<V>, lost: Option<string>,
    before: map<string, Entry<V>>, after: map<string, Entry<V>>, ttl: real, maxEntries: int)
    requires forall k :: k in before ==> Explained(first, ops, k, before[k], ttl)
    requires Effect(before, op, lost, after, ttl, maxEntries)
    ensures forall k :: k in after ==> Explained(first, ops + [op], k, after[k], ttl)
  {
    forall k | k in after ensures Explained(first, ops + [op], k, after[k], ttl) {
      StillExplained(first, ops, op, k, after[k], ttl, k in before && before[k] == after[k]);
    }
  }

  lemma {:induction false} StillExplained<V>(
    first: map<string, Entry<V>>, ops: seq<Operation<V>>, op: Operation<V>, k: string, e: Entry<V>, ttl: real, kept: bool)
    requires kept ==> Explained(first, ops, k, e, ttl)
    requires (kept && !Removes(op, k)) || Stores(op, k, e, ttl)
    ensures Explained(first, ops + [op], k, e, ttl)
  {
    var next := ops + [op];
    if Stores(op, k, e, ttl) {
      assert next[|ops|] == op && Untouched(next, k, |ops|);
    } else if k in first && first[k] == e && Untouched(ops, k, 0) {
      assert Untouched(next, k, 0);
    } else {
      var j: nat :| j < |ops| && Stores(ops[j], k, e, ttl) && Untouched(ops, k, j);
      assert next[j] == ops[j] && Untouched(next, k, j);
    }
  }

  function Invalidations<V>(ops: seq<Operation<V>>): nat {
    if ops == [] then 0
    else Invalidations(ops[..|ops| - 1]) + if ops[|ops| - 1].Store? then 0 else 1
  }

  datatype Validation<+V> = Valid(data: V) | Invalid | CacheError

  /** `row` is what the database answers, `meanwhile` what other tasks do to the cache before
      it does, `later` the time of the insert, and `loaded` the cache just before it.  A row
      is cached if and only if nothing was invalidated meanwhile (a cache without room for a
      single entry fails to evict from nothing). */
  method ValidateToken<V>(cache: Cache<V>, key: string, now: real, expired: V -> bool,
                          meanwhile: seq<Operation<V>>, row: Option<V>, later: real)
    returns (r: Validation<V>, ghost loaded: map<string, Entry<V>>)
    requires cache.Bounded()
    modifies cache
    ensures cache.Bounded()
    ensures key in old(cache.cache) && now < old(cache.cache)[key].expiresAt && !expired(old(cache.cache)[key].data) ==>
              r == Valid(old(cache.cache)[key].data) && cache.cache == old(cache.cache) && cache.version == old(cache.version)
    ensures !(key in old(cache.cache) && now < old(cache.cache)[key].expiresAt && !expired(old(cache.cache)[key].data)) ==>
              && cache.version >= old(cache.version) + Invalidations(meanwhile)
              && if row.None? then r == Invalid && cache.cache == loaded
                 else if Invalidations(meanwhile) > 0 then r == Valid(row.value) && cache.cache == loaded
                 else if cache.maxEntries <= 0 && loaded == map[] then r == CacheError && cache.cache == loaded
                 else r == Valid(row.value) && key in cache.cache && cache.cache[key] == Entry(row.value, later + cache.ttl)
  {
    loaded := cache.cache;
    var cached := cache.Get(key, now);
    if cached.Some? {
      if !expired(cached.value) {
        return Valid(cached.value), loaded;
      }
      cache.Invalidate(key);
    }
    var versionBeforeRead := cache.version;
    var _ := cache.PerformAll(meanwhile);
    loaded := cache.cache;
    if row.None? {
      return Invalid, loaded;
    }
    var outcome, _ := cache.Set(key, row.value, Some(versionBeforeRead), later);
    return if outcome.NothingToEvict? then CacheError else Valid(row.value), loaded;
  }
}
