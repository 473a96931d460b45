/** The poller of the version table (app/core/cache/invalidation.py). */
module Invalidation {
  import opened Common

  /** Whether a polled row makes the poller call back. */
  predicate Fires(known: Option<int>, initialized: bool, version: int) {
    if known.Some? then version != known.value else initialized && version > 0
  }

  function Lookup(known: map<string, int>, ns: string): Option<int> {
    if ns in known then Some(known[ns]) else None
  }

  datatype Row = Row(namespace: string, version: int)

  /** Namespaces are the table's primary key. */
  predicate DistinctNamespaces(rows: seq<Row>) {
    forall i, j :: 0 <= i < j < |rows| ==> rows[i].namespace != rows[j].namespace
  }

  function CallAll(ns: string, callbacks: map<string, nat>): seq<(string, nat)> {
    seq(if ns in callbacks then callbacks[ns] else 0, i => (ns, i))
  }

  /** Every callback of the namespace once, in registration order. */
  lemma {:induction false} CallAllMeans(ns: string, callbacks: map<string, nat>, i: nat)
    ensures |CallAll(ns, callbacks)| == if ns in callbacks then callbacks[ns] else 0
    ensures i < |CallAll(ns, callbacks)| ==> CallAll(ns, callbacks)[i] == (ns, i)
  {
  }

  /** The callbacks a successful poll makes, in row order. */
  function Calls(rows: seq<Row>, known: map<string, int>, initialized: bool, callbacks: map<string, nat>)
    : seq<(string, nat)>
  {
    if rows == [] then []
    else
      var last := rows[|rows| - 1];
      Calls(rows[..|rows| - 1], known, initialized, callbacks)
      + if Fires(Lookup(known, last.namespace), initialized, last.version)
        then CallAll(last.namespace, callbacks) else []
  }

  /** What the poller knows after a poll: every polled row, and the rest as before. */
  function Learn(rows: seq<Row>, known: map<string, int>): map<string, int> {
    if rows == [] then known
    else Learn(rows[..|rows| - 1], known)[rows[|rows| - 1].namespace := rows[|rows| - 1].version]
  }

  lemma {:induction false} LearnLookup(rows: seq<Row>, known: map<string, int>, ns: string)
    requires DistinctNamespaces(rows)
    ensures forall row :: row in rows && row.namespace == ns ==> Lookup(Learn(rows, known), ns) == Some(row.version)
    ensures (forall row :: row in rows ==> row.namespace != ns) ==> Lookup(Learn(rows, known), ns) == Lookup(known, ns)
  {
    if rows != [] {
      var init, last := rows[..|rows| - 1], rows[|rows| - 1];
      LearnLookup(init, known, ns);
      assert forall row :: row in rows <==> row in init || row == last;
      assert forall row :: row in init ==> row.namespace != last.namespace;
    }
  }

  /** A callback runs if and only if it is registered for a row whose version changed, or
      which newly appeared after the first poll. */
  lemma {:induction false} CallsExactly(rows: seq<Row>, known: map<string, int>, initialized: bool,
                                        callbacks: map<string, nat>, ns: string, i: nat)
    ensures (ns, i) in Calls(rows, known, initialized, callbacks) <==>
            && ns in callbacks && i < callbacks[ns]
            && exists row :: row in rows && row.namespace == ns &&
                 if ns in known then row.version != known[ns] else initialized && row.version > 0
  {
    if rows != [] {
      var init, last := rows[..|rows| - 1], rows[|rows| - 1];
      CallsExactly(init, known, initialized, callbacks, ns, i);
      assert forall row :: row in rows <==> row in init || row == last;
      var tail := CallAll(last.namespace, callbacks);
      assert (ns, i) in tail <==> ns == last.namespace && ns in callbacks && i < callbacks[ns] by {
        if ns == last.namespace && ns in callbacks && i < callbacks[ns] { assert tail[i] == (ns, i); }
      }
    }
  }

  lemma {:induction false} OneMoreRow(rows: seq<Row>, i: nat, known: map<string, int>, initialized: bool, callbacks: map<string, nat>)
    requires i < |rows| && DistinctNamespaces(rows)
    ensures var done, row := rows[..i], rows[i];
            && Lookup(Learn(done, known), row.namespace) == Lookup(known, row.namespace)
            && Learn(rows[..i + 1], known) == Learn(done, known)[row.namespace := row.version]
            && Calls(rows[..i + 1], known, initialized, callbacks) ==
               Calls(done, known, initialized, callbacks)
               + if Fires(Lookup(known, row.namespace), initialized, row.version)
                 then CallAll(row.namespace, callbacks) else []
  {
    assert rows[..i + 1][..i] == rows[..i];
    LearnLookup(rows[..i], known, rows[i].namespace);
  }

  class Poller {
    var known: map<string, int>
    var callbacks: map<string, nat>            // how many callbacks each namespace has
    var initialized: bool
    var called: seq<(string, nat)>             // callbacks invoked so far

    constructor ()
      ensures known == map[] && callbacks == map[] && !initialized && called == []
    {
      known, callbacks, initialized, called := map[], map[], false, [];
    }

    method OnInvalidation(ns: string)
      modifies this`callbacks
      ensures callbacks == old(callbacks)[ns := (if ns in old(callbacks) then old(callbacks)[ns] else 0) + 1]
    {
      callbacks := callbacks[ns := (if ns in callbacks then callbacks[ns] else 0) + 1];
    }

    /** `_poll_once`; `None` is a read that failed, and leaves everything as it was. */
    method PollOnce(rows: Option<seq<Row>>)
      requires rows.Some? ==> DistinctNamespaces(rows.value)
      modifies this`known, this`initialized, this`called
      ensures rows.None? ==> known == old(known) && initialized == old(initialized) && called == old(called)
      ensures rows.Some? ==>
                && initialized
                && called == old(called) + Calls(rows.value, old(known), old(initialized), callbacks)
                && known == Learn(rows.value, old(known))
    {
      if rows.None? {
        return;
      }
      var rs := rows.value;
      for i := 0 to |rs|
        invariant initialized == old(initialized)
        invariant called == old(called) + Calls(rs[..i], old(known), initialized, callbacks)
        invariant known == Learn(rs[..i], old(known))
      {
        var row := rs[i];
        OneMoreRow(rs, i, old(known), initialized, callbacks);
        if Fires(Lookup(known, row.namespace), initialized, row.version) {
          CallBack(row.namespace);
        }
        known := known[row.namespace := row.version];
      }
      assert rs[..|rs|] == rs;
      initialized := true;
    }

    /** Calls every callback of a namespace; one that raises does not stop the others. */
    method CallBack(ns: string)
      modifies this`called
      ensures called == old(called) + CallAll(ns, callbacks)
    {
      if ns in callbacks {
        for i := 0 to callbacks[ns]
          invariant called == old(called) + seq(i, j => (ns, j))
        {
          called := called + [(ns, i)];
        }
      }
    }
  }
}
