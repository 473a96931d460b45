/** The conversation archive's writer queue (app/core/conversation_archive.py): any number of
    producers reserve bytes and enqueue records, one writer takes batches, appends them to
    files and releases their bytes.  A write is an append that succeeds or fails per file. */
module Archive {
  import opened Common

  type Path = string

  /** The serialized length plus the newline. */
  type Size = n: int | n >= 1 witness 1

  datatype Record = Record(path: Path, id: nat, size: Size)

  datatype Item = Queued(record: Record) | Stop

  datatype Producer =
    | Idle
    | Waiting(record: Record)     // blocked in the blocking reserve
    | Reserved(record: Record)    // holds its bytes, has not looked at the writer thread yet
    | Ready(record: Record)       // has seen the writer alive, about to put

  datatype Writer =
    | Dead
    | Leaving                     // has left its loop, but the thread is still alive
    | Listening
    | Collecting(batch: seq<Record>, stopping: bool)
    | Finishing(batch: seq<Record>, released: bool, stopping: bool)  // `released`: the head's bytes are

  const MAX_RECORDS := 4096

  datatype State = State(
    limit: int,
    bytes: int,
    producers: seq<Producer>,
    queue: seq<Item>,
    writer: Writer,
    unfinished: int,              // what `Queue.join` waits for
    files: map<Path, seq<Record>>,
    failed: set<Path>,            // files some write to which failed
    enqueued: seq<Record>,        // history: records in put order,
    handled: seq<Record>,         //   those a batch write was attempted for,
    completed: seq<Record>,       //   those marked done,
    puts: nat, dones: nat)        //   and how many puts and task_done calls there were

  datatype Event =
    | Arrive(p: nat, record: Record)
    | Retry(p: nat)
    | Ensure(p: nat)
    | Put(p: nat)
    | Fail(p: nat)
    | PutStop
    | Get
    | Write(ok: set<Path>)
    | Release
    | TaskDone
    | EndBatch
    | Exit

  predicate CanReserve(bytes: int, size: nat, limit: int) {
    bytes + size <= limit || (size > limit && bytes == 0)
  }

  function Released(bytes: int, size: nat): int { if bytes - size > 0 then bytes - size else 0 }

  function OfPath(records: seq<Record>, path: Path): seq<Record> {
    if records == [] then []
    else if records[0].path == path then [records[0]] + OfPath(records[1..], path)
    else OfPath(records[1..], path)
  }

  function Content(files: map<Path, seq<Record>>, path: Path): seq<Record> {
    if path in files then files[path] else []
  }

  function PathsOf(batch: seq<Record>): set<Path> { set r | r in batch :: r.path }

  /** Every file of the batch that can be written gets its own records, in batch order. */
  function Appended(files: map<Path, seq<Record>>, batch: seq<Record>, ok: set<Path>): map<Path, seq<Record>> {
    map path | path in files.Keys + (PathsOf(batch) * ok) ::
      Content(files, path) + if path in ok then OfPath(batch, path) else []
  }

  function Step(s: State, e: Event): State {
    match e
    case Arrive(p, record) =>
      if p < |s.producers| && s.producers[p].Idle? then
        if CanReserve(s.bytes, record.size, s.limit)
        then s.(bytes := s.bytes + record.size, producers := s.producers[p := Reserved(record)])
        else s.(producers := s.producers[p := Waiting(record)])
      else s
    case Retry(p) =>
      if p < |s.producers| && s.producers[p].Waiting? && CanReserve(s.bytes, s.producers[p].record.size, s.limit)
      then s.(bytes := s.bytes + s.producers[p].record.size, producers := s.producers[p := Reserved(s.producers[p].record)])
      else s
    case Ensure(p) =>
      if p < |s.producers| && s.producers[p].Reserved?
      then s.(producers := s.producers[p := Ready(s.producers[p].record)],
              writer := if s.writer.Dead? then Listening else s.writer)
      else s
    case Put(p) =>
      if p < |s.producers| && s.producers[p].Ready? && |s.queue| < MAX_RECORDS then
        var record := s.producers[p].record;
        s.(producers := s.producers[p := Idle], queue := s.queue + [Queued(record)],
           unfinished := s.unfinished + 1, enqueued := s.enqueued + [record], puts := s.puts + 1)
      else s
    case Fail(p) =>
      if p < |s.producers| && (s.producers[p].Reserved? || s.producers[p].Ready?)
      then s.(producers := s.producers[p := Idle], bytes := Released(s.bytes, s.producers[p].record.size))
      else s
    case PutStop =>
      if |s.queue| < MAX_RECORDS
      then s.(queue := s.queue + [Stop], unfinished := s.unfinished + 1, puts := s.puts + 1)
      else s
    case Get =>
      if s.queue == [] then s
      else
        var item, rest := s.queue[0], s.queue[1..];
        if s.writer.Listening? then
          if item.Stop?
          then s.(queue := rest, writer := Leaving, unfinished := s.unfinished - 1, dones := s.dones + 1)
          else s.(queue := rest, writer := Collecting([item.record], false))
        else if s.writer.Collecting? && !s.writer.stopping then
          if item.Stop?
          then s.(queue := rest, writer := Collecting(s.writer.batch, true), unfinished := s.unfinished - 1, dones := s.dones + 1)
          else s.(queue := rest, writer := Collecting(s.writer.batch + [item.record], false))
        else s
    case Write(ok) =>
      if s.writer.Collecting? then
        var batch := s.writer.batch;
        s.(writer := Finishing(batch, false, s.writer.stopping), files := Appended(s.files, batch, ok),
           failed := s.failed + (PathsOf(batch) - ok), handled := s.handled + batch)
      else s
    case Release =>
      if s.writer.Finishing? && s.writer.batch != [] && !s.writer.released
      then s.(writer := Finishing(s.writer.batch, true, s.writer.stopping), bytes := Released(s.bytes, s.writer.batch[0].size))
      else s
    case TaskDone =>
      if s.writer.Finishing? && s.writer.batch != [] && s.writer.released
      then s.(writer := Finishing(s.writer.batch[1..], false, s.writer.stopping),
              unfinished := s.unfinished - 1, completed := s.completed + [s.writer.batch[0]], dones := s.dones + 1)
      else s
    case EndBatch =>
      if s.writer.Finishing? && s.writer.batch == []
      then s.(writer := if s.writer.stopping then Leaving else Listening)
      else s
    case Exit => if s.writer.Leaving? then s.(writer := Dead) else s
  }

  function Run(s: State, events: seq<Event>): State
    decreases |events|
  {
    if events == [] then s else Run(Step(s, events[0]), events[1..])
  }

  function Start(limit: int, producers: nat): State {
    State(limit, 0, seq(producers, _ => Idle), [], Dead, 0, map[], {}, [], [], [], 0, 0)
  }

  // ----- Live reservations -----

  function Holds(p: Producer): seq<Record> {
    if p.Reserved? || p.Ready? then [p.record] else []
  }

  function Holding(ps: seq<Producer>): seq<Record> {
    if ps == [] then [] else Holds(ps[0]) + Holding(ps[1..])
  }

  function Bytes(rs: seq<Record>): nat { if rs == [] then 0 else rs[0].size + Bytes(rs[1..]) }

  function Records(items: seq<Item>): seq<Record> {
    if items == [] then []
    else if items[0].Stop? then Records(items[1..])
    else [items[0].record] + Records(items[1..])
  }

  function InHand(w: Writer): seq<Record> {
    if w.Collecting? then w.batch
    else if w.Finishing? then (if w.released && w.batch != [] then w.batch[1..] else w.batch)
    else []
  }

  /** The records whose bytes are reserved: by producers, in the writer's hand, in the queue. */
  function Live(s: State): seq<Record> { Holding(s.producers) + InHand(s.writer) + Records(s.queue) }

  lemma {:induction false} HoldingAt(ps: seq<Producer>, i: nat)
    requires i < |ps|
    ensures Holding(ps) == Holding(ps[..i]) + Holds(ps[i]) + Holding(ps[i + 1..])
  {
    if i > 0 {
      HoldingAt(ps[1..], i - 1);
      assert ps[1..][..i - 1] == ps[..i][1..] && ps[1..][i..] == ps[i + 1..];
    }
  }

  /** Changing one producer changes only what that producer holds. */
  lemma {:induction false} HoldingMoves(ps: seq<Producer>, i: nat, p: Producer)
    requires i < |ps|
    ensures Bytes(Holding(ps[i := p])) == Bytes(Holding(ps)) - Bytes(Holds(ps[i])) + Bytes(Holds(p))
    ensures |Holding(ps[i := p])| == |Holding(ps)| - |Holds(ps[i])| + |Holds(p)|
  {
    var a, b := Holding(ps[..i]), Holding(ps[i + 1..]);
    HoldingAt(ps, i);
    HoldingAt(ps[i := p], i);
    assert ps[i := p][..i] == ps[..i] && ps[i := p][i + 1..] == ps[i + 1..];
    BytesAppend(a + Holds(ps[i]), b);
    BytesAppend(a, Holds(ps[i]));
    BytesAppend(a + Holds(p), b);
    BytesAppend(a, Holds(p));
  }

  lemma {:induction false} LiveBytes(s: State)
    ensures Bytes(Live(s)) == Bytes(Holding(s.producers)) + Bytes(InHand(s.writer)) + Bytes(Records(s.queue))
    ensures Bytes(Live(s)) >= |Live(s)|
  {
    BytesAppend(Holding(s.producers) + InHand(s.writer), Records(s.queue));
    BytesAppend(Holding(s.producers), InHand(s.writer));
    BytesPositive(Live(s));
  }

  lemma {:induction false} BytesAppend(a: seq<Record>, b: seq<Record>)
    ensures Bytes(a + b) == Bytes(a) + Bytes(b)
  {
    if a == [] {
      assert a + b == b;
    } else {
      BytesAppend(a[1..], b);
      assert (a + b)[0] == a[0] && (a + b)[1..] == a[1..] + b;
    }
  }

  lemma {:induction false} ItemsAppend(a: seq<Item>, b: seq<Item>)
    ensures Records(a + b) == Records(a) + Records(b)
  {
    if a == [] {
      assert a + b == b && Records(a) + Records(b) == Records(b);
    } else {
      assert (a + b)[0] == a[0] && (a + b)[1..] == a[1..] + b;
      ItemsAppend(a[1..], b);
      if a[0].Queued? {
        var head := [a[0].record];
        assert head + (Records(a[1..]) + Records(b)) == (head + Records(a[1..])) + Records(b);
      }
    }
  }

  lemma {:induction false} BytesPositive(rs: seq<Record>)
    ensures Bytes(rs) >= |rs|
  {
    if rs != [] { BytesPositive(rs[1..]); }
  }

  // ----- The byte budget -----

  /** The counter is exactly the live reservations' bytes, within the limit unless a single
      oversize record is alone in flight. */
  predicate Budgeted(s: State) {
    && s.limit >= 1
    && s.bytes == Bytes(Live(s))
    && (s.bytes <= s.limit || |Live(s)| == 1)
  }

  lemma {:induction false} QueueGains(queue: seq<Item>, record: Record)
    ensures Bytes(Records(queue + [Queued(record)])) == Bytes(Records(queue)) + record.size
    ensures |Records(queue + [Queued(record)])| == |Records(queue)| + 1
  {
    ItemsAppend(queue, [Queued(record)]);
    OneQueued(record);
    BytesAppend(Records(queue), [record]);
  }

  lemma {:induction false} ProducerGives(ps: seq<Producer>, p: nat)
    requires p < |ps| && ps[p].Ready?
    ensures Bytes(Holding(ps[p := Idle])) == Bytes(Holding(ps)) - ps[p].record.size
    ensures |Holding(ps[p := Idle])| == |Holding(ps)| - 1
  {
    HoldingMoves(ps, p, Idle);
    OneQueued(ps[p].record);
  }

  lemma {:induction false} PutKeepsLive(s: State, p: nat, t: State)
    requires p < |s.producers| && s.producers[p].Ready? && t.producers == s.producers[p := Idle]
    requires t.queue == s.queue + [Queued(s.producers[p].record)] && t.writer == s.writer
    ensures Bytes(Live(t)) == Bytes(Live(s)) && |Live(t)| == |Live(s)|
  {
    ProducerGives(s.producers, p);
    QueueGains(s.queue, s.producers[p].record);
    LiveBytes(s);
    LiveBytes(t);
  }

  lemma {:induction false} GetKeepsLive(s: State)
    ensures Live(Step(s, Get)) == Live(s)
  {
    if s.queue != [] && s.queue[0].Queued? {
      assert Records(s.queue) == [s.queue[0].record] + Records(s.queue[1..]);
    }
  }

  lemma {:induction false} StopKeepsLive(s: State)
    ensures Live(Step(s, PutStop)) == Live(s)
  {
    ItemsAppend(s.queue, [Stop]);
    assert Records([Stop]) == [];
  }

  function HeldBytes(p: Producer): nat { if p.Reserved? || p.Ready? then p.record.size else 0 }

  lemma {:induction false} LiveMoves(s: State, p: nat, next: Producer, t: State)
    requires p < |s.producers| && t.producers == s.producers[p := next] && t.queue == s.queue
    requires InHand(t.writer) == InHand(s.writer)
    ensures Bytes(Live(t)) == Bytes(Live(s)) - HeldBytes(s.producers[p]) + HeldBytes(next)
    ensures |Live(t)| == |Live(s)| - |Holds(s.producers[p])| + |Holds(next)|
    ensures Bytes(Live(s)) >= |Live(s)| && (Live(t) == [] ==> Bytes(Live(t)) == 0)
  {
    LiveBytes(s);
    LiveBytes(t);
    HoldingMoves(s.producers, p, next);
    HeldExactly(next);
    HeldExactly(s.producers[p]);
  }

  lemma {:induction false} HeldExactly(p: Producer)
    ensures Bytes(Holds(p)) == HeldBytes(p) && |Holds(p)| <= 1
  {
    if p.Reserved? || p.Ready? { OneQueued(p.record); }
  }

  /** A reservation that was allowed, or one given back, keeps the budget. */
  lemma {:induction false} ReserveBudgeted(s: State, p: nat, record: Record)
    requires Budgeted(s) && p < |s.producers| && Holds(s.producers[p]) == []
    requires CanReserve(s.bytes, record.size, s.limit)
    ensures Budgeted(s.(bytes := s.bytes + record.size, producers := s.producers[p := Reserved(record)]))
  {
    LiveMoves(s, p, Reserved(record), s.(bytes := s.bytes + record.size, producers := s.producers[p := Reserved(record)]));
  }

  lemma {:induction false} FailBudgeted(s: State, p: nat)
    requires Budgeted(s) && p < |s.producers| && Holds(s.producers[p]) != []
    ensures Budgeted(Step(s, Fail(p)))
  {
    LiveMoves(s, p, Idle, Step(s, Fail(p)));
  }

  lemma {:induction false} EnsureBudgeted(s: State, p: nat)
    requires Budgeted(s) && p < |s.producers| && s.producers[p].Reserved?
    ensures Budgeted(Step(s, Ensure(p)))
  {
    LiveMoves(s, p, Ready(s.producers[p].record), Step(s, Ensure(p)));
  }

  lemma {:induction false} WaitBudgeted(s: State, p: nat, record: Record)
    requires Budgeted(s) && p < |s.producers| && s.producers[p].Idle?
    ensures Budgeted(s.(producers := s.producers[p := Waiting(record)]))
  {
    LiveMoves(s, p, Waiting(record), s.(producers := s.producers[p := Waiting(record)]));
  }

  lemma {:induction false} ReleaseBudgeted(s: State)
    requires Budgeted(s)
    ensures Budgeted(Step(s, Release))
  {
    LiveBytes(s);
    LiveBytes(Step(s, Release));
  }

  lemma {:induction false} PutBudgeted(s: State, p: nat)
    requires Budgeted(s)
    ensures Budgeted(Step(s, Put(p)))
  {
    if p < |s.producers| && s.producers[p].Ready? && |s.queue| < MAX_RECORDS { PutKeepsLive(s, p, Step(s, Put(p))); }
  }

  lemma {:induction false} BatchBudgeted(s: State, e: Event)
    requires Budgeted(s) && (e.Write? || e.TaskDone? || e.EndBatch? || e.Exit?)
    ensures Budgeted(Step(s, e))
  {
    assert InHand(Step(s, e).writer) == InHand(s.writer);
  }

  lemma {:induction false} StepBudgeted(s: State, e: Event)
    requires Budgeted(s)
    ensures Budgeted(Step(s, e))
  {
    match e
    case Arrive(p, record) =>
      if p < |s.producers| && s.producers[p].Idle? {
        WaitBudgeted(s, p, record);
        if CanReserve(s.bytes, record.size, s.limit) { ReserveBudgeted(s, p, record); }
      }
    case Retry(p) => if Step(s, e) != s { ReserveBudgeted(s, p, s.producers[p].record); }
    case Ensure(p) => if Step(s, e) != s { EnsureBudgeted(s, p); }
    case Fail(p) => if Step(s, e) != s { FailBudgeted(s, p); }
    case Put(p) => PutBudgeted(s, p);
    case Get => GetKeepsLive(s);
    case PutStop => StopKeepsLive(s);
    case Release => ReleaseBudgeted(s);
    case _ => BatchBudgeted(s, e);
  }

  lemma {:induction false} RunBudgeted(s: State, events: seq<Event>)
    requires Budgeted(s)
    ensures Budgeted(Run(s, events))
    decreases |events|
  {
    if events != [] {
      StepBudgeted(s, events[0]);
      RunBudgeted(Step(s, events[0]), events[1..]);
    }
  }

  lemma {:induction false} IdleHoldNothing(ps: seq<Producer>)
    requires forall i :: 0 <= i < |ps| ==> ps[i].Idle?
    ensures Holding(ps) == []
  {
    if ps != [] { IdleHoldNothing(ps[1..]); }
  }

  lemma {:induction false} BytesMember(rs: seq<Record>, r: Record)
    requires r in rs
    ensures Bytes(rs) >= r.size
  {
    if rs[0] != r { BytesMember(rs[1..], r); }
  }

  /** What a release takes off the counter is there: the clamp at zero never acts. */
  lemma {:induction false} ClampNeverActs(s: State, r: Record)
    requires Budgeted(s) && r in Live(s)
    ensures Released(s.bytes, r.size) == s.bytes - r.size
  {
    BytesMember(Live(s), r);
  }

  /** A producer that cannot reserve waits for somebody else's live reservation, and once
      those are gone it can reserve, whatever its size. */
  lemma {:induction false} BlockedByOthers(s: State, size: Size)
    requires Budgeted(s)
    ensures !CanReserve(s.bytes, size, s.limit) ==> Live(s) != []
    ensures Live(s) == [] ==> CanReserve(s.bytes, size, s.limit)
  {
  }

  /** A producer gets its reservation exactly if its record fits beside the live ones, or there
      are none; otherwise it waits, and the counter stays. */
  lemma {:induction false} ReservesExactly(s: State, p: nat, record: Record)
    requires Budgeted(s) && p < |s.producers| && (s.producers[p].Idle? || s.producers[p] == Waiting(record))
    ensures var t := Step(s, if s.producers[p].Idle? then Arrive(p, record) else Retry(p));
            if Live(s) == [] || Bytes(Live(s)) + record.size <= s.limit
            then t == s.(bytes := Bytes(Live(s)) + record.size, producers := s.producers[p := Reserved(record)])
            else t == s.(producers := s.producers[p := Waiting(record)])
  {
    FitsExactly(s, record.size);
    if s.producers[p].Waiting? { assert s.producers[p := Waiting(record)] == s.producers; }
  }

  lemma {:induction false} FitsExactly(s: State, size: Size)
    requires Budgeted(s)
    ensures CanReserve(s.bytes, size, s.limit) <==> Live(s) == [] || Bytes(Live(s)) + size <= s.limit
  {
    BytesPositive(Live(s));
  }

  /** An enqueue that fits and finds room, step by step: the record is at the end of the queue,
      its bytes are counted, and a writer is there. */
  lemma {:induction false} EnqueueRun(s: State, p: nat, record: Record)
    requires Budgeted(s) && p < |s.producers| && s.producers[p].Idle? && |s.queue| < MAX_RECORDS
    requires Live(s) == [] || Bytes(Live(s)) + record.size <= s.limit
    ensures Run(s, [Arrive(p, record), Ensure(p), Put(p)]) ==
            s.(bytes := s.bytes + record.size, queue := s.queue + [Queued(record)], unfinished := s.unfinished + 1,
               enqueued := s.enqueued + [record], puts := s.puts + 1,
               writer := if s.writer.Dead? then Listening else s.writer)
  {
    ReservesExactly(s, p, record);
    RunThree(s, Arrive(p, record), Ensure(p), Put(p));
    assert s.producers[p := Reserved(record)][p := Ready(record)][p := Idle] == s.producers;
  }

  /** A failed enqueue leaves everything but the writer as it was. */
  lemma {:induction false} FailedEnqueueRun(s: State, p: nat, record: Record)
    requires Budgeted(s) && p < |s.producers| && s.producers[p].Idle?
    requires Live(s) == [] || Bytes(Live(s)) + record.size <= s.limit
    ensures Run(s, [Arrive(p, record), Ensure(p), Fail(p)]) == s.(writer := if s.writer.Dead? then Listening else s.writer)
  {
    ReservesExactly(s, p, record);
    RunThree(s, Arrive(p, record), Ensure(p), Fail(p));
    assert s.producers[p := Reserved(record)][p := Ready(record)][p := Idle] == s.producers;
    LiveBytes(s);
  }

  lemma {:induction false} RunThree(s: State, e: Event, f: Event, g: Event)
    ensures Run(s, [e, f, g]) == Step(Step(Step(s, e), f), g)
  {
    assert [e, f, g][1..] == [f, g] && [f, g][1..] == [g] && [g][1..] == [];
    assert Run(Step(Step(s, e), f), [g]) == Step(Step(Step(s, e), f), g);
  }

  // ----- Order and accounting -----

  function Batch(w: Writer): seq<Record> { if w.Collecting? || w.Finishing? then w.batch else [] }

  predicate Accounted(s: State) {
    && s.unfinished == |s.queue| + |Batch(s.writer)| == s.puts - s.dones
    && s.enqueued == s.handled + (if s.writer.Collecting? then s.writer.batch else []) + Records(s.queue)
    && s.handled == s.completed + (if s.writer.Finishing? then s.writer.batch else [])
  }

  lemma {:induction false} PutAccounted(s: State, item: Item, t: State)
    requires Accounted(s)
    requires t.queue == s.queue + [item] && t.unfinished == s.unfinished + 1 && t.puts == s.puts + 1
    requires t.writer == s.writer && t.dones == s.dones && t.handled == s.handled && t.completed == s.completed
    requires t.enqueued == s.enqueued + Records([item])
    ensures Accounted(t)
  {
    ItemsAppend(s.queue, [item]);
  }

  lemma {:induction false} GetAccounted(s: State)
    requires Accounted(s)
    ensures Accounted(Step(s, Get))
  {
    if s.queue != [] && s.queue[0].Queued? {
      var record, rest := s.queue[0].record, Records(s.queue[1..]);
      assert Records(s.queue) == [record] + rest;
      if s.writer.Collecting? {
        assert s.handled + s.writer.batch + ([record] + rest) == s.handled + (s.writer.batch + [record]) + rest;
      } else {
        assert s.handled + [] + ([record] + rest) == s.handled + [record] + rest;
      }
    }
  }

  lemma {:induction false} BatchAccounted(s: State, e: Event)
    requires Accounted(s) && (e.Write? || e.TaskDone?)
    ensures Accounted(Step(s, e))
  {
    if e.TaskDone? && s.writer.Finishing? && s.writer.batch != [] {
      assert s.completed + s.writer.batch == s.completed + [s.writer.batch[0]] + s.writer.batch[1..];
    }
  }

  lemma {:induction false} StepAccounted(s: State, e: Event)
    requires Accounted(s)
    ensures Accounted(Step(s, e))
  {
    match e
    case Put(p) =>
      if Step(s, e) != s {
        assert Records([Queued(s.producers[p].record)]) == [s.producers[p].record];
        PutAccounted(s, Queued(s.producers[p].record), Step(s, e));
      }
    case PutStop =>
      if Step(s, e) != s {
        assert s.enqueued + Records([Stop]) == s.enqueued;
        PutAccounted(s, Stop, Step(s, e));
      }
    case Get => GetAccounted(s);
    case Write(_) => BatchAccounted(s, e);
    case TaskDone => BatchAccounted(s, e);
    case _ =>
  }

  /** `files` holds what was written: for a file no write to which failed, every handled
      record of that file in order; for any other, a subsequence of them. */
  predicate Subsequence(a: seq<Record>, b: seq<Record>) {
    a == [] || (b != [] && (Subsequence(a, b[..|b| - 1])
      || (a[|a| - 1] == b[|b| - 1] && Subsequence(a[..|a| - 1], b[..|b| - 1]))))
  }

  ghost predicate FilesOk(s: State) {
    forall path ::
      && Subsequence(Content(s.files, path), OfPath(s.handled, path))
      && (path !in s.failed ==> Content(s.files, path) == OfPath(s.handled, path))
  }

  /** A subsequence is picked out by positions that go up. */
  lemma {:induction false} SubsequenceMeans(a: seq<Record>, b: seq<Record>) returns (at: seq<nat>)
    requires Subsequence(a, b)
    ensures |at| == |a| && forall i :: 0 <= i < |a| ==> at[i] < |b| && b[at[i]] == a[i]
    ensures forall i, j :: 0 <= i < j < |a| ==> at[i] < at[j]
  {
    if a == [] {
      at := [];
    } else if Subsequence(a, b[..|b| - 1]) {
      at := SubsequenceMeans(a, b[..|b| - 1]);
    } else {
      at := SubsequenceMeans(a[..|a| - 1], b[..|b| - 1]);
      at := at + [|b| - 1];
    }
  }

  lemma {:induction false} SubsequenceGrows(a: seq<Record>, b: seq<Record>, c: seq<Record>)
    requires Subsequence(a, b)
    ensures Subsequence(a, b + c) && Subsequence(a + c, b + c)
    decreases |c|
  {
    if c == [] {
      assert a + c == a && b + c == b;
    } else {
      var n := |c| - 1;
      SubsequenceGrows(a, b, c[..n]);
      assert (b + c)[..|b + c| - 1] == b + c[..n];
      assert (a + c)[..|a + c| - 1] == a + c[..n];
    }
  }

  lemma {:induction false} OfPathConcat(a: seq<Record>, b: seq<Record>, path: Path)
    ensures OfPath(a + b, path) == OfPath(a, path) + OfPath(b, path)
  {
    if a == [] {
      assert a + b == b;
    } else {
      OfPathConcat(a[1..], b, path);
      assert (a + b)[0] == a[0] && (a + b)[1..] == a[1..] + b;
    }
  }

  lemma {:induction false} OfPathNone(batch: seq<Record>, path: Path)
    requires path !in PathsOf(batch)
    ensures OfPath(batch, path) == []
  {
    if batch != [] {
      assert batch[0].path in PathsOf(batch);
      assert forall r :: r in batch[1..] ==> r in batch;
      OfPathNone(batch[1..], path);
    }
  }

  lemma {:induction false} AppendedContent(files: map<Path, seq<Record>>, batch: seq<Record>, ok: set<Path>, path: Path)
    ensures Content(Appended(files, batch, ok), path) ==
            Content(files, path) + if path in ok then OfPath(batch, path) else []
    ensures path !in PathsOf(batch) ==> OfPath(batch, path) == []
  {
    if path !in PathsOf(batch) { OfPathNone(batch, path); }
  }

  lemma {:induction false} WriteFilesOk(s: State, ok: set<Path>, path: Path)
    requires FilesOk(s) && s.writer.Collecting?
    ensures var t := Step(s, Write(ok));
            && Subsequence(Content(t.files, path), OfPath(t.handled, path))
            && (path !in t.failed ==> Content(t.files, path) == OfPath(t.handled, path))
  {
    var old', more := Content(s.files, path), OfPath(s.writer.batch, path);
    OfPathConcat(s.handled, s.writer.batch, path);
    SubsequenceGrows(old', OfPath(s.handled, path), more);
    AppendedContent(s.files, s.writer.batch, ok, path);
    assert old' + [] == old';
  }

  lemma {:induction false} StepFilesOk(s: State, e: Event)
    requires FilesOk(s)
    ensures FilesOk(Step(s, e))
  {
    if e.Write? && s.writer.Collecting? {
      forall path
        ensures Subsequence(Content(Step(s, e).files, path), OfPath(Step(s, e).handled, path))
        ensures path !in Step(s, e).failed ==> Content(Step(s, e).files, path) == OfPath(Step(s, e).handled, path)
      {
        WriteFilesOk(s, e.ok, path);
      }
    }
  }

  lemma {:induction false} RunAccounted(s: State, events: seq<Event>)
    requires Accounted(s) && FilesOk(s)
    ensures Accounted(Run(s, events)) && FilesOk(Run(s, events))
    decreases |events|
  {
    if events != [] {
      StepAccounted(s, events[0]);
      StepFilesOk(s, events[0]);
      RunAccounted(Step(s, events[0]), events[1..]);
    }
  }

  // ----- Runs from the start -----

  ghost predicate Reachable(s: State) {
    exists limit, producers, events :: limit >= 1 && s == Run(Start(limit, producers), events)
  }

  lemma {:induction false} ReachableOk(s: State)
    requires Reachable(s)
    ensures Budgeted(s) && Accounted(s) && FilesOk(s)
  {
    var limit, producers, events :| limit >= 1 && s == Run(Start(limit, producers), events);
    IdleHoldNothing(Start(limit, producers).producers);
    RunBudgeted(Start(limit, producers), events);
    RunAccounted(Start(limit, producers), events);
  }

  /** When `flush_archive_writer` returns, every record put so far has been handled and marked
      done exactly once, in put order, and every file no write to which failed holds exactly
      its own records in put order. */
  lemma {:induction false} FlushMeansProcessed(s: State, path: Path)
    requires Reachable(s) && s.unfinished == 0
    ensures s.completed == s.enqueued && s.dones == s.puts
    ensures path !in s.failed ==> Content(s.files, path) == OfPath(s.enqueued, path)
  {
    ReachableOk(s);
    assert s.queue == [] && Batch(s.writer) == [];
    assert s.enqueued == s.handled == s.completed;
  }

  /** What was put before stays a prefix of what has been put: a flush covers it. */
  lemma {:induction false} PutsOnlyGrow(s: State, events: seq<Event>)
    ensures s.enqueued <= Run(s, events).enqueued
    decreases |events|
  {
    if events != [] { PutsOnlyGrow(Step(s, events[0]), events[1..]); }
  }

  // ----- Progress -----

  /** The steps of the producers in flight and of the writer. */
  predicate Internal(e: Event) { e.Ensure? || e.Put? || e.Get? || e.Write? || e.Release? || e.TaskDone? || e.EndBatch? || e.Exit? }

  predicate AllInternal(events: seq<Event>) { forall i :: 0 <= i < |events| ==> Internal(events[i]) }

  ghost predicate AtRest(s: State) { forall e :: Internal(e) ==> Step(s, e) == s }

  function ReservedBy(s: State): set<nat> { set p | 0 <= p < |s.producers| && s.producers[p].Reserved? }

  function ReadyBy(s: State): set<nat> { set p | 0 <= p < |s.producers| && s.producers[p].Ready? }

  predicate Stopping(w: Writer) { w.Leaving? || ((w.Collecting? || w.Finishing?) && w.stopping) }

  predicate StopPending(s: State) { Stopping(s.writer) || Stop in s.queue }

  function AfterStop(items: seq<Item>): seq<Record> {
    if items == [] then [] else if items[0].Stop? then Records(items[1..]) else AfterStop(items[1..])
  }

  /** The queued records that the writer will not reach before it ends. */
  function Behind(s: State): seq<Record> {
    if s.writer.Dead? || Stopping(s.writer) then Records(s.queue) else AfterStop(s.queue)
  }

  /** No stop is on its way and somebody keeps the writer alive, or nothing is in flight
      behind the point where it ends. */
  predicate Drainable(s: State) {
    || (!StopPending(s) && (!s.writer.Dead? || ReservedBy(s) != {}))
    || (ReservedBy(s) == {} && ReadyBy(s) == {} && Behind(s) == [])
  }

  lemma {:induction false} NobodyHolds(ps: seq<Producer>)
    ensures Holding(ps) == [] <==> forall p :: 0 <= p < |ps| ==> !ps[p].Reserved? && !ps[p].Ready?
  {
    if ps != [] {
      NobodyHolds(ps[1..]);
      assert forall p :: 0 < p < |ps| ==> ps[p] == ps[1..][p - 1];
    }
  }

  lemma {:induction false} AfterStopAppend(items: seq<Item>, item: Item)
    ensures AfterStop(items + [item]) ==
            if Stop in items then AfterStop(items) + Records([item]) else []
  {
    if items == [] {
      assert [] + [item] == [item] && [item][1..] == [];
    } else {
      assert (items + [item])[0] == items[0] && (items + [item])[1..] == items[1..] + [item];
      if items[0].Stop? { ItemsAppend(items[1..], [item]); } else { AfterStopAppend(items[1..], item); }
    }
  }

  lemma {:induction false} EnsureKeepsDrainable(s: State, p: nat)
    requires Drainable(s) && Step(s, Ensure(p)) != s
    ensures Drainable(Step(s, Ensure(p)))
  {
    assert p in ReservedBy(s);
  }

  lemma {:induction false} PutKeepsDrainable(s: State, p: nat)
    requires Drainable(s) && Step(s, Put(p)) != s
    ensures Drainable(Step(s, Put(p)))
  {
    assert p in ReadyBy(s);
    assert ReservedBy(Step(s, Put(p))) == ReservedBy(s);
  }

  lemma {:induction false} StepKeepsDrainable(s: State, e: Event)
    requires Drainable(s) && Internal(e)
    ensures Drainable(Step(s, e))
  {
    if Step(s, e) != s {
      match e
      case Ensure(p) => EnsureKeepsDrainable(s, p);
      case Put(p) => PutKeepsDrainable(s, p);
      case Get =>
      case _ =>
    }
  }

  /** At rest, everything is drained exactly in the drainable states. */
  lemma {:induction false} RestDecides(s: State)
    requires AtRest(s)
    ensures Live(s) == [] <==> Drainable(s)
  {
    RestingWriter(s);
    NobodyHolds(s.producers);
    assert forall p :: p in ReadyBy(s) ==> s.producers[p].Ready?;
    assert forall p :: 0 <= p < |s.producers| && s.producers[p].Ready? ==> p in ReadyBy(s);
    assert forall p :: 0 <= p < |s.producers| && s.producers[p].Reserved? ==> p in ReservedBy(s);
  }

  lemma {:induction false} RestingWriter(s: State)
    requires AtRest(s)
    ensures ReservedBy(s) == {}
    ensures s.writer.Dead? || (s.writer.Listening? && s.queue == [] && ReadyBy(s) == {})
  {
    assert Step(s, Write({})) == s && Step(s, Release) == s && Step(s, TaskDone) == s && Step(s, EndBatch) == s;
    assert Step(s, Get) == s && Step(s, Exit) == s;
    forall p: nat | p < |s.producers|
      ensures !s.producers[p].Reserved? && (s.writer.Listening? ==> !s.producers[p].Ready?)
    {
      var ensured, put := Step(s, Ensure(p)), Step(s, Put(p));
      assert ensured.producers[p] == s.producers[p] && put.producers[p] == s.producers[p];
    }
  }

  // Every step that does something uses up work, so every run comes to rest.

  function ProducerWork(p: Producer): nat { if p.Reserved? then 9 else if p.Ready? then 8 else 0 }

  function ProducersWork(ps: seq<Producer>): nat {
    if ps == [] then 0 else ProducerWork(ps[0]) + ProducersWork(ps[1..])
  }

  function QueueWork(items: seq<Item>): nat {
    if items == [] then 0 else (if items[0].Stop? then 2 else 7) + QueueWork(items[1..])
  }

  function WriterWork(w: Writer): nat {
    match w
    case Collecting(batch, _) => 3 * |batch| + 3
    case Finishing(batch, released, _) => 2 * |batch| + (if released && batch != [] then 1 else 2)
    case Leaving => 1
    case _ => 0
  }

  function Work(s: State): nat { ProducersWork(s.producers) + QueueWork(s.queue) + WriterWork(s.writer) }

  lemma {:induction false} ProducersWorkMoves(ps: seq<Producer>, i: nat, p: Producer)
    requires i < |ps|
    ensures ProducersWork(ps[i := p]) == ProducersWork(ps) - ProducerWork(ps[i]) + ProducerWork(p)
  {
    if i == 0 {
      assert ps[i := p][1..] == ps[1..];
    } else {
      assert ps[i := p][1..] == ps[1..][i - 1 := p];
      ProducersWorkMoves(ps[1..], i - 1, p);
    }
  }

  lemma {:induction false} QueueWorkAppend(items: seq<Item>, item: Item)
    ensures QueueWork(items + [item]) == QueueWork(items) + if item.Stop? then 2 else 7
  {
    if items == [] {
      assert [] + [item] == [item] && [item][1..] == [];
    } else {
      assert (items + [item])[0] == items[0] && (items + [item])[1..] == items[1..] + [item];
      QueueWorkAppend(items[1..], item);
    }
  }

  lemma {:induction false} WorkFalls(s: State, e: Event)
    requires Internal(e) && Step(s, e) != s
    ensures Work(Step(s, e)) < Work(s)
  {
    match e
    case Ensure(p) => ProducersWorkMoves(s.producers, p, Ready(s.producers[p].record));
    case Put(p) =>
      ProducersWorkMoves(s.producers, p, Idle);
      QueueWorkAppend(s.queue, Queued(s.producers[p].record));
    case _ =>
  }

  ghost predicate Effective(s: State, events: seq<Event>)
    decreases |events|
  {
    events == [] || (Internal(events[0]) && Step(s, events[0]) != s && Effective(Step(s, events[0]), events[1..]))
  }

  /** No run of effective steps is longer than the work there is. */
  lemma {:induction false} RunsAreBounded(s: State, events: seq<Event>)
    requires Effective(s, events)
    ensures |events| <= Work(s) - Work(Run(s, events))
    decreases |events|
  {
    if events != [] {
      WorkFalls(s, events[0]);
      RunsAreBounded(Step(s, events[0]), events[1..]);
    }
  }

  lemma {:induction false} RunKeepsDrainable(s: State, events: seq<Event>)
    requires Drainable(s) && AllInternal(events)
    ensures Drainable(Run(s, events))
    decreases |events|
  {
    if events != [] {
      StepKeepsDrainable(s, events[0]);
      RunKeepsDrainable(Step(s, events[0]), events[1..]);
    }
  }

  /** From any other state the producers and the writer can go on without ever coming back
      to a drainable one. */
  lemma {:induction false} StayStranded(s: State) returns (e: Event)
    requires !Drainable(s) && !AtRest(s)
    ensures Internal(e) && Step(s, e) != s && !Drainable(Step(s, e))
  {
    if ReservedBy(s) != {} {
      var p :| p in ReservedBy(s);
      e := Ensure(p);
      assert p in ReadyBy(Step(s, e));
    } else if ReadyBy(s) != {} && |s.queue| < MAX_RECORDS {
      var p :| p in ReadyBy(s);
      e := Put(p);
      PutStrands(s, p);
    } else {
      DeadWriterRests(s);
      e := WriterStrands(s);
    }
  }

  lemma {:induction false} PutStrands(s: State, p: nat)
    requires !Drainable(s) && ReservedBy(s) == {} && p in ReadyBy(s) && |s.queue| < MAX_RECORDS
    ensures !Drainable(Step(s, Put(p)))
  {
    var t, item := Step(s, Put(p)), Queued(s.producers[p].record);
    OneQueued(item.record);
    ItemsAppend(s.queue, [item]);
    AfterStopAppend(s.queue, item);
    assert ReservedBy(t) == {};
    assert t.queue == s.queue + [item];
    assert Stop in s.queue ==> Stop in t.queue;
  }

  lemma {:induction false} DeadWriterRests(s: State)
    requires ReservedBy(s) == {} && (ReadyBy(s) == {} || |s.queue| >= MAX_RECORDS)
    ensures s.writer.Dead? ==> AtRest(s)
  {
    assert forall p :: 0 <= p < |s.producers| && s.producers[p].Reserved? ==> p in ReservedBy(s);
    assert forall p :: 0 <= p < |s.producers| && s.producers[p].Ready? ==> p in ReadyBy(s);
  }

  lemma {:induction false} GetStrands(s: State)
    requires !Drainable(s) && s.writer.Listening? && ReservedBy(s) == {}
    ensures Step(s, Get) != s && !Drainable(Step(s, Get))
  {
    assert s.queue[0].Queued? ==> Stop in s.queue[1..];
    assert ReservedBy(Step(s, Get)) == ReservedBy(s) && ReadyBy(Step(s, Get)) == ReadyBy(s);
  }

  lemma {:induction false} WriterStrands(s: State) returns (e: Event)
    requires !Drainable(s) && ReservedBy(s) == {} && !s.writer.Dead?
    ensures Internal(e) && Step(s, e) != s && !Drainable(Step(s, e))
  {
    if s.writer.Listening? {
      GetStrands(s);
      return Get;
    }
    e := if s.writer.Leaving? then Exit
         else if s.writer.Collecting? then Write({})
         else if s.writer.batch == [] then EndBatch
         else if s.writer.released then TaskDone else Release;
    assert ReservedBy(Step(s, e)) == ReservedBy(s) && ReadyBy(Step(s, e)) == ReadyBy(s);
  }

  /** Some run of the producers and the writer ends with bytes still reserved. */
  lemma {:induction false} SomeRunStrands(s: State) returns (schedule: seq<Event>)
    requires !Drainable(s)
    ensures AllInternal(schedule) && AtRest(Run(s, schedule)) && Live(Run(s, schedule)) != []
    decreases Work(s)
  {
    if AtRest(s) {
      RestDecides(s);
      return [];
    }
    var e := StayStranded(s);
    WorkFalls(s, e);
    var rest := SomeRunStrands(Step(s, e));
    schedule := [e] + rest;
    assert schedule[1..] == rest;
  }

  /** Draining gives every byte back, whatever the producers in flight, the writer and the
      writes do, if and only if the state is drainable. */
  lemma {:induction false} DrainsExactly(s: State)
    ensures Drainable(s) <==>
            forall events :: AllInternal(events) && AtRest(Run(s, events)) ==> Live(Run(s, events)) == []
  {
    if Drainable(s) {
      forall events | AllInternal(events) && AtRest(Run(s, events)) ensures Live(Run(s, events)) == [] {
        RunKeepsDrainable(s, events);
        RestDecides(Run(s, events));
      }
    } else {
      var schedule := SomeRunStrands(s);
    }
  }

  /** Once drained, a producer of any size can reserve. */
  lemma {:induction false} DrainingUnblocks(s: State, events: seq<Event>, size: Size)
    requires Budgeted(s) && Drainable(s) && AllInternal(events) && AtRest(Run(s, events))
    ensures CanReserve(Run(s, events).bytes, size, s.limit)
  {
    RunBudgeted(s, events);
    RunKeepsDrainable(s, events);
    RestDecides(Run(s, events));
    BlockedByOthers(Run(s, events), size);
    LimitStays(s, events);
  }

  lemma {:induction false} LimitStays(s: State, events: seq<Event>)
    ensures Run(s, events).limit == s.limit
    decreases |events|
  {
    if events != [] { LimitStays(Step(s, events[0]), events[1..]); }
  }

  /** A writer that has stopped under a queued record strands it: until a new record
      arrives, no step gives a waiting producer its bytes. */
  predicate Stuck(s: State) {
    && s.writer.Dead? && ReservedBy(s) == {}
    && (forall p :: 0 <= p < |s.producers| && s.producers[p].Waiting? ==>
          Records(s.queue) != [] && Bytes(Records(s.queue)) + s.producers[p].record.size > s.limit)
  }

  lemma {:induction false} StuckStep(s: State, e: Event)
    requires Budgeted(s) && Stuck(s) && !e.Arrive?
    ensures Stuck(Step(s, e)) && |Step(s, e).producers| == |s.producers|
    ensures forall p :: 0 <= p < |s.producers| && s.producers[p].Waiting? ==> Step(s, e).producers[p] == s.producers[p]
  {
    var t := Step(s, e);
    match e
    case Retry(p) => RetryBlocked(s, p);
    case Ensure(p) =>
      assert p < |s.producers| ==> p !in ReservedBy(s);
    case Put(p) =>
      if t != s { StuckPut(s, p, Queued(s.producers[p].record), t); }
    case Fail(p) => assert ReservedBy(t) <= ReservedBy(s);
    case PutStop =>
      ItemsAppend(s.queue, [Stop]);
      assert Records(s.queue) + Records([Stop]) == Records(s.queue);
    case _ =>
  }

  lemma {:induction false} RetryBlocked(s: State, p: nat)
    requires Budgeted(s) && Stuck(s)
    ensures Step(s, Retry(p)) == s
  {
    LiveBytes(s);
    BytesPositive(Records(s.queue));
  }

  lemma {:induction false} StuckPut(s: State, p: nat, item: Item, t: State)
    requires Stuck(s) && p < |s.producers| && t.producers == s.producers[p := Idle]
    requires t.queue == s.queue + [item] && t.writer == s.writer && t.limit == s.limit
    ensures Stuck(t)
  {
    ItemsAppend(s.queue, [item]);
    BytesAppend(Records(s.queue), Records([item]));
    assert ReservedBy(t) <= ReservedBy(s);
  }

  lemma {:induction false} StuckForever(s: State, events: seq<Event>, p: nat)
    requires Budgeted(s) && Stuck(s) && forall i :: 0 <= i < |events| ==> !events[i].Arrive?
    requires p < |s.producers| && s.producers[p].Waiting?
    ensures p < |Run(s, events).producers| && Run(s, events).producers[p] == s.producers[p]
    decreases |events|
  {
    if events != [] {
      StepBudgeted(s, events[0]);
      StuckStep(s, events[0]);
      StuckForever(Step(s, events[0]), events[1..], p);
    }
  }

  lemma {:induction false} RunSnoc(s: State, events: seq<Event>, e: Event)
    ensures Run(s, events + [e]) == Step(Run(s, events), e)
    decreases |events|
  {
    if events == [] {
      assert [] + [e] == [e] && [e][1..] == [];
    } else {
      assert (events + [e])[0] == events[0] && (events + [e])[1..] == events[1..] + [e];
      RunSnoc(Step(s, events[0]), events[1..], e);
    }
  }

  lemma {:induction false} ReachableStep(s: State, e: Event)
    requires Reachable(s)
    ensures Reachable(Step(s, e))
  {
    var limit, producers, events :| limit >= 1 && s == Run(Start(limit, producers), events);
    RunSnoc(Start(limit, producers), events, e);
  }

  /** A stop sentinel overtakes a record whose producer saw the writer alive just before. */
  lemma {:induction false} StopOvertakes(limit: Size, r: Record) returns (s: State)
    requires r.size == 1
    ensures Reachable(s) && s.limit == limit && s.producers == [Idle, Idle]
    ensures s.queue == [Stop, Queued(r)] && s.bytes == 1 && s.writer == Listening
  {
    s := Start(limit, 2);
    assert s == Run(s, []);
    ReachableStep(s, Arrive(0, r));
    s := Step(s, Arrive(0, r));
    ReachableStep(s, Ensure(0));
    s := Step(s, Ensure(0));
    ReachableStep(s, PutStop);
    s := Step(s, PutStop);
    ReachableStep(s, Put(0));
    s := Step(s, Put(0));
  }

  lemma {:induction false} OneQueued(r: Record)
    ensures Records([Queued(r)]) == [r] && Bytes([r]) == r.size
  {
    assert [Queued(r)][1..] == [] && [r][1..] == [];
  }

  /** Such a state is reachable for every limit. */
  lemma {:induction false} StopCanStrand(limit: Size, path: Path) returns (s: State)
    ensures Reachable(s) && Stuck(s) && s.limit == limit
    ensures s.producers == [Idle, Waiting(Record(path, 1, limit))]
  {
    var r := Record(path, 0, 1);
    s := StopOvertakes(limit, r);
    ReachableStep(s, Get);
    s := Step(s, Get);
    ReachableStep(s, Exit);
    s := Step(s, Exit);
    OneQueued(r);
    assert s.queue == [Queued(r)];
    ReachableStep(s, Arrive(1, Record(path, 1, limit)));
    s := Step(s, Arrive(1, Record(path, 1, limit)));
    assert s.producers == [Idle, Waiting(Record(path, 1, limit))];
  }

  // ----- The module's own functions -----

  /** Releasing a batch's bytes one record after the other. */
  function ReleasedAll(bytes: int, batch: seq<Record>): int {
    if batch == [] then bytes
    else Released(ReleasedAll(bytes, batch[..|batch| - 1]), batch[|batch| - 1].size)
  }

  /** The records before the first stop sentinel. */
  function UntilStop(items: seq<Item>): (batch: seq<Record>)
    ensures |batch| <= |items|
  {
    if items == [] || items[0].Stop? then [] else [items[0].record] + UntilStop(items[1..])
  }

  lemma {:induction false} UntilStopMeans(items: seq<Item>)
    ensures forall i :: 0 <= i < |UntilStop(items)| ==> items[i] == Queued(UntilStop(items)[i])
    ensures |UntilStop(items)| < |items| ==> items[|UntilStop(items)|].Stop?
  {
    if items != [] && items[0].Queued? {
      UntilStopMeans(items[1..]);
      assert UntilStop(items)[0] == items[0].record && UntilStop(items)[1..] == UntilStop(items[1..]);
      forall i | 0 < i < |UntilStop(items)| ensures items[i] == Queued(UntilStop(items)[i]) {
        assert items[i] == items[1..][i - 1] && UntilStop(items)[i] == UntilStop(items[1..])[i - 1];
      }
    }
  }

  lemma {:induction false} UntilStopAt(items: seq<Item>, batch: seq<Record>, k: nat)
    requires k <= |items| && |batch| == k && forall i :: 0 <= i < k ==> items[i] == Queued(batch[i])
    requires k == |items| || items[k].Stop?
    ensures UntilStop(items) == batch
  {
    if k > 0 { UntilStopAt(items[1..], batch[1..], k - 1); }
  }

  lemma {:induction false} OfPathOne(r: Record, path: Path)
    ensures OfPath([r], path) == if r.path == path then [r] else []
  {
    assert [r][1..] == [];
  }

  /** `_append_records`: group by file, then append each group to its file. */
  method GroupByPath(batch: seq<Record>) returns (grouped: map<Path, seq<Record>>)
    ensures grouped.Keys == PathsOf(batch)
    ensures forall path :: path in grouped ==> grouped[path] == OfPath(batch, path)
  {
    grouped := map[];
    for i := 0 to |batch|
      invariant grouped.Keys == PathsOf(batch[..i])
      invariant forall path :: path in grouped ==> grouped[path] == OfPath(batch[..i], path)
    {
      var r := batch[i];
      assert batch[..i + 1] == batch[..i] + [r];
      forall path ensures OfPath(batch[..i + 1], path) == OfPath(batch[..i], path) + if r.path == path then [r] else [] {
        OfPathConcat(batch[..i], [r], path);
        OfPathOne(r, path);
      }
      if r.path !in grouped { OfPathNone(batch[..i], r.path); }
      grouped := grouped[r.path := (if r.path in grouped then grouped[r.path] else []) + [r]];
    }
    assert batch[..|batch|] == batch;
  }

  /** What one file gains once the groups of the files in `written` are appended. */
  function Share(grouped: map<Path, seq<Record>>, written: set<Path>, path: Path): seq<Record> {
    if path in grouped && path in written then grouped[path] else []
  }

  lemma {:induction false} ShareGrows(
    files: map<Path, seq<Record>>, before: map<Path, seq<Record>>, grouped: map<Path, seq<Record>>,
    ok: set<Path>, todo: set<Path>, path: Path)
    requires forall p :: Content(files, p) == Content(before, p) + Share(grouped, ok - todo, p)
    requires path in todo && path in grouped
    ensures var after := if path in ok then files[path := Content(files, path) + grouped[path]] else files;
            forall p :: Content(after, p) == Content(before, p) + Share(grouped, ok - (todo - {path}), p)
  {
    assert Content(files, path) == Content(before, path) + [];
  }

  datatype Enqueued = Done | WaitsForBytes | WaitsForRoom | Dropped

  class ArchiveQueue {
    const limit: int
    var bytes: int
    var queue: seq<Item>
    var unfinished: int
    var files: map<Path, seq<Record>>

    constructor (limit: int)
      ensures this.limit == limit && bytes == 0 && queue == [] && unfinished == 0 && files == map[]
    {
      this.limit, bytes, queue, unfinished, files := limit, 0, [], 0, map[];
    }

    /** `_reserve_archive_queue_bytes` */
    method Reserve(size: Size) returns (reserved: bool)
      modifies this`bytes
      ensures reserved <==> old(bytes) + size <= limit || (size > limit && old(bytes) == 0)
      ensures bytes == old(bytes) + if reserved then size else 0
    {
      if !CanReserve(bytes, size, limit) {
        return false;
      }
      bytes := bytes + size;
      return true;
    }

    /** `_enqueue_record` up to where it would wait: for bytes, or (with its bytes reserved) for
        room in the queue.  A put that raises gives the bytes back. */
    method Enqueue(record: Record, putRaises: bool) returns (outcome: Enqueued)
      requires bytes >= 0
      modifies this`bytes, this`queue, this`unfinished
      ensures outcome == WaitsForBytes <==> old(bytes) + record.size > limit && (record.size <= limit || old(bytes) > 0)
      ensures outcome == Dropped <==> outcome != WaitsForBytes && putRaises
      ensures outcome == WaitsForRoom <==> outcome != WaitsForBytes && !putRaises && |old(queue)| >= 4096
      ensures bytes == old(bytes) + if outcome == Done || outcome == WaitsForRoom then record.size else 0
      ensures queue == old(queue) + if outcome == Done then [Queued(record)] else []
      ensures unfinished == old(unfinished) + if outcome == Done then 1 else 0
    {
      var reserved := Reserve(record.size);
      if !reserved {
        return WaitsForBytes;
      }
      if putRaises {
        bytes := Released(bytes, record.size);
        return Dropped;
      }
      if |queue| >= MAX_RECORDS {
        return WaitsForRoom;
      }
      queue, unfinished := queue + [Queued(record)], unfinished + 1;
      return Done;
    }

    /** The writes, for the files in `ok`; every other write of the batch fails. */
    method AppendRecords(batch: seq<Record>, ok: set<Path>)
      modifies this`files
      ensures forall path :: Content(files, path) == Content(Appended(old(files), batch, ok), path)
    {
      var grouped := GroupByPath(batch);
      var todo := grouped.Keys;
      while todo != {}
        invariant todo <= grouped.Keys
        invariant forall path :: Content(files, path) == Content(old(files), path) + Share(grouped, ok - todo, path)
        decreases |todo|
      {
        var path :| path in todo;
        ShareGrows(files, old(files), grouped, ok, todo, path);
        if path in ok {
          files := files[path := Content(files, path) + grouped[path]];
        }
        todo := todo - {path};
      }
      forall path ensures Content(files, path) == Content(Appended(old(files), batch, ok), path) {
        AppendedContent(old(files), batch, ok, path);
      }
    }

    /** The collecting loop of `_writer_loop`: everything up to the first stop sentinel. */
    method TakeBatch() returns (batch: seq<Record>, stopping: bool)
      modifies this`queue, this`unfinished
      ensures batch == UntilStop(old(queue))
      ensures stopping <==> |batch| < |old(queue)|
      ensures queue == old(queue)[|batch| + (if stopping then 1 else 0)..]
      ensures unfinished == old(unfinished) - if stopping then 1 else 0
    {
      batch, stopping := [], false;
      ghost var k: nat := 0;
      while queue != []
        invariant k == |batch| <= |old(queue)| && queue == old(queue)[k..] && unfinished == old(unfinished)
        invariant forall i :: 0 <= i < k ==> old(queue)[i] == Queued(batch[i])
        decreases |queue|
      {
        var next := queue[0];
        queue := queue[1..];
        if next.Stop? {
          unfinished := unfinished - 1;
          UntilStopAt(old(queue), batch, k);
          return batch, true;
        }
        batch := batch + [next.record];
        k := k + 1;
      }
      UntilStopAt(old(queue), batch, k);
    }

    /** The `finally` of `_writer_loop`: one release and one task_done per record. */
    method FinishBatch(batch: seq<Record>)
      modifies this`bytes, this`unfinished
      ensures bytes == ReleasedAll(old(bytes), batch)
      ensures unfinished == old(unfinished) - |batch|
    {
      for i := 0 to |batch|
        invariant bytes == ReleasedAll(old(bytes), batch[..i]) && unfinished == old(unfinished) - i
      {
        assert batch[..i + 1][..i] == batch[..i];
        bytes := Released(bytes, batch[i].size);
        unfinished := unfinished - 1;
      }
      assert batch[..|batch|] == batch;
    }

    /** One turn of `_writer_loop` on a queue nobody else touches meanwhile. */
    method WriterTurn(ok: set<Path>) returns (running: bool)
      requires queue != []
      modifies this`bytes, this`queue, this`unfinished, this`files
      ensures var batch := UntilStop(old(queue));
              && running == (|batch| == |old(queue)|)
              && queue == old(queue)[|batch| + (if running then 0 else 1)..]
              && unfinished == old(unfinished) - |batch| - (if running then 0 else 1)
              && bytes == ReleasedAll(old(bytes), batch)
              && forall path :: Content(files, path) == Content(Appended(old(files), batch, ok), path)
    {
      var batch, stopping := TakeBatch();
      AppendRecords(batch, ok);
      FinishBatch(batch);
      return !stopping;
    }
  }

  /** With the budget exact, a turn gives back exactly its batch's bytes. */
  lemma {:induction false} ReleasedAllExact(bytes: int, batch: seq<Record>)
    requires bytes >= Bytes(batch)
    ensures ReleasedAll(bytes, batch) == bytes - Bytes(batch)
  {
    if batch != [] {
      var n := |batch| - 1;
      assert batch == batch[..n] + [batch[n]];
      BytesAppend(batch[..n], [batch[n]]);
      OneQueued(batch[n]);
      ReleasedAllExact(bytes, batch[..n]);
    }
  }

  // ----- A turn of the writer is a run of the protocol -----

  lemma {:induction false} RunConcat(s: State, a: seq<Event>, b: seq<Event>)
    ensures Run(s, a + b) == Run(Run(s, a), b)
    decreases |a|
  {
    if a == [] {
      assert a + b == b;
    } else {
      assert (a + b)[0] == a[0] && (a + b)[1..] == a[1..] + b;
      RunConcat(Step(s, a[0]), a[1..], b);
    }
  }

  lemma {:induction false} ReleasedAllHead(bytes: int, batch: seq<Record>)
    requires batch != []
    ensures ReleasedAll(bytes, batch) == ReleasedAll(Released(bytes, batch[0].size), batch[1..])
  {
    var n := |batch| - 1;
    if n > 0 {
      ReleasedAllHead(bytes, batch[..n]);
      assert batch[..n][1..] == batch[1..][..n - 1];
    } else {
      assert batch[..0] == batch[1..] == [];
    }
  }

  function Taken(items: seq<Item>): nat {
    if |UntilStop(items)| < |items| then |UntilStop(items)| + 1 else |UntilStop(items)|
  }

  lemma {:induction false} CollectingRun(s: State) returns (schedule: seq<Event>)
    requires s.writer.Collecting? && !s.writer.stopping
    ensures var batch := UntilStop(s.queue);
            var stops := Taken(s.queue) - |batch|;
            Run(s, schedule) == s.(queue := s.queue[Taken(s.queue)..], writer := Collecting(s.writer.batch + batch, stops == 1),
                                   unfinished := s.unfinished - stops, dones := s.dones + stops)
    decreases |s.queue|
  {
    if s.queue == [] {
      schedule := [];
      assert s.writer.batch + [] == s.writer.batch;
    } else if s.queue[0].Stop? {
      schedule := [Get];
      assert [Get][1..] == [];
      assert s.writer.batch + [] == s.writer.batch;
    } else {
      var rest := CollectingRun(Step(s, Get));
      schedule := [Get] + rest;
      assert schedule[1..] == rest;
      var record, more := s.queue[0].record, UntilStop(s.queue[1..]);
      assert s.writer.batch + [record] + more == s.writer.batch + ([record] + more);
      assert s.queue[1..][Taken(s.queue[1..])..] == s.queue[Taken(s.queue)..];
    }
  }

  lemma {:induction false} FinishingRun(s: State) returns (schedule: seq<Event>)
    requires s.writer.Finishing? && !s.writer.released
    ensures var batch := s.writer.batch;
            Run(s, schedule) == s.(writer := if s.writer.stopping then Leaving else Listening,
                                   bytes := ReleasedAll(s.bytes, batch), unfinished := s.unfinished - |batch|,
                                   completed := s.completed + batch, dones := s.dones + |batch|)
    decreases |s.writer.batch|
  {
    var batch := s.writer.batch;
    if batch == [] {
      schedule := [EndBatch];
      assert [EndBatch][1..] == [] && s.completed + [] == s.completed;
    } else {
      var released := Step(s, Release);
      var rest := FinishingRun(Step(released, TaskDone));
      schedule := [Release] + ([TaskDone] + rest);
      assert schedule[1..] == [TaskDone] + rest && ([TaskDone] + rest)[1..] == rest;
      ReleasedAllHead(s.bytes, batch);
      assert s.completed + [batch[0]] + batch[1..] == s.completed + batch;
    }
  }

  lemma {:induction false} NothingAppended(files: map<Path, seq<Record>>, ok: set<Path>)
    ensures forall path :: Content(Appended(files, [], ok), path) == Content(files, path)
  {
    forall path ensures Content(Appended(files, [], ok), path) == Content(files, path) {
      AppendedContent(files, [], ok, path);
    }
  }

  /** What `WriterTurn` does alone, the protocol's writer does in some run of its own steps. */
  lemma {:induction false} TurnIsARun(s: State, ok: set<Path>) returns (schedule: seq<Event>)
    requires s.writer.Listening? && s.queue != []
    ensures var batch, t := UntilStop(s.queue), Run(s, schedule);
            && t.writer == (if |batch| == |s.queue| then Listening else Leaving)
            && t.queue == s.queue[Taken(s.queue)..]
            && t.unfinished == s.unfinished - Taken(s.queue)
            && t.bytes == ReleasedAll(s.bytes, batch)
            && t.completed == s.completed + batch && t.failed == s.failed + (PathsOf(batch) - ok)
            && forall path :: Content(t.files, path) == Content(Appended(s.files, batch, ok), path)
  {
    if s.queue[0].Stop? {
      schedule := [Get];
      assert [Get][1..] == [];
      NothingAppended(s.files, ok);
      assert s.completed + [] == s.completed && s.failed + (PathsOf([]) - ok) == s.failed;
    } else {
      var taken := Step(s, Get);
      var collect := CollectingRun(taken);
      var full := Run(taken, collect);
      assert full.writer.batch == UntilStop(s.queue);
      var written := Step(full, Write(ok));
      var finish := FinishingRun(written);
      schedule := [Get] + (collect + ([Write(ok)] + finish));
      assert schedule[1..] == collect + ([Write(ok)] + finish) && ([Write(ok)] + finish)[1..] == finish;
      RunConcat(taken, collect, [Write(ok)] + finish);
      assert s.queue[1..][Taken(s.queue[1..])..] == s.queue[Taken(s.queue)..];
    }
  }
}
