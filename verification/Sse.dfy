/** Incremental SSE framing: `_find_sse_separator`, `_pop_sse_event` and `_iter_sse_events`
    of app/core/clients/proxy.py, and the sibling splitter of openai_platform.py.

    The splitters know two blank-line forms, CRLF CRLF and LF LF.  Events stay bytes:
    decoding one to text is a function of its bytes and does not matter here. */
module Sse {
  import opened Common

  type Byte = x: int | 0 <= x < 256
  type Bytes = seq<Byte>

  const CR: Byte := 13
  const LF: Byte := 10

  /** A separator of `n` bytes (CRLF CRLF for 4, LF LF for 2) starts at `i`. */
  predicate At(b: Bytes, n: nat, i: int) {
    && 0 <= i && i + n <= |b|
    && ((n == 4 && b[i] == CR && b[i + 1] == LF && b[i + 2] == CR && b[i + 3] == LF)
        || (n == 2 && b[i] == LF && b[i + 1] == LF))
  }

  /** `bytes.find` of that separator */
  function Find(b: Bytes, n: nat, from: nat := 0): (r: int)
    requires from <= |b|
    ensures r >= 0 ==> At(b, n, r)
    ensures forall i :: from <= i && (r < 0 || i < r) ==> !At(b, n, i)
    decreases |b| - from
  {
    if At(b, n, from) then from
    else if from == |b| then -1
    else Find(b, n, from + 1)
  }

  /** Start and length of the first separator. */
  function FindSeparator(b: Bytes): (r: Option<(nat, nat)>)
    ensures r.None? ==> forall i, n :: !At(b, n, i)
    ensures r.Some? ==> At(b, r.value.1, r.value.0) && forall i, n :: i < r.value.0 ==> !At(b, n, i)
  {
    var long, short := Find(b, 4), Find(b, 2);
    if long < 0 && short < 0 then None
    else if short < 0 || (0 <= long <= short) then Some((long, 4))
    else Some((short, 2))
  }

  function FirstEnd(b: Bytes): (r: Option<nat>)
    ensures r.Some? ==> 2 <= r.value <= |b|
  {
    match FindSeparator(b)
    case None => None
    case Some((start, length)) => Some(start + length)
  }

  predicate IsSpace(c: Byte) { c == 32 || 9 <= c <= 13 }

  /** `not raw.strip()` */
  predicate Blank(b: Bytes) { forall i :: 0 <= i < |b| ==> IsSpace(b[i]) }

  // ----- What a byte stream means -----

  /** The stream cut after every separator, with what is left at the end. */
  function Pieces(b: Bytes): seq<Bytes>
    decreases |b|
  {
    match FirstEnd(b)
    case Some(end) => [b[..end]] + Pieces(b[end..])
    case None => if b == [] then [] else [b]
  }

  function Flatten(parts: seq<Bytes>): Bytes {
    if parts == [] then [] else parts[0] + Flatten(parts[1..])
  }

  datatype Outcome = Done | TooLarge

  datatype Result = Result(events: seq<Bytes>, outcome: Outcome)

  function Prepend(events: seq<Bytes>, r: Result): Result { Result(events + r.events, r.outcome) }

  /** Delivering a whole stream under a limit: up to the first oversize piece, every piece
      but the blank ones; what is left at the end is delivered even when it is blank. */
  function Deliver(b: Bytes, max: int): Result
    decreases |b|
  {
    match FirstEnd(b)
    case Some(end) =>
      if end > max then Result([], TooLarge)
      else Prepend(if Blank(b[..end]) then [] else [b[..end]], Deliver(b[end..], max))
    case None =>
      if b == [] then Result([], Done)
      else if |b| > max then Result([], TooLarge)
      else Result([b], Done)
  }

  /** The first separator of a prefix is the first separator of the whole. */
  lemma {:induction false} PrefixDecides(b: Bytes, more: Bytes)
    ensures FirstEnd(b).Some? ==> FirstEnd(b + more) == FirstEnd(b)
    ensures FirstEnd(b).None? && FirstEnd(b + more).Some? ==> FirstEnd(b + more).value > |b|
  {
    var w := b + more;
    assert forall i, n: nat :: At(b, n, i) ==> At(w, n, i);
    assert forall i, n: nat :: At(w, n, i) && i + n <= |b| ==> At(b, n, i);
  }

  lemma {:induction false} LastPiece(b: Bytes)
    requires FirstEnd(b).None?
    ensures Blocks(b) == if b == [] || Blank(b) then [] else [b]
    ensures Filter(Pieces(b), Delivered) == if b == [] then [] else [b]
  {
    if b != [] {
      assert Pieces(b) == [b] && [b][0] == b && [b][1..] == [];
      assert Filter([b], NotBlank) == if NotBlank(b) then [b] + Filter([], NotBlank) else Filter([], NotBlank);
    }
  }

  /** What the front of the buffer decides, whatever bytes follow it. */
  lemma {:induction false} FrontDecides(buffer: Bytes, rest: Bytes, max: int)
    ensures FirstEnd(buffer).Some? ==>
              var end := FirstEnd(buffer).value;
              && Deliver(buffer + rest, max) ==
                 (if end > max then Result([], TooLarge)
                  else Prepend(if Blank(buffer[..end]) then [] else [buffer[..end]], Deliver(buffer[end..] + rest, max)))
              && Pieces(buffer + rest) == [buffer[..end]] + Pieces(buffer[end..] + rest)
    ensures FirstEnd(buffer).None? && buffer != [] && |buffer| > max ==>
              Deliver(buffer + rest, max) == Result([], TooLarge)
  {
    PrefixDecides(buffer, rest);
    if FirstEnd(buffer).Some? {
      var end := FirstEnd(buffer).value;
      assert (buffer + rest)[..end] == buffer[..end] && (buffer + rest)[end..] == buffer[end..] + rest;
    }
  }

  lemma {:induction false} PrependTwice(a: seq<Bytes>, b: seq<Bytes>, r: Result)
    ensures Prepend(a, Prepend(b, r)) == Prepend(a + b, r)
  {
    assert a + (b + r.events) == (a + b) + r.events;
  }

  lemma {:induction false} NextChunk(chunks: seq<Bytes>, i: nat, buffer: Bytes)
    requires i < |chunks|
    ensures buffer + Flatten(chunks[i..]) == (buffer + chunks[i]) + Flatten(chunks[i + 1..])
  {
    assert chunks[i..][1..] == chunks[i + 1..];
  }

  // ----- The chunked readers -----

  /** The inner loop: pops events until none is complete.  `rest` stands for the bytes that
      have not arrived; whatever they are, the events popped are the stream's own. */
  method Drain(start: Bytes, max: int, ghost rest: Bytes)
    returns (events: seq<Bytes>, buffer: Bytes, tooLarge: bool)
    requires start != []
    ensures !tooLarge ==> |buffer| <= max && FirstEnd(buffer).None?
    ensures Deliver(start + rest, max) ==
            if tooLarge then Result(events, TooLarge) else Prepend(events, Deliver(buffer + rest, max))
  {
    events, buffer := [], start;
    while FirstEnd(buffer).Some?
      invariant buffer == [] ==> max >= 0
      invariant Deliver(start + rest, max) == Prepend(events, Deliver(buffer + rest, max))
      decreases |buffer|
    {
      FrontDecides(buffer, rest, max);
      var end := FirstEnd(buffer).value;
      var event := buffer[..end];
      if |event| > max {
        return events, buffer, true;
      }
      buffer := buffer[end..];
      PrependTwice(events, if Blank(event) then [] else [event], Deliver(buffer + rest, max));
      if Blank(event) {
        assert events + [] == events;
      } else {
        events := events + [event];
      }
    }
    FrontDecides(buffer, rest, max);
    tooLarge := |buffer| > max;
  }

  /** `_iter_sse_events`: the result is a function of the bytes alone, not of the chunks. */
  method IterSseEvents(chunks: seq<Bytes>, max: int) returns (r: Result)
    ensures r == Deliver(Flatten(chunks), max)
  {
    var events: seq<Bytes>, buffer: Bytes := [], [];
    assert chunks[0..] == chunks && [] + Flatten(chunks) == Flatten(chunks);
    for i := 0 to |chunks|
      invariant FirstEnd(buffer).None? && (buffer != [] ==> |buffer| <= max)
      invariant Deliver(Flatten(chunks), max) == Prepend(events, Deliver(buffer + Flatten(chunks[i..]), max))
    {
      NextChunk(chunks, i, buffer);
      if chunks[i] == [] {
        assert buffer + chunks[i] == buffer;
        continue;
      }
      buffer := buffer + chunks[i];
      ghost var rest := Flatten(chunks[i + 1..]);
      var more, left, tooLarge := Drain(buffer, max, rest);
      PrependTwice(events, more, Deliver(left + rest, max));
      events, buffer := events + more, left;
      if tooLarge {
        return Result(events, TooLarge);
      }
    }
    assert buffer + Flatten(chunks[|chunks|..]) == buffer;
    if buffer != [] {
      if |buffer| > max {
        return Result(events, TooLarge);
      }
      events := events + [buffer];
    }
    return Result(events, Done);
  }

  predicate NotBlank(piece: Bytes) { !Blank(piece) }

  /** Every piece that is not blank. */
  function Blocks(b: Bytes): seq<Bytes> { Filter(Pieces(b), NotBlank) }

  method DrainBlocks(start: Bytes, ghost rest: Bytes) returns (events: seq<Bytes>, buffer: Bytes)
    ensures FirstEnd(buffer).None?
    ensures Blocks(start + rest) == events + Blocks(buffer + rest)
  {
    events, buffer := [], start;
    while FirstEnd(buffer).Some?
      invariant Blocks(start + rest) == events + Blocks(buffer + rest)
      decreases |buffer|
    {
      var end := FirstEnd(buffer).value;
      FrontDecides(buffer, rest, 0);
      var event := buffer[..end];
      buffer := buffer[end..];
      FilterConcat([event], Pieces(buffer + rest), NotBlank);
      if !Blank(event) {
        events := events + [event];
      }
    }
  }

  /** `_iter_sse_event_blocks` */
  method IterSseEventBlocks(chunks: seq<Bytes>) returns (events: seq<Bytes>)
    ensures events == Blocks(Flatten(chunks))
  {
    var buffer: Bytes := [];
    events := [];
    assert chunks[0..] == chunks && [] + Flatten(chunks) == Flatten(chunks);
    for i := 0 to |chunks|
      invariant FirstEnd(buffer).None?
      invariant Blocks(Flatten(chunks)) == events + Blocks(buffer + Flatten(chunks[i..]))
    {
      NextChunk(chunks, i, buffer);
      if chunks[i] == [] {
        assert buffer + chunks[i] == buffer;
        continue;
      }
      buffer := buffer + chunks[i];
      var more, left := DrainBlocks(buffer, Flatten(chunks[i + 1..]));
      events, buffer := events + more, left;
    }
    assert buffer + Flatten(chunks[|chunks|..]) == buffer;
    LastPiece(buffer);
    if buffer != [] && !Blank(buffer) {
      events := events + [buffer];
    }
  }

  // ----- What the two results say about the stream -----

  /** Nothing is lost or reordered by the cutting. */
  lemma {:induction false} PiecesConserve(b: Bytes)
    ensures Flatten(Pieces(b)) == b
    decreases |b|
  {
    if FirstEnd(b).Some? {
      var end := FirstEnd(b).value;
      PiecesConserve(b[end..]);
      assert b == b[..end] + b[end..];
    } else if b != [] {
      assert Flatten([b]) == b + Flatten([]);
    }
  }

  /** A piece is complete if it has a separator; only the last one may not be. */
  predicate Complete(piece: Bytes) { FirstEnd(piece).Some? }

  predicate Delivered(piece: Bytes) { !Complete(piece) || !Blank(piece) }

  /** The delivery succeeds exactly when no piece is oversize, and then it is every piece
      but the blank complete ones. */
  lemma {:induction false} DeliverIsPieces(b: Bytes, max: int)
    ensures Deliver(b, max).outcome == Done <==> forall p :: p in Pieces(b) ==> |p| <= max
    ensures Deliver(b, max).outcome == Done ==> Deliver(b, max).events == Filter(Pieces(b), Delivered)
    decreases |b|
  {
    if FirstEnd(b).Some? {
      var end := FirstEnd(b).value;
      PieceEnds(b);
      DeliverIsPieces(b[end..], max);
      assert Pieces(b)[1..] == Pieces(b[end..]);
    } else {
      LastPiece(b);
    }
  }

  /** Cutting after the first separator leaves that separator at the very end. */
  lemma {:induction false} PieceEnds(b: Bytes)
    requires FirstEnd(b).Some?
    ensures FirstEnd(b[..FirstEnd(b).value]) == FirstEnd(b)
  {
    var end := FirstEnd(b).value;
    assert b == b[..end] + b[end..];
    var (start, length) := FindSeparator(b).value;
    assert At(b[..end], length, start);
    PrefixDecides(b[..end], b[end..]);
  }

  predicate BlankTail(b: Bytes) {
    var ps := Pieces(b);
    ps != [] && !Complete(ps[|ps| - 1]) && Blank(ps[|ps| - 1])
  }

  /** The two readers agree exactly on streams with no oversize piece and no blank tail. */
  lemma {:induction false} ReadersAgree(b: Bytes, max: int)
    ensures Deliver(b, max) == Result(Blocks(b), Done) <==>
            (forall p :: p in Pieces(b) ==> |p| <= max) && !BlankTail(b)
  {
    DeliverIsPieces(b, max);
    TailDecides(b);
  }

  /** A stream on which they differ: one line feed is delivered by the first reader and
      dropped by the second. */
  lemma {:induction false} ReadersCanDiffer()
    ensures Deliver([LF], 1) == Result([[LF]], Done) && Blocks([LF]) == []
  {
    LastPiece([LF]);
    DeliverIsPieces([LF], 1);
  }

  lemma {:induction false} TailDecides(b: Bytes)
    ensures |Filter(Pieces(b), Delivered)| == |Blocks(b)| + if BlankTail(b) then 1 else 0
    ensures !BlankTail(b) ==> Filter(Pieces(b), Delivered) == Blocks(b)
    decreases |b|
  {
    if FirstEnd(b).Some? {
      var end := FirstEnd(b).value;
      PieceEnds(b);
      TailDecides(b[end..]);
      assert Pieces(b)[1..] == Pieces(b[end..]);
    } else {
      LastPiece(b);
    }
  }

  // ----- The same in bytes -----

  /** A blank line: two line feeds, or twice carriage return and line feed. */
  predicate BlankLineAt(b: Bytes, i: int, end: int) {
    0 <= i < end <= |b| && (b[i..end] == [10, 10] || b[i..end] == [13, 10, 13, 10])
  }

  lemma {:induction false} AtMeans(b: Bytes, n: nat, i: int)
    ensures At(b, n, i) <==> BlankLineAt(b, i, i + n)
  {
    if At(b, n, i) {
      assert b[i..i + n] == if n == 2 then [10, 10] else [13, 10, 13, 10];
    }
    if BlankLineAt(b, i, i + n) {
      var cut := b[i..i + n];
      assert |cut| == n && forall j :: 0 <= j < n ==> cut[j] == b[i + j];
      assert b[i] == cut[0] && b[i + 1] == cut[1];
      if n == 4 { assert b[i + 2] == cut[2] && b[i + 3] == cut[3]; }
    }
  }

  /** An event ends with the first blank line. */
  lemma {:induction false} FirstEndMeans(b: Bytes)
    ensures FirstEnd(b).None? <==> forall i, end :: !BlankLineAt(b, i, end)
    ensures FirstEnd(b).Some? ==>
              exists i :: BlankLineAt(b, i, FirstEnd(b).value) && forall j, end :: BlankLineAt(b, j, end) ==> i <= j
  {
    forall i, end | BlankLineAt(b, i, end) ensures At(b, end - i, i) { AtMeans(b, end - i, i); }
    if FirstEnd(b).Some? {
      var (start, length) := FindSeparator(b).value;
      AtMeans(b, length, start);
      assert BlankLineAt(b, start, FirstEnd(b).value);
    }
  }

  /** Whitespace as `bytes.strip` knows it: tab, line feed, vertical tab, form feed, carriage
      return and space. */
  lemma {:induction false} BlankMeans(b: Bytes)
    ensures Blank(b) <==> forall c :: c in b ==> c in {9, 10, 11, 12, 13, 32}
  {
    if Blank(b) {
      forall c | c in b ensures c in {9, 10, 11, 12, 13, 32} {
        var i :| 0 <= i < |b| && b[i] == c;
      }
    }
    if forall c :: c in b ==> c in {9, 10, 11, 12, 13, 32} {
      forall i | 0 <= i < |b| ensures IsSpace(b[i]) { assert b[i] in b; }
    }
  }

  /** No piece is empty, every piece but the last ends with its first blank line, and the last
      one does or has none. */
  lemma {:induction false} PiecesAreEvents(b: Bytes, i: nat)
    requires i < |Pieces(b)|
    ensures var p := Pieces(b)[i];
            p != [] && (FirstEnd(p) == Some(|p|) || (i == |Pieces(b)| - 1 && FirstEnd(p).None?))
    decreases |b|
  {
    if FirstEnd(b).Some? {
      var end := FirstEnd(b).value;
      PieceEnds(b);
      if i > 0 {
        assert Pieces(b)[i] == Pieces(b[end..])[i - 1];
        PiecesAreEvents(b[end..], i - 1);
      }
    }
  }

  /** A stream with an oversize piece fails at the first one, after delivering what is before
      it, just as a stream that ends there would. */
  lemma {:induction false} OversizeStops(b: Bytes, max: int) returns (k: nat)
    requires Deliver(b, max).outcome == TooLarge
    ensures k < |Pieces(b)| && |Pieces(b)[k]| > max && forall j :: 0 <= j < k ==> |Pieces(b)[j]| <= max
    ensures Deliver(b, max).events == Filter(Pieces(b)[..k], Delivered)
    decreases |b|
  {
    if FirstEnd(b).Some? && FirstEnd(b).value <= max {
      var end := FirstEnd(b).value;
      PieceEnds(b);
      k := OversizeStops(b[end..], max);
      var ps := Pieces(b);
      assert ps[1..] == Pieces(b[end..]);
      var head: seq<Bytes> := [ps[0]];
      assert ps[..k + 1] == head + ps[1..][..k];
      FilterConcat(head, ps[1..][..k], Delivered);
      assert head[0] == ps[0] && head[1..] == [];
      k := k + 1;
    } else {
      k := 0;
      assert Pieces(b)[..0] == [];
    }
  }
}
