/** Python's tuple ordering, `min` with a key, and a stable sort by key. */
module Ordering {
  import opened Common

  /** A component of a sort key; `Inf` is float("inf"). */
  datatype Part = N(n: real) | Inf | T(text: string)

  type Key = seq<Part>

  predicate TextLess(a: string, b: string) {
    b != [] && (a == [] || a[0] < b[0] || (a[0] == b[0] && TextLess(a[1..], b[1..])))
  }

  predicate PartLess(p: Part, q: Part) {
    match (p, q)
    case (N(x), N(y)) => x < y
    case (N(_), _) => true
    case (Inf, T(_)) => true
    case (T(x), T(y)) => TextLess(x, y)
    case _ => false
  }

  predicate KeyLe(a: Key, b: Key) {
    a == [] || (b != [] && (PartLess(a[0], b[0]) || (a[0] == b[0] && KeyLe(a[1..], b[1..]))))
  }

  lemma {:induction false} TextLessTotal(a: string, b: string)
    ensures !(TextLess(a, b) && TextLess(b, a)) && !TextLess(a, a)
    ensures TextLess(a, b) || TextLess(b, a) || a == b
    decreases |a|
  {
    if a != [] {
      TextLessTotal(a[1..], a[1..]);
      if b != [] {
        TextLessTotal(a[1..], b[1..]);
        assert a == [a[0]] + a[1..] && b == [b[0]] + b[1..];
      }
    }
  }

  lemma {:induction false} TextLessTrans(a: string, b: string, c: string)
    requires TextLess(a, b) && TextLess(b, c)
    ensures TextLess(a, c)
    decreases |a|
  {
    if a != [] && a[0] == b[0] && b[0] == c[0] {
      TextLessTrans(a[1..], b[1..], c[1..]);
    }
  }

  lemma {:induction false} PartLessTotal(p: Part, q: Part)
    ensures !(PartLess(p, q) && PartLess(q, p)) && !PartLess(p, p)
    ensures PartLess(p, q) || PartLess(q, p) || p == q
  {
    if p.T? {
      TextLessTotal(p.text, p.text);
      if q.T? { TextLessTotal(p.text, q.text); }
    }
  }

  lemma {:induction false} PartLessTrans(p: Part, q: Part, r: Part)
    requires PartLess(p, q) && PartLess(q, r)
    ensures PartLess(p, r)
  {
    if p.T? && q.T? && r.T? { TextLessTrans(p.text, q.text, r.text); }
  }

  lemma {:induction false} KeyLeTotal(a: Key, b: Key)
    ensures KeyLe(a, b) || KeyLe(b, a)
    ensures KeyLe(a, b) && KeyLe(b, a) ==> a == b
    ensures KeyLe(a, a)
    decreases |a|
  {
    if a != [] {
      KeyLeTotal(a[1..], a[1..]);
      if b != [] {
        PartLessTotal(a[0], b[0]);
        KeyLeTotal(a[1..], b[1..]);
        assert a == [a[0]] + a[1..] && b == [b[0]] + b[1..];
      }
    }
  }

  lemma {:induction false} KeyLeTrans(a: Key, b: Key, c: Key)
    requires KeyLe(a, b) && KeyLe(b, c)
    ensures KeyLe(a, c)
    decreases |a|
  {
    if a != [] {
      if PartLess(a[0], b[0]) && PartLess(b[0], c[0]) {
        PartLessTrans(a[0], b[0], c[0]);
      } else if a[0] == b[0] == c[0] && !PartLess(a[0], b[0]) && !PartLess(b[0], c[0]) {
        KeyLeTrans(a[1..], b[1..], c[1..]);
      } else if a[0] == b[0] == c[0] {
        PartLessTotal(a[0], a[0]);
      }
    }
  }

  // ----- min(..., key=...) -----

  ghost predicate Least<X(!new)>(s: seq<X>, key: X -> Key, x: X) {
    x in s && forall y :: y in s ==> KeyLe(key(x), key(y))
  }

  /** The first element with the least key. */
  function MinBy<X(!new)>(s: seq<X>, key: X -> Key): (x: X)
    requires s != []
    ensures Least(s, key, x)
  {
    var init, last := s[..|s| - 1], s[|s| - 1];
    if init == [] then
      KeyLeTotal(key(last), key(last));
      last
    else
      var best := MinBy(init, key);
      KeyLeTotal(key(best), key(last));
      KeyLeTotal(key(last), key(last));
      assert forall y :: y in s <==> y in init || y == last;
      if KeyLe(key(best), key(last)) then best
      else
        assert forall y :: y in init ==> KeyLe(key(last), key(y)) by {
          forall y | y in init ensures KeyLe(key(last), key(y)) { KeyLeTrans(key(last), key(best), key(y)); }
        }
        last
  }

  /** If keys tell elements apart, the least one does not depend on the order. */
  lemma {:induction false} LeastIsUnique<X(!new)>(s: seq<X>, t: seq<X>, key: X -> Key, x: X, y: X)
    requires Least(s, key, x) && Least(t, key, y)
    requires forall z :: z in s <==> z in t
    requires forall a, b :: a in s && b in s && key(a) == key(b) ==> a == b
    ensures x == y
  {
    KeyLeTotal(key(x), key(y));
  }

  // ----- list.sort(key=...) -----

  predicate Sorted<X>(s: seq<X>, key: X -> Key) {
    forall i, j :: 0 <= i < j < |s| ==> KeyLe(key(s[i]), key(s[j]))
  }

  function Insert<X>(s: seq<X>, x: X, key: X -> Key): seq<X> {
    if s == [] || KeyLe(key(s[|s| - 1]), key(x)) then s + [x]
    else Insert(s[..|s| - 1], x, key) + [s[|s| - 1]]
  }

  /** A stable sort. */
  function SortBy<X>(s: seq<X>, key: X -> Key): seq<X> {
    if s == [] then [] else Insert(SortBy(s[..|s| - 1], key), s[|s| - 1], key)
  }

  lemma {:induction false} InsertKeeps<X>(s: seq<X>, x: X, key: X -> Key)
    ensures multiset(Insert(s, x, key)) == multiset(s) + multiset{x}
  {
    if s != [] {
      assert s == s[..|s| - 1] + [s[|s| - 1]];
      InsertKeeps(s[..|s| - 1], x, key);
    }
  }

  lemma {:induction false} SortedSnoc<X>(s: seq<X>, x: X, key: X -> Key)
    requires Sorted(s, key) && forall i :: 0 <= i < |s| ==> KeyLe(key(s[i]), key(x))
    ensures Sorted(s + [x], key)
  {
  }

  lemma {:induction false} InsertSorts<X>(s: seq<X>, x: X, key: X -> Key)
    requires Sorted(s, key)
    ensures Sorted(Insert(s, x, key), key)
  {
    if s != [] {
      var n := |s| - 1;
      if KeyLe(key(s[n]), key(x)) {
        forall i | 0 <= i < |s| ensures KeyLe(key(s[i]), key(x)) {
          if i < n { KeyLeTrans(key(s[i]), key(s[n]), key(x)); }
        }
        SortedSnoc(s, x, key);
      } else {
        var r := Insert(s[..n], x, key);
        InsertSorts(s[..n], x, key);
        InsertKeeps(s[..n], x, key);
        KeyLeTotal(key(s[n]), key(x));
        forall i | 0 <= i < |r| ensures KeyLe(key(r[i]), key(s[n])) {
          assert r[i] in multiset(r);
          assert r[i] == x || r[i] in s[..n];
        }
        SortedSnoc(r, s[n], key);
      }
    }
  }

  lemma {:induction false} SortSorts<X>(s: seq<X>, key: X -> Key)
    ensures Sorted(SortBy(s, key), key) && multiset(SortBy(s, key)) == multiset(s)
  {
    if s != [] {
      var n := |s| - 1;
      SortSorts(s[..n], key);
      InsertSorts(SortBy(s[..n], key), s[n], key);
      InsertKeeps(SortBy(s[..n], key), s[n], key);
      assert s == s[..n] + [s[n]];
    }
  }

  ghost predicate TellApart<X(!new)>(s: seq<X>, key: X -> Key) {
    forall a, b :: a in s && b in s && key(a) == key(b) ==> a == b
  }

  lemma {:induction false} SameHead<X(!new)>(s: seq<X>, t: seq<X>, key: X -> Key)
    requires s != [] && Sorted(s, key) && Sorted(t, key) && multiset(s) == multiset(t) && TellApart(s, key)
    ensures t != [] && s[0] == t[0]
  {
    assert s[0] in multiset(t);
    assert t[0] in multiset(s);
    SortedHead(s, key, t[0]);
    SortedHead(t, key, s[0]);
    KeyLeTotal(key(s[0]), key(t[0]));
  }

  lemma {:induction false} TailMultiset<X>(s: seq<X>)
    requires s != []
    ensures multiset(s[1..]) == multiset(s) - multiset{s[0]}
  {
    assert s == [s[0]] + s[1..];
  }

  /** If keys tell elements apart, there is one sorted order. */
  lemma {:induction false} SortedIsUnique<X(!new)>(s: seq<X>, t: seq<X>, key: X -> Key)
    requires Sorted(s, key) && Sorted(t, key) && multiset(s) == multiset(t) && TellApart(s, key)
    ensures s == t
  {
    if s == [] {
      assert |t| == |multiset(t)| == 0;
    } else {
      SameHead(s, t, key);
      TailMultiset(s);
      TailMultiset(t);
      SortedIsUnique(s[1..], t[1..], key);
      assert s == [s[0]] + s[1..] && t == [t[0]] + t[1..];
    }
  }

  lemma {:induction false} SortedHead<X>(s: seq<X>, key: X -> Key, x: X)
    requires Sorted(s, key) && x in s
    ensures KeyLe(key(s[0]), key(x))
  {
    var i :| 0 <= i < |s| && s[i] == x;
    KeyLeTotal(key(x), key(x));
  }

  lemma {:induction false} DistinctMultiset<X>(s: seq<X>, x: X)
    requires NoDuplicates(s)
    ensures multiset(s)[x] == if x in s then 1 else 0
  {
    if s != [] {
      assert s == [s[0]] + s[1..];
      DistinctMultiset(s[1..], x);
    }
  }

  /** Text is ordered by the first character in which it differs; a prefix comes first. */
  lemma {:induction false} TextLessMeans(a: string, b: string)
    ensures TextLess(a, b) <==> exists i :: DiffersAt(a, b, i)
  {
    if TextLess(a, b) {
      var i := FirstDifference(a, b);
    }
    if i :| DiffersAt(a, b, i) { LessAt(a, b, i); }
  }

  predicate DiffersAt(a: string, b: string, i: int) {
    0 <= i <= |a| && i < |b| && a[..i] == b[..i] && (i == |a| || a[i] < b[i])
  }

  lemma {:induction false} FirstDifference(a: string, b: string) returns (i: nat)
    requires TextLess(a, b)
    ensures DiffersAt(a, b, i)
  {
    if a == [] || a[0] < b[0] {
      i := 0;
    } else {
      i := FirstDifference(a[1..], b[1..]);
      assert a[..i + 1] == [a[0]] + a[1..][..i] && b[..i + 1] == [b[0]] + b[1..][..i];
      i := i + 1;
    }
  }

  lemma {:induction false} LessAt(a: string, b: string, i: nat)
    requires DiffersAt(a, b, i)
    ensures TextLess(a, b)
  {
    if i > 0 {
      assert a[0] == a[..i][0] == b[..i][0] == b[0];
      assert a[1..][..i - 1] == a[..i][1..] && b[1..][..i - 1] == b[..i][1..];
      LessAt(a[1..], b[1..], i - 1);
    }
  }
}
