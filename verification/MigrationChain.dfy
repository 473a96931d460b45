/** The migration-chain validator, `_validate_chain` of scripts/rewrite_alembic_revisions.py. */
module MigrationChain {
  import opened Common

  /** A version file: `down` is None if the file has no such assignment, Some(None) if the
      assigned literal is `None`. */
  datatype Migration = Migration(name: string, revision: Option<string>, down: Option<Option<string>>)

  datatype ChainError =
    | MissingRevision(name: string)
    | MissingDownRevision(name: string)
    | DuplicateRevision(revision: string)
    | FilenameMismatch(revision: string, name: string)
    | MissingTarget(target: string, revision: string)
    | RootCount(found: nat)
    | HeadCount(found: nat)
    | Cycle(revision: string)
    | Unreachable(missing: set<string>)

  type Graph = map<string, Option<string>>

  // ----- What the validator is for -----

  predicate Follows(g: Graph, chain: seq<string>, i: nat)
    requires 0 < i < |chain|
  {
    chain[i] in g && g[chain[i]] == Some(chain[i - 1])
  }

  ghost predicate IsChain(g: Graph, chain: seq<string>) {
    && chain != [] && NoDuplicates(chain)
    && (forall r :: r in g <==> r in chain)
    && g[chain[0]] == None
    && (forall i :: 0 < i < |chain| ==> Follows(g, chain, i))
  }

  /** One line from a single root: each revision's parent is its predecessor. */
  ghost predicate Linear(g: Graph) { exists chain :: IsChain(g, chain) }

  predicate Parsed(f: Migration) { f.revision.Some? && f.down.Some? }

  predicate WellNamed(f: Migration) { Parsed(f) && f.name == f.revision.value + ".py" }

  predicate DistinctRevisions(files: seq<Migration>) {
    forall i, j :: 0 <= i < j < |files| ==> files[i].revision != files[j].revision
  }

  function GraphOf(files: seq<Migration>): Graph {
    if files == [] then map[]
    else
      var f := files[|files| - 1];
      if Parsed(f) then GraphOf(files[..|files| - 1])[f.revision.value := f.down.value]
      else GraphOf(files[..|files| - 1])
  }

  ghost predicate ValidChain(files: seq<Migration>) {
    (forall i :: 0 <= i < |files| ==> WellNamed(files[i])) && DistinctRevisions(files) && Linear(GraphOf(files))
  }

  // ----- Walking parents -----

  /** The k-th ancestor of r, if the walk gets that far. */
  function Up(g: Graph, r: string, k: nat): Option<string> {
    if k == 0 then Some(r)
    else
      var x := Up(g, r, k - 1);
      if x.Some? && x.value in g then g[x.value] else None
  }

  ghost predicate Ends(g: Graph, r: string) { exists k: nat :: Up(g, r, k).None? }

  lemma {:induction false} UpStep(g: Graph, r: string, k: nat)
    requires r in g && g[r].Some?
    ensures Up(g, r, k + 1) == Up(g, g[r].value, k)
  {
    if k > 0 { UpStep(g, r, k - 1); }
  }

  lemma {:induction false} UpStaysNone(g: Graph, r: string, i: nat, j: nat)
    requires i <= j && Up(g, r, i).None?
    ensures Up(g, r, j).None?
    decreases j
  {
    if i < j { UpStaysNone(g, r, i, j - 1); }
  }

  lemma {:induction false} UpShift(g: Graph, r: string, i: nat, j: nat, t: nat)
    requires Up(g, r, i) == Up(g, r, j)
    ensures Up(g, r, i + t) == Up(g, r, j + t)
  {
    if t > 0 { UpShift(g, r, i, j, t - 1); }
  }

  /** A walk that comes back to where it was never ends. */
  lemma {:induction false} RepeatNeverEnds(g: Graph, r: string, i: nat, j: nat, k: nat)
    requires i < j && Up(g, r, i) == Up(g, r, j) && Up(g, r, i).Some?
    ensures Up(g, r, k).Some?
    decreases k
  {
    if k <= j {
      if Up(g, r, k).None? { UpStaysNone(g, r, k, j); }
    } else {
      UpShift(g, r, i, j, k - j);
      RepeatNeverEnds(g, r, i, j, k - (j - i));
    }
  }

  // ----- The graph conditions are those of a line -----

  predicate Closed(g: Graph) { forall r :: r in g && g[r].Some? ==> g[r].value in g }

  function Roots(g: Graph): set<string> { set r | r in g && g[r].None? }

  function Targets(g: Graph): set<string> { set r | r in g && g[r].Some? :: g[r].value }

  function Heads(g: Graph): set<string> { set r | r in g && r !in Targets(g) }

  ghost predicate Acyclic(g: Graph) { forall r :: r in g ==> Ends(g, r) }

  ghost predicate Accepted(g: Graph) {
    Closed(g) && |Roots(g)| == 1 && |Heads(g)| == 1 && Acyclic(g)
  }

  /** The walk from x to the root, root first; each element sits at its own height. */
  ghost function Line(g: Graph, x: string, n: nat): (line: seq<string>)
    requires Closed(g) && x in g && Up(g, x, n).None?
    ensures line != [] && line[0] in g && g[line[0]].None? && line[|line| - 1] == x
    ensures forall i :: 0 <= i < |line| ==> line[i] in g && Up(g, line[i], i).Some? && Up(g, line[i], i + 1).None?
    ensures forall i :: 0 < i < |line| ==> Follows(g, line, i)
    decreases n
  {
    if g[x].None? then
      assert Up(g, x, 1).None?;
      [x]
    else
      UpStep(g, x, n - 1);
      var rest := Line(g, g[x].value, n - 1);
      UpStep(g, x, |rest| - 1);
      UpStep(g, x, |rest|);
      assert forall i :: 0 < i < |rest| ==> Follows(g, rest, i) ==> Follows(g, rest + [x], i);
      rest + [x]
  }

  lemma {:induction false} LineIsDistinct(g: Graph, line: seq<string>)
    requires forall i :: 0 <= i < |line| ==> Up(g, line[i], i).Some? && Up(g, line[i], i + 1).None?
    ensures NoDuplicates(line)
  {
    forall i, j | 0 <= i < j < |line| ensures line[i] != line[j] {
      if line[i] == line[j] { UpStaysNone(g, line[i], i + 1, j); }
    }
  }

  /** In an acyclic graph one bound ends every walk. */
  lemma {:induction false} WalkBound(g: Graph, keys: set<string>) returns (n: nat)
    requires Acyclic(g) && keys <= g.Keys
    ensures forall r :: r in keys ==> Up(g, r, n).None?
    decreases |keys|
  {
    if keys == {} {
      n := 0;
    } else {
      var r :| r in keys;
      var k: nat :| Up(g, r, k).None?;
      var m := WalkBound(g, keys - {r});
      n := if k < m then m else k;
      UpStaysNone(g, r, k, n);
      forall x | x in keys ensures Up(g, x, n).None? {
        if x != r { UpStaysNone(g, x, m, n); }
      }
    }
  }

  /** If the head's line missed a revision, children of missed revisions would climb for ever. */
  lemma {:induction false} OffLineClimbs(g: Graph, line: seq<string>, x: string, n: nat) returns (y: string)
    requires Accepted(g) && line != [] && Heads(g) == {line[|line| - 1]}
    requires line[0] in g && g[line[0]].None?
    requires forall i :: 0 < i < |line| ==> Follows(g, line, i)
    requires x in g && x !in line
    ensures y in g && y !in line && Up(g, y, n).Some?
  {
    if n == 0 {
      y := x;
    } else {
      var z := OffLineClimbs(g, line, x, n - 1);
      assert z !in Heads(g);
      y :| y in g && g[y] == Some(z);
      if y in line {
        var i :| 0 <= i < |line| && line[i] == y;
        assert i == 0 || Follows(g, line, i);
      }
      UpStep(g, y, n - 1);
    }
  }

  lemma {:induction false} AcceptedIsLinear(g: Graph)
    requires Accepted(g)
    ensures Linear(g)
  {
    SingletonElement(Heads(g));
    var head :| head in Heads(g);
    var n := WalkBound(g, g.Keys);
    var line := Line(g, head, n);
    LineIsDistinct(g, line);
    forall x | x in g ensures x in line {
      if x !in line {
        assert Heads(g) == {head};
        var y := OffLineClimbs(g, line, x, n);
      }
    }
    assert IsChain(g, line);
  }

  lemma {:induction false} SingletonElement<T>(s: set<T>)
    requires |s| == 1
    ensures exists x :: s == {x}
  {
    var x :| x in s;
    assert |s - {x}| == 0;
    assert s == {x};
  }

  lemma {:induction false} ChainWalk(g: Graph, chain: seq<string>, i: nat, k: nat)
    requires IsChain(g, chain) && i < |chain| && k <= i + 1
    ensures Up(g, chain[i], k) == if k <= i then Some(chain[i - k]) else None
  {
    if k > 0 {
      ChainWalk(g, chain, i, k - 1);
      assert k <= i ==> Follows(g, chain, i - k + 1);
    }
  }

  lemma {:induction false} LinearIsAccepted(g: Graph)
    requires Linear(g)
    ensures Accepted(g)
  {
    var chain :| IsChain(g, chain);
    forall r | r in g
      ensures Ends(g, r)
      ensures g[r].Some? ==> g[r].value in g
      ensures g[r].None? <==> r == chain[0]
      ensures r in Targets(g) <==> r != chain[|chain| - 1]
    {
      var i :| 0 <= i < |chain| && chain[i] == r;
      assert i == 0 || Follows(g, chain, i);
      ChainWalk(g, chain, i, i + 1);
      ChainTargets(g, chain, i);
    }
    assert Roots(g) == {chain[0]};
    assert Heads(g) == {chain[|chain| - 1]};
  }

  lemma {:induction false} ChainTargets(g: Graph, chain: seq<string>, i: nat)
    requires IsChain(g, chain) && i < |chain|
    ensures chain[i] in Targets(g) <==> i < |chain| - 1
  {
    if i < |chain| - 1 {
      assert Follows(g, chain, i + 1);
    }
    if chain[i] in Targets(g) {
      var r :| r in g && g[r] == Some(chain[i]);
      var j :| 0 <= j < |chain| && chain[j] == r;
      assert j == 0 || Follows(g, chain, j);
    }
  }

  // ----- The validator -----

  /** The parent walk from one revision; it ends on every graph, cyclic or dangling. */
  method Walk(g: Graph, r: string) returns (cycle: Option<string>, seen: set<string>)
    requires r in g
    ensures cycle.None? <==> Ends(g, r)
    ensures r in seen && seen <= g.Keys + Targets(g)
  {
    seen := {};
    var current := r;
    ghost var steps: nat := 0;
    while true
      invariant Up(g, r, steps) == Some(current) && current in g.Keys + Targets(g)
      invariant seen <= g.Keys + Targets(g) && (steps > 0 ==> r in seen)
      invariant forall x :: x in seen ==> exists i: nat :: i < steps && Up(g, r, i) == Some(x)
      decreases |g.Keys + Targets(g) - seen|
    {
      if current in seen {
        ghost var i: nat :| i < steps && Up(g, r, i) == Some(current);
        forall k: nat ensures Up(g, r, k).Some? { RepeatNeverEnds(g, r, i, steps, k); }
        return Some(current), seen;
      }
      assert current in g.Keys + Targets(g) - seen;
      seen := seen + {current};
      assert Up(g, r, 0) == Some(r);
      if current !in g || g[current].None? {
        assert Up(g, r, steps + 1).None?;
        return None, seen;
      }
      current := g[current].value;
      steps := steps + 1;
    }
  }

  /** Every file parses, is named after its revision, and repeats no earlier revision. */
  predicate Collectable(files: seq<Migration>) {
    files == [] ||
    var init, f := files[..|files| - 1], files[|files| - 1];
    Collectable(init) && WellNamed(f) && f.revision.value !in GraphOf(init)
  }

  lemma {:induction false} GraphKeys(files: seq<Migration>, r: string)
    ensures r in GraphOf(files) <==> exists i :: 0 <= i < |files| && Parsed(files[i]) && files[i].revision == Some(r)
  {
    if files != [] {
      var init, last := files[..|files| - 1], |files| - 1;
      GraphKeys(init, r);
      if r in GraphOf(init) {
        var i :| 0 <= i < |init| && Parsed(init[i]) && init[i].revision == Some(r);
        assert files[i] == init[i];
      }
      assert Parsed(files[last]) && files[last].revision == Some(r) ==> r in GraphOf(files);
    }
  }

  lemma {:induction false} CollectableExactly(files: seq<Migration>)
    ensures Collectable(files) <==> (forall i :: 0 <= i < |files| ==> WellNamed(files[i])) && DistinctRevisions(files)
  {
    if files != [] {
      var init, f := files[..|files| - 1], files[|files| - 1];
      CollectableExactly(init);
      if WellNamed(f) { GraphKeys(init, f.revision.value); }
      assert forall i :: 0 <= i < |init| ==> init[i] == files[i];
    }
  }

  /** First loop: collect the revisions, reporting files that do not parse, repeat a
      revision or are misnamed. */
  method Collect(files: seq<Migration>) returns (g: Graph, order: seq<string>, errors: seq<ChainError>)
    ensures forall r :: r in order <==> r in g
    ensures errors == [] <==> Collectable(files)
    ensures errors == [] ==> g == GraphOf(files)
  {
    g, order, errors := map[], [], [];
    for n := 0 to |files|
      invariant forall r :: r in order <==> r in g
      invariant errors == [] <==> Collectable(files[..n])
      invariant errors == [] ==> g == GraphOf(files[..n])
    {
      var f := files[n];
      assert files[..n + 1][..n] == files[..n];
      if f.revision.None? {
        errors := errors + [MissingRevision(f.name)];
        continue;
      }
      if f.down.None? {
        errors := errors + [MissingDownRevision(f.name)];
        continue;
      }
      var r := f.revision.value;
      if r in g {
        errors := errors + [DuplicateRevision(r)];
        continue;
      }
      g := g[r := f.down.value];
      order := order + [r];
      if f.name != r + ".py" {
        errors := errors + [FilenameMismatch(r, f.name)];
      }
    }
    assert files[..|files|] == files;
  }

  /** Second loop: parents that no file defines. */
  method CheckTargets(g: Graph, order: seq<string>) returns (errors: seq<ChainError>)
    requires forall r :: r in order <==> r in g
    ensures errors == [] <==> Closed(g)
  {
    errors := [];
    for n := 0 to |order|
      invariant errors == [] <==> forall i :: 0 <= i < n ==> g[order[i]].Some? ==> g[order[i]].value in g
    {
      var r := order[n];
      if g[r].Some? && g[r].value !in g {
        errors := errors + [MissingTarget(g[r].value, r)];
      }
    }
  }

  /** Last loop: a walk from every revision. */
  method CheckWalks(g: Graph, order: seq<string>) returns (errors: seq<ChainError>)
    requires forall r :: r in order <==> r in g
    ensures errors == [] ==> Acyclic(g)
    ensures Acyclic(g) && Closed(g) ==> errors == []
  {
    errors := [];
    var visited: set<string> := {};
    for n := 0 to |order|
      invariant errors == [] <==> forall i :: 0 <= i < n ==> Ends(g, order[i])
      invariant (forall i :: 0 <= i < n ==> order[i] in visited) && visited <= g.Keys + Targets(g)
    {
      var cycle, seen := Walk(g, order[n]);
      if cycle.Some? {
        errors := errors + [Cycle(cycle.value)];
      }
      visited := visited + seen;
    }
    assert Closed(g) ==> visited == g.Keys;
    if |visited| != |g| {
      errors := errors + [Unreachable(g.Keys - visited)];
    }
  }

  /** `_validate_chain`: no errors means one linear chain, and the other way round. */
  method ValidateChain(files: seq<Migration>) returns (errors: seq<ChainError>)
    ensures errors == [] <==> ValidChain(files)
  {
    var g, order, collected := Collect(files);
    var targets := CheckTargets(g, order);
    errors := collected + targets;
    if |Roots(g)| != 1 {
      errors := errors + [RootCount(|Roots(g)|)];
    }
    if |Heads(g)| != 1 {
      errors := errors + [HeadCount(|Heads(g)|)];
    }
    var walks := CheckWalks(g, order);
    errors := errors + walks;
    CollectableExactly(files);
    if Accepted(g) { AcceptedIsLinear(g); }
    if Linear(g) { LinearIsAccepted(g); }
  }

  // ----- The chain, said of the files -----

  /** The files in chain order, by position: a root first, and each one's down revision is the
      revision before it. */
  predicate FilesInLine(files: seq<Migration>, order: seq<nat>) {
    && |order| == |files| > 0 && NoDuplicates(order) && (forall i :: 0 <= i < |order| ==> order[i] < |files|)
    && files[order[0]].down == Some(None)
    && (forall i :: 0 < i < |order| ==> files[order[i]].down == Some(files[order[i - 1]].revision))
  }

  lemma {:induction false} GraphValue(files: seq<Migration>, i: nat)
    requires i < |files| && Parsed(files[i]) && DistinctRevisions(files)
    ensures files[i].revision.value in GraphOf(files) && GraphOf(files)[files[i].revision.value] == files[i].down.value
  {
    var n := |files| - 1;
    if i < n {
      assert files[..n][i] == files[i];
      GraphValue(files[..n], i);
    }
  }

  lemma {:induction false} FileOf(files: seq<Migration>, chain: seq<string>) returns (order: seq<nat>)
    requires forall i :: 0 <= i < |files| ==> Parsed(files[i])
    requires forall r :: r in chain ==> r in GraphOf(files)
    ensures |order| == |chain|
    ensures forall i :: 0 <= i < |chain| ==> order[i] < |files| && files[order[i]].revision == Some(chain[i])
    decreases |chain|
  {
    if chain == [] {
      order := [];
    } else {
      var n := |chain| - 1;
      assert chain[n] in chain && forall r :: r in chain[..n] ==> r in chain;
      order := FileOf(files, chain[..n]);
      GraphKeys(files, chain[n]);
      var k :| 0 <= k < |files| && Parsed(files[k]) && files[k].revision == Some(chain[n]);
      order := order + [k];
    }
  }

  lemma {:induction false} ChainHasAllFiles(files: seq<Migration>, chain: seq<string>)
    requires (forall i :: 0 <= i < |files| ==> Parsed(files[i])) && DistinctRevisions(files)
    requires NoDuplicates(chain) && forall r :: r in chain <==> r in GraphOf(files)
    ensures |chain| == |files|
  {
    var names := seq(|files|, i requires 0 <= i < |files| => files[i].revision.value);
    forall i, j | 0 <= i < j < |names| ensures names[i] != names[j] {
      assert files[i].revision != files[j].revision;
    }
    forall r ensures r in chain <==> r in names {
      GraphKeys(files, r);
      if r in names {
        var i :| 0 <= i < |names| && names[i] == r;
        assert files[i].revision == Some(r);
      }
      if r in GraphOf(files) {
        var i :| 0 <= i < |files| && Parsed(files[i]) && files[i].revision == Some(r);
        assert names[i] == r;
      }
    }
    SameSize(chain, names);
  }

  lemma {:induction false} SameSize<T>(a: seq<T>, b: seq<T>)
    requires NoDuplicates(a) && NoDuplicates(b) && forall x :: x in a <==> x in b
    ensures |a| == |b|
  {
    SetSize(a);
    SetSize(b);
    assert (set x | x in a) == (set x | x in b);
  }

  lemma {:induction false} SetSize<T>(a: seq<T>)
    requires NoDuplicates(a)
    ensures |set x | x in a| == |a|
  {
    if a != [] {
      var n := |a| - 1;
      SetSize(a[..n]);
      assert a == a[..n] + [a[n]];
      assert a[n] !in a[..n];
      assert (set x | x in a) == (set x | x in a[..n]) + {a[n]};
    }
  }

  lemma {:induction false} LineOfFiles(files: seq<Migration>, chain: seq<string>) returns (order: seq<nat>)
    requires (forall i :: 0 <= i < |files| ==> Parsed(files[i])) && DistinctRevisions(files) && IsChain(GraphOf(files), chain)
    ensures FilesInLine(files, order)
  {
    ChainHasAllFiles(files, chain);
    order := FileOf(files, chain);
    forall i | 0 <= i < |chain| ensures GraphOf(files)[chain[i]] == files[order[i]].down.value {
      assert chain[i] in chain;
      GraphValue(files, order[i]);
    }
    forall i, j | 0 <= i < j < |order| ensures order[i] != order[j] {
      assert chain[i] != chain[j];
    }
    forall i | 0 < i < |order| ensures files[order[i]].down == Some(files[order[i - 1]].revision) {
      assert Follows(GraphOf(files), chain, i);
    }
  }

  lemma {:induction false} ChainOfLine(files: seq<Migration>, order: seq<nat>)
    requires (forall i :: 0 <= i < |files| ==> Parsed(files[i])) && DistinctRevisions(files) && FilesInLine(files, order)
    ensures Linear(GraphOf(files))
  {
    var g := GraphOf(files);
    var chain := seq(|order|, i requires 0 <= i < |order| => files[order[i]].revision.value);
    forall i | 0 <= i < |chain| ensures chain[i] in g && g[chain[i]] == files[order[i]].down.value {
      GraphValue(files, order[i]);
    }
    forall i, j | 0 <= i < j < |chain| ensures chain[i] != chain[j] {
      var k, l := order[i], order[j];
      assert k != l;
      assert k < l ==> files[k].revision != files[l].revision;
      assert l < k ==> files[l].revision != files[k].revision;
    }
    forall r ensures r in g <==> r in chain {
      GraphKeys(files, r);
      if r in g {
        var k :| 0 <= k < |files| && Parsed(files[k]) && files[k].revision == Some(r);
        EveryPosition(order, k);
        var i :| 0 <= i < |order| && order[i] == k;
        assert chain[i] == r;
      }
    }
    forall i | 0 < i < |chain| ensures Follows(g, chain, i) {}
    assert IsChain(g, chain);
  }

  ghost function Below(n: nat): (s: set<nat>)
    ensures |s| == n && forall i: nat :: i in s <==> i < n
  {
    if n == 0 then {} else Below(n - 1) + {n - 1}
  }

  /** Distinct positions, as many as there are, are all of them. */
  lemma {:induction false} EveryPosition(order: seq<nat>, k: nat)
    requires NoDuplicates(order) && (forall i :: 0 <= i < |order| ==> order[i] < |order|) && k < |order|
    ensures k in order
  {
    var seen := set x | x in order;
    SetSize(order);
    assert seen <= Below(|order|);
    if k !in order { SmallerSubset(seen, Below(|order|), k); }
  }

  lemma {:induction false} SmallerSubset<T>(a: set<T>, b: set<T>, x: T)
    requires a <= b && x in b && x !in a
    ensures |a| < |b|
  {
    SubsetSize(a, b - {x});
  }

  lemma {:induction false} SubsetSize<T>(a: set<T>, b: set<T>)
    requires a <= b
    ensures |a| <= |b|
    decreases |a|
  {
    if a != {} {
      var y :| y in a;
      SubsetSize(a - {y}, b - {y});
    }
  }

  /** A valid chain, said of the files alone. */
  lemma {:induction false} ValidChainMeans(files: seq<Migration>)
    ensures ValidChain(files) <==>
            && (forall i :: 0 <= i < |files| ==>
                  files[i].revision.Some? && files[i].down.Some? && files[i].name == files[i].revision.value + ".py")
            && (forall i, j :: 0 <= i < j < |files| ==> files[i].revision != files[j].revision)
            && exists order :: FilesInLine(files, order)
  {
    if ValidChain(files) {
      var chain :| IsChain(GraphOf(files), chain);
      var order := LineOfFiles(files, chain);
    }
    if && (forall i :: 0 <= i < |files| ==> WellNamed(files[i])) && DistinctRevisions(files)
       && exists order :: FilesInLine(files, order) {
      var order :| FilesInLine(files, order);
      ChainOfLine(files, order);
    }
  }
}
