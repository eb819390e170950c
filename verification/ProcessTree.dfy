/** Closing a run's browsers: from a snapshot of every process and its parent, find the descendants of
    one controller and signal them deepest first. The snapshot may be torn, so a parent chain may end
    anywhere, or run in a circle. */
module ProcessTree {
  import opened Wrappers

  type Pid = nat

  /** The chain of parents from `pid` first meets the controller after `k` steps, never passing
      pid 1 and never ending before. */
  predicate Reaches(parents: map<Pid, Pid>, controller: Pid, pid: Pid, k: nat)
    decreases k
  {
    && k > 0 && pid in parents && parents[pid] != 0 && parents[pid] != 1
    && if parents[pid] == controller then k == 1 else Reaches(parents, controller, parents[pid], k - 1)
  }

  lemma {:induction false} OneDistance(parents: map<Pid, Pid>, c: Pid, pid: Pid, j: nat, k: nat)
    requires Reaches(parents, c, pid, j) && Reaches(parents, c, pid, k)
    ensures j == k
    decreases j
  {
    if parents[pid] != c { OneDistance(parents, c, parents[pid], j - 1, k - 1); }
  }

  /** The processes on the chain, the controller left out. */
  function Line(parents: map<Pid, Pid>, c: Pid, pid: Pid, k: nat): set<Pid>
    requires Reaches(parents, c, pid, k)
    decreases k
  {
    if k == 1 then {pid} else {pid} + Line(parents, c, parents[pid], k - 1)
  }

  ghost predicate ReachesWithin(parents: map<Pid, Pid>, c: Pid, pid: Pid, k: nat) {
    exists j: nat :: j <= k && Reaches(parents, c, pid, j)
  }

  lemma {:induction false} LineReaches(parents: map<Pid, Pid>, c: Pid, pid: Pid, k: nat, x: Pid)
    requires Reaches(parents, c, pid, k) && x in Line(parents, c, pid, k)
    ensures ReachesWithin(parents, c, x, k) && x in parents
    decreases k
  {
    if x != pid {
      LineReaches(parents, c, parents[pid], k - 1, x);
      var j: nat :| j <= k - 1 && Reaches(parents, c, x, j);
    }
  }

  /** A chain that reaches the controller never repeats a process, so it is no longer than the snapshot. */
  lemma {:induction false} ChainIsShort(parents: map<Pid, Pid>, c: Pid, pid: Pid, k: nat)
    requires Reaches(parents, c, pid, k)
    ensures Line(parents, c, pid, k) <= parents.Keys && |Line(parents, c, pid, k)| == k
    decreases k
  {
    if k > 1 {
      var rest := Line(parents, c, parents[pid], k - 1);
      ChainIsShort(parents, c, parents[pid], k - 1);
      if pid in rest {
        LineReaches(parents, c, parents[pid], k - 1, pid);
        var j: nat :| j <= k - 1 && Reaches(parents, c, pid, j);
        OneDistance(parents, c, pid, j, k);
      }
    }
  }

  lemma DistanceBound(parents: map<Pid, Pid>, c: Pid, pid: Pid, k: nat)
    requires Reaches(parents, c, pid, k)
    ensures k <= |parents|
  {
    ChainIsShort(parents, c, pid, k);
    SubsetSize(Line(parents, c, pid, k), parents.Keys);
    assert |parents.Keys| == |parents|;
  }

  lemma {:induction false} SubsetSize<T>(a: set<T>, b: set<T>)
    requires a <= b
    ensures |a| <= |b|
    decreases |a|
  {
    if a != {} {
      var x :| x in a;
      SubsetSize(a - {x}, b - {x});
    }
  }

  /** The walk from one process: it ends on every snapshot, and finds the controller exactly when the
      chain reaches it, at its true distance. */
  method Distance(parents: map<Pid, Pid>, controller: Pid, pid: Pid) returns (found: Option<nat>)
    ensures forall k: nat :: found == Some(k) <==> Reaches(parents, controller, pid, k)
  {
    var parent := if pid in parents then parents[pid] else 0;
    var depth: nat := 0;
    ghost var at := pid;
    while parent != 0 && parent != 1 && depth < |parents|
      decreases |parents| - depth
      invariant depth <= |parents|
      invariant parent == if at in parents then parents[at] else 0
      invariant forall k: nat :: Reaches(parents, controller, pid, k) <==> k > depth && Reaches(parents, controller, at, k - depth)
    {
      depth := depth + 1;
      if parent == controller {
        found := Some(depth);
        assert Reaches(parents, controller, at, 1);
        forall k: nat | Reaches(parents, controller, pid, k) ensures k == depth {}
        return;
      }
      at := parent;
      parent := if parent in parents then parents[parent] else 0;
    }
    found := None;
    forall k: nat ensures !Reaches(parents, controller, pid, k) {
      if Reaches(parents, controller, pid, k) { DistanceBound(parents, controller, pid, k); }
    }
  }

  datatype Found = Found(pid: Pid, depth: nat)

  /** One more process in its place: after every one at least as deep. */
  function Placed(found: seq<Found>, f: Found): seq<Found> {
    if found == [] || found[|found| - 1].depth >= f.depth then found + [f]
    else Placed(found[..|found| - 1], f) + [found[|found| - 1]]
  }

  ghost predicate DeepestFirst(found: seq<Found>) {
    forall i, j :: 0 <= i < j < |found| ==> found[i].depth >= found[j].depth
  }

  lemma {:induction false} PlacedSame(found: seq<Found>, f: Found)
    ensures multiset(Placed(found, f)) == multiset(found) + multiset{f}
  {
    if found != [] && found[|found| - 1].depth < f.depth {
      PlacedSame(found[..|found| - 1], f);
      assert found == found[..|found| - 1] + [found[|found| - 1]];
    }
  }

  ghost predicate AtLeast(found: seq<Found>, d: nat) {
    forall i :: 0 <= i < |found| ==> found[i].depth >= d
  }

  lemma {:induction false} PlacedAtLeast(found: seq<Found>, f: Found, d: nat)
    requires AtLeast(found, d) && f.depth >= d
    ensures AtLeast(Placed(found, f), d)
  {
    if found != [] && found[|found| - 1].depth < f.depth { PlacedAtLeast(found[..|found| - 1], f, d); }
  }

  lemma {:induction false} PlacedKeeps(found: seq<Found>, f: Found)
    requires DeepestFirst(found)
    ensures DeepestFirst(Placed(found, f))
  {
    if found != [] && found[|found| - 1].depth < f.depth {
      PlacedKeeps(found[..|found| - 1], f);
      PlacedAtLeast(found[..|found| - 1], f, found[|found| - 1].depth);
    }
  }

  /** The stable sort by depth, deepest first. */
  method SortDeepestFirst(found: seq<Found>) returns (sorted: seq<Found>)
    ensures DeepestFirst(sorted) && multiset(sorted) == multiset(found)
  {
    sorted := [];
    var i := 0;
    while i < |found|
      invariant 0 <= i <= |found| && DeepestFirst(sorted) && multiset(sorted) == multiset(found[..i])
    {
      PlacedKeeps(sorted, found[i]);
      PlacedSame(sorted, found[i]);
      sorted := Placed(sorted, found[i]);
      assert found[..i + 1] == found[..i] + [found[i]];
      i := i + 1;
    }
    assert found[..i] == found;
  }

  /** `a` lies on the chain from `b` to the controller. */
  ghost predicate Above(parents: map<Pid, Pid>, c: Pid, a: Pid, b: Pid) {
    exists k: nat :: Reaches(parents, c, b, k) && a != b && a in Line(parents, c, b, k)
  }

  lemma {:induction false} OnLine(parents: map<Pid, Pid>, c: Pid, x: Pid, pid: Pid, k: nat)
    requires Reaches(parents, c, pid, k) && x in Line(parents, c, pid, k) && x != pid
    ensures exists j: nat :: j < k && Reaches(parents, c, x, j)
    decreases k
  {
    if k > 1 && x != parents[pid] { OnLine(parents, c, x, parents[pid], k - 1); }
  }

  lemma DeeperThanAncestors(parents: map<Pid, Pid>, c: Pid, a: Pid, b: Pid, i: nat, j: nat)
    requires Above(parents, c, a, b) && Reaches(parents, c, a, i) && Reaches(parents, c, b, j)
    ensures i < j
  {
    var k: nat :| Reaches(parents, c, b, k) && a != b && a in Line(parents, c, b, k);
    OneDistance(parents, c, b, j, k);
    OnLine(parents, c, a, b, k);
    var l: nat :| l < k && Reaches(parents, c, a, l);
    OneDistance(parents, c, a, i, l);
  }

  ghost predicate Distinct<T>(s: seq<T>) {
    forall i, j :: 0 <= i < j < |s| ==> s[i] != s[j]
  }

  /** The whole closing: the controller first, then exactly its descendants, each once, and every one
      before its own ancestors below the controller. `order` is the snapshot's own order. */
  method SignalTree(parents: map<Pid, Pid>, order: seq<Pid>, controller: Pid) returns (signalled: seq<Pid>)
    requires Distinct(order) && forall p :: p in order <==> p in parents
    ensures |signalled| > 0 && signalled[0] == controller && Distinct(signalled)
    ensures forall p :: p in signalled <==> p == controller || Below(parents, controller, p)
    ensures forall i, j :: 1 <= i < j < |signalled| ==> !Above(parents, controller, signalled[i], signalled[j])
  {
    hide Reaches; hide Above; hide Below; hide DeepestFirst; hide Distinct; hide Descendants;
    var found := FindDescendants(parents, order, controller);
    var sorted := SortDeepestFirst(found);
    signalled := [controller] + Pids(sorted);
    SamePresence(found, sorted);
    SameDescendants(parents, controller, found, sorted);
    SignalledOnce(parents, controller, sorted);
    SignalledOrder(parents, controller, sorted);
    SignalledExactly(parents, controller, sorted);
  }

  /** `pid` is a descendant of the controller. */
  ghost predicate Below(parents: map<Pid, Pid>, c: Pid, pid: Pid) {
    exists k: nat :: Reaches(parents, c, pid, k)
  }

  lemma SignalledExactly(parents: map<Pid, Pid>, c: Pid, sorted: seq<Found>)
    requires Descendants(parents, c, sorted)
    requires forall p, k: nat :: p != c && Reaches(parents, c, p, k) ==> Found(p, k) in sorted
    ensures forall p :: p in [c] + Pids(sorted) <==> p == c || Below(parents, c, p)
  {
    hide Reaches;
    var s := [c] + Pids(sorted);
    assert s[0] == c;
    forall p | p != c && Below(parents, c, p) ensures p in s {
      var k: nat :| Reaches(parents, c, p, k);
      var at :| 0 <= at < |sorted| && sorted[at] == Found(p, k);
      assert s[at + 1] == p;
    }
    forall p | p in s && p != c ensures Below(parents, c, p) {
      var at :| 0 <= at < |s| && s[at] == p;
      assert sorted[at - 1] in sorted && Reaches(parents, c, p, sorted[at - 1].depth);
    }
  }

  /** The walks: every descendant, at its distance, once. */
  method FindDescendants(parents: map<Pid, Pid>, order: seq<Pid>, controller: Pid) returns (found: seq<Found>)
    requires Distinct(order) && forall p :: p in order <==> p in parents
    ensures Distinct(found) && Descendants(parents, controller, found)
    ensures forall p, k: nat :: p != controller && Reaches(parents, controller, p, k) ==> Found(p, k) in found
  {
    found := [];
    var i := 0;
    while i < |order|
      invariant 0 <= i <= |order|
      invariant Distinct(found) && Descendants(parents, controller, found)
      invariant forall f :: f in found ==> f.pid in order[..i]
      invariant forall p, k: nat :: p in order[..i] && p != controller && Reaches(parents, controller, p, k) ==> Found(p, k) in found
    {
      hide Reaches;
      var pid := order[i];
      assert order[..i + 1] == order[..i] + [pid];
      if pid != controller {
        var d := Distance(parents, controller, pid);
        if d.Some? {
          assert pid !in order[..i];
          found := found + [Found(pid, d.value)];
        }
      }
      i := i + 1;
    }
    assert order[..i] == order;
    forall p, k: nat | p != controller && Reaches(parents, controller, p, k) ensures Found(p, k) in found {
      assert p in parents;
    }
  }

  /** A rearrangement holds the same things, each as often. */
  lemma SamePresence<T>(a: seq<T>, b: seq<T>)
    requires multiset(a) == multiset(b) && Distinct(a)
    ensures Distinct(b) && forall x :: x in a <==> x in b
  {
    CountsOne(a);
    forall x ensures x in a <==> x in b { assert x in multiset(a) <==> x in multiset(b); }
    forall i, j | 0 <= i < j < |b| ensures b[i] != b[j] {
      if b[i] == b[j] { CountsTwice(b, i, j); }
    }
  }

  lemma CountsTwice<T>(b: seq<T>, i: nat, j: nat)
    requires i < j < |b| && b[i] == b[j]
    ensures multiset(b)[b[i]] >= 2
  {
    assert b == b[..j] + [b[j]] + b[j + 1..];
    assert b[i] in b[..j];
  }

  lemma {:induction false} CountsOne<T>(a: seq<T>)
    requires Distinct(a)
    ensures forall x :: multiset(a)[x] <= 1
  {
    if a != [] {
      var init, last := a[..|a| - 1], a[|a| - 1];
      assert a == init + [last];
      CountsOne(init);
      assert last !in init;
    }
  }

  ghost predicate Descendants(parents: map<Pid, Pid>, c: Pid, sorted: seq<Found>) {
    forall f :: f in sorted ==> f.pid != c && Reaches(parents, c, f.pid, f.depth)
  }

  lemma SameDescendants(parents: map<Pid, Pid>, c: Pid, found: seq<Found>, sorted: seq<Found>)
    requires Descendants(parents, c, found) && forall x :: x in found <==> x in sorted
    ensures Descendants(parents, c, sorted)
  {}

  lemma SignalledOnce(parents: map<Pid, Pid>, c: Pid, sorted: seq<Found>)
    requires Distinct(sorted) && Descendants(parents, c, sorted)
    ensures Distinct([c] + Pids(sorted))
  {
    var s := [c] + Pids(sorted);
    forall i, j | 0 <= i < j < |s| ensures s[i] != s[j] {
      assert sorted[j - 1] in sorted;
      if i > 0 && s[i] == s[j] {
        assert sorted[i - 1] in sorted;
        OneDistance(parents, c, s[i], sorted[i - 1].depth, sorted[j - 1].depth);
      }
    }
  }

  lemma SignalledOrder(parents: map<Pid, Pid>, c: Pid, sorted: seq<Found>)
    requires DeepestFirst(sorted) && Descendants(parents, c, sorted)
    ensures var s := [c] + Pids(sorted); forall i, j :: 1 <= i < j < |s| ==> !Above(parents, c, s[i], s[j])
  {
    var s := [c] + Pids(sorted);
    forall i, j | 1 <= i < j < |s| ensures !Above(parents, c, s[i], s[j]) {
      var a, b := sorted[i - 1], sorted[j - 1];
      assert a in sorted && b in sorted && s[i] == a.pid && s[j] == b.pid;
      if Above(parents, c, a.pid, b.pid) { DeeperThanAncestors(parents, c, a.pid, b.pid, a.depth, b.depth); }
    }
  }

  function Pids(found: seq<Found>): (pids: seq<Pid>)
    ensures |pids| == |found| && forall i :: 0 <= i < |found| ==> pids[i] == found[i].pid
  {
    seq(|found|, i requires 0 <= i < |found| => found[i].pid)
  }
}
