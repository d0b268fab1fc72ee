/**
  Merge bases (internal/lca/lca.go): breadth-first depths, the lowest common ancestor of
  two tips, and the commits on one side of a divergence.
*/
module Lca {
  import opened Dag
  import opened DagWalk

  /** `d` is the length of a shortest path from `tip` to `h`. */
  ghost predicate ShortestDepth(g: Graph, tip: Hash, h: Hash, d: nat) {
    && Steps(g, tip, h, d)
    && forall n: nat :: Steps(g, tip, h, n) ==> d <= n
  }

  /** Labels that relax every edge bound every path. */
  lemma {:induction false} RelaxedBounds(g: Graph, depths: map<Hash, nat>, from: Hash, to: Hash, n: nat)
    requires forall h, p :: h in depths && p in Parents(g, h) ==> p in depths && depths[p] <= depths[h] + 1
    requires from in depths && Steps(g, from, to, n)
    ensures to in depths && depths[to] <= depths[from] + n
    decreases n
  {
    if n > 0 {
      var p :| p in Parents(g, from) && Steps(g, p, to, n - 1);
      RelaxedBounds(g, depths, p, to, n - 1);
    }
  }

  lemma StepsExtend(g: Graph, a: Hash, b: Hash, p: Hash, n: nat)
    requires Steps(g, a, b, n) && p in Parents(g, b)
    ensures Steps(g, a, p, n + 1)
  {
    assert Steps(g, p, p, 0);
    assert Steps(g, b, p, 1);
    StepsTrans(g, a, b, p, n, 1);
  }

  ghost function Depth(depths: map<Hash, nat>, h: Hash): nat {
    if h in depths then depths[h] else 0
  }

  /** Every label is the length of a real path from the tip. */
  ghost predicate Labelled(g: Graph, tip: Hash, depths: map<Hash, nat>) {
    && tip in depths && depths[tip] == 0
    && (forall h :: h in depths ==> Steps(g, tip, h, Depth(depths, h)))
  }

  lemma LabelledInAnc(g: Graph, tip: Hash, depths: map<Hash, nat>)
    requires Labelled(g, tip, depths)
    ensures depths.Keys <= Anc(g, tip)
  {
    forall h | h in depths
      ensures h in Anc(g, tip)
    {
      AncIsReach(g, tip, h);
    }
  }

  /** Depths along the queue never fall. */
  ghost predicate Ordered(depths: map<Hash, nat>, queue: seq<Hash>) {
    && NoDup(queue) && Elems(queue) <= depths.Keys
    && (forall i, j :: 0 <= i < j < |queue| ==> Depth(depths, queue[i]) <= Depth(depths, queue[j]))
  }

  ghost predicate Relaxed(depths: map<Hash, nat>, h: Hash, p: Hash) {
    p in depths && Depth(depths, p) <= Depth(depths, h) + 1
  }

  /** What has left the queue, `busy` aside, has relaxed all its edges. */
  ghost predicate Settled(g: Graph, depths: map<Hash, nat>, queue: seq<Hash>, busy: set<Hash>) {
    forall x, p :: x in depths && x !in queue && x !in busy && p in Parents(g, x) ==> Relaxed(depths, x, p)
  }

  /** A breadth-first walk between two turns: all labels are at most one level above the queue's head. */
  ghost predicate Walking(g: Graph, tip: Hash, depths: map<Hash, nat>, queue: seq<Hash>) {
    && Labelled(g, tip, depths) && Ordered(depths, queue) && Settled(g, depths, queue, {})
    && (queue != [] ==> forall h :: h in depths ==> Depth(depths, h) <= Depth(depths, queue[0]) + 1)
  }

  /** The same walk while `h`, taken off the queue, has had its first `i` parents looked at. */
  ghost predicate Expanding(g: Graph, tip: Hash, depths: map<Hash, nat>, queue: seq<Hash>, h: Hash, i: nat) {
    && Labelled(g, tip, depths) && Ordered(depths, queue) && Settled(g, depths, queue, {h})
    && Around(g, depths, queue, h, i)
  }

  ghost predicate Around(g: Graph, depths: map<Hash, nat>, queue: seq<Hash>, h: Hash, i: nat) {
    && h in depths && h !in queue && i <= |Parents(g, h)|
    && (forall q :: q in queue ==> Depth(depths, h) <= Depth(depths, q))
    && (forall x :: x in depths ==> Depth(depths, x) <= Depth(depths, h) + 1)
    && (forall j :: 0 <= j < i ==> Relaxed(depths, h, Parents(g, h)[j]))
  }

  lemma ExpandStart(g: Graph, tip: Hash, depths: map<Hash, nat>, queue: seq<Hash>)
    requires Walking(g, tip, depths, queue) && queue != []
    ensures Expanding(g, tip, depths, queue[1..], queue[0], 0)
  {
    assert queue == [queue[0]] + queue[1..];
    assert queue[0] in Elems(queue);
  }

  /** Giving `p` its first label leaves the other labels alone and keeps each part of the walk. */
  lemma NewLabel(depths: map<Hash, nat>, p: Hash, d: nat)
    requires p !in depths
    ensures forall x :: x in depths ==> Depth(depths[p := d], x) == Depth(depths, x)
    ensures forall x, y :: x in depths && Relaxed(depths, x, y) ==> Relaxed(depths[p := d], x, y)
  {
  }

  lemma LabelledGrows(g: Graph, tip: Hash, depths: map<Hash, nat>, h: Hash, p: Hash)
    requires Labelled(g, tip, depths) && h in depths && p in Parents(g, h) && p !in depths
    ensures Labelled(g, tip, depths[p := depths[h] + 1])
  {
    StepsExtend(g, tip, h, p, depths[h]);
    var depths' := depths[p := depths[h] + 1];
    forall x | x in depths'
      ensures Steps(g, tip, x, Depth(depths', x))
    {
      assert x in depths ==> Steps(g, tip, x, Depth(depths, x));
    }
  }

  lemma OrderedGrows(depths: map<Hash, nat>, queue: seq<Hash>, p: Hash, d: nat)
    requires Ordered(depths, queue) && p !in depths
    requires forall q :: q in queue ==> Depth(depths, q) <= d
    ensures Ordered(depths[p := d], queue + [p])
  {
    assert Elems(queue + [p]) == Elems(queue) + {p};
    assert forall j :: 0 <= j < |queue| ==> queue[j] in Elems(queue);
  }

  lemma SettledGrows(g: Graph, depths: map<Hash, nat>, queue: seq<Hash>, h: Hash, p: Hash, d: nat)
    requires Settled(g, depths, queue, {h}) && p !in depths
    ensures Settled(g, depths[p := d], queue + [p], {h})
  {
    var depths' := depths[p := d];
    forall x, y | x in depths' && x !in queue + [p] && x !in {h} && y in Parents(g, x)
      ensures Relaxed(depths', x, y)
    {
      assert x != p by {
        assert p == (queue + [p])[|queue|];
      }
      assert x !in queue by {
        assert forall q :: q in queue ==> q in queue + [p];
      }
      assert Relaxed(depths, x, y);
    }
  }

  lemma AroundGrows(g: Graph, depths: map<Hash, nat>, queue: seq<Hash>, h: Hash, i: nat)
    requires Around(g, depths, queue, h, i) && i < |Parents(g, h)| && Parents(g, h)[i] !in depths
    ensures Around(g, depths[Parents(g, h)[i] := depths[h] + 1], queue + [Parents(g, h)[i]], h, i + 1)
  {
    var ps := Parents(g, h);
    var p, d := ps[i], depths[h] + 1;
    NewLabel(depths, p, d);
    forall j | 0 <= j < i + 1
      ensures Relaxed(depths[p := d], h, ps[j])
    {
      assert j < i ==> Relaxed(depths, h, ps[j]);
    }
    assert forall q :: q in queue + [p] <==> q in queue || q == p;
  }

  lemma ExpandNew(g: Graph, tip: Hash, depths: map<Hash, nat>, queue: seq<Hash>, h: Hash, i: nat)
    requires Expanding(g, tip, depths, queue, h, i) && i < |Parents(g, h)| && Parents(g, h)[i] !in depths
    ensures Expanding(g, tip, depths[Parents(g, h)[i] := depths[h] + 1], queue + [Parents(g, h)[i]], h, i + 1)
  {
    var p, d := Parents(g, h)[i], depths[h] + 1;
    LabelledGrows(g, tip, depths, h, p);
    assert forall q :: q in queue ==> q in Elems(queue);
    OrderedGrows(depths, queue, p, d);
    SettledGrows(g, depths, queue, h, p, d);
    AroundGrows(g, depths, queue, h, i);
  }

  lemma ExpandOld(g: Graph, tip: Hash, depths: map<Hash, nat>, queue: seq<Hash>, h: Hash, i: nat)
    requires Expanding(g, tip, depths, queue, h, i) && i < |Parents(g, h)| && Parents(g, h)[i] in depths
    ensures Expanding(g, tip, depths, queue, h, i + 1)
  {
  }

  lemma ExpandDone(g: Graph, tip: Hash, depths: map<Hash, nat>, queue: seq<Hash>, h: Hash)
    requires Expanding(g, tip, depths, queue, h, |Parents(g, h)|)
    ensures Walking(g, tip, depths, queue)
  {
    assert forall p :: p in Parents(g, h) ==> Relaxed(depths, h, p);
    assert queue != [] ==> queue[0] in Elems(queue);
  }

  /** ancestorDepths: the distance of every ancestor from the tip. */
  method AncestorDepths(g: Graph, tip: Hash) returns (depths: map<Hash, nat>)
    ensures depths.Keys == Anc(g, tip)
    ensures forall h :: h in depths ==> ShortestDepth(g, tip, h, depths[h])
  {
    depths := map[tip := 0];
    var queue := [tip];
    AncSelf(g, tip);
    while |queue| > 0
      invariant Walking(g, tip, depths, queue)
      decreases Anc(g, tip) - depths.Keys, |queue|
    {
      ExpandStart(g, tip, depths, queue);
      LabelledInAnc(g, tip, depths);
      ghost var known := depths.Keys;
      depths, queue := Expand(g, tip, depths, queue[1..], queue[0]);
      LabelledInAnc(g, tip, depths);
    }
    DepthsExact(g, tip, depths);
  }

  /** The inner loop: the parents of `h` that have no depth yet get one and join the queue. */
  method Expand(g: Graph, ghost tip: Hash, depths0: map<Hash, nat>, queue0: seq<Hash>, h: Hash)
    returns (depths: map<Hash, nat>, queue: seq<Hash>)
    requires Expanding(g, tip, depths0, queue0, h, 0)
    ensures Walking(g, tip, depths, queue)
    ensures depths0.Keys <= depths.Keys && (depths.Keys == depths0.Keys ==> |queue| == |queue0|)
  {
    depths, queue := depths0, queue0;
    var ps := Parents(g, h);
    for i := 0 to |ps|
      invariant Expanding(g, tip, depths, queue, h, i)
      invariant depths0.Keys <= depths.Keys && (depths.Keys == depths0.Keys ==> |queue| == |queue0|)
    {
      if ps[i] !in depths {
        ExpandNew(g, tip, depths, queue, h, i);
        depths := depths[ps[i] := depths[h] + 1];
        queue := queue + [ps[i]];
      } else {
        ExpandOld(g, tip, depths, queue, h, i);
      }
    }
    ExpandDone(g, tip, depths, queue, h);
  }

  lemma DepthsExact(g: Graph, tip: Hash, depths: map<Hash, nat>)
    requires Walking(g, tip, depths, [])
    ensures depths.Keys == Anc(g, tip)
    ensures forall h :: h in depths ==> ShortestDepth(g, tip, h, depths[h])
  {
    LabelledInAnc(g, tip, depths);
    assert forall h, p :: h in depths && p in Parents(g, h) ==> Relaxed(depths, h, p);
    forall h, n: nat | Steps(g, tip, h, n)
      ensures h in depths && depths[h] <= n
    {
      RelaxedBounds(g, depths, tip, h, n);
    }
  }

  /** The inner scan of reaches: `i` parents of `h` looked at, `h` already seen. */
  ghost predicate Scanning(g: Graph, all: set<Hash>, seen: set<Hash>, stack: seq<Hash>, h: Hash, i: nat) {
    && seen <= all && Closed(g, all) && Elems(stack) <= seen && h in seen
    && i <= |Parents(g, h)|
    && (forall j :: 0 <= j < i ==> Parents(g, h)[j] in seen)
    && (forall x, p :: x in seen && x !in stack && x != h && p in Parents(g, x) ==> p in seen)
  }

  lemma ScanPush(g: Graph, all: set<Hash>, seen: set<Hash>, stack: seq<Hash>, h: Hash, i: nat)
    requires Scanning(g, all, seen, stack, h, i) && i < |Parents(g, h)|
    ensures var p := Parents(g, h)[i];
      Scanning(g, all, if p in seen then seen else seen + {p}, if p in seen then stack else stack + [p], h, i + 1)
  {
    var p := Parents(g, h)[i];
    assert p in Parents(g, h);
    assert forall x :: x in stack + [p] <==> x in stack || x == p;
  }

  /** reaches: is `target` an ancestor of `start`? Everything on the stack is already seen. */
  method Reaches(g: Graph, start: Hash, target: Hash) returns (r: bool)
    ensures r <==> Reach(g, start, target)
  {
    ReachSelf(g, start);
    if start == target { return true; }
    var seen, stack := {start}, [start];
    AncRoom(g, start);
    ghost var all := Anc(g, start);
    while |stack| > 0
      invariant start in seen && target !in seen && Elems(stack) <= seen <= all
      invariant forall x, p :: x in seen && x !in stack && p in Parents(g, x) ==> p in seen
      decreases all - seen, |stack|
    {
      var h := stack[|stack| - 1];
      var ps := Parents(g, h);
      var rest := stack[..|stack| - 1];
      assert stack == rest + [h] && h in Elems(stack);
      ghost var known, left := seen, |rest|;
      stack := rest;
      for i := 0 to |ps|
        invariant Scanning(g, all, seen, stack, h, i)
        invariant known <= seen && target !in seen && (seen == known ==> |stack| == left)
      {
        ScanPush(g, all, seen, stack, h, i);
        var p := ps[i];
        if p in seen { continue; }
        if p == target {
          AncIsReach(g, start, target);
          return true;
        }
        seen := seen + {p};
        stack := stack + [p];
      }
    }
    assert Closed(g, seen);
    AncLeast(g, start, seen);
    AncIsReach(g, start, target);
    return false;
  }

  ghost function Common(g: Graph, a: Hash, b: Hash): set<Hash> {
    Anc(g, a) * Anc(g, b)
  }

  /** A common ancestor that no other common ancestor descends to. */
  ghost predicate Lowest(g: Graph, a: Hash, b: Hash, c: Hash) {
    && c in Common(g, a, b)
    && forall x :: x in Common(g, a, b) && x != c ==> !Reach(g, x, c)
  }

  ghost predicate Score(g: Graph, a: Hash, b: Hash, c: Hash, s: nat) {
    exists m: nat, n: nat :: ShortestDepth(g, a, c, m) && ShortestDepth(g, b, c, n) && s == m + n
  }

  /** The lowest common ancestor closest to both tips. */
  ghost predicate BestBase(g: Graph, a: Hash, b: Hash, c: Hash) {
    && Lowest(g, a, b, c)
    && forall x, s: nat, t: nat :: Lowest(g, a, b, x) && Score(g, a, b, c, s) && Score(g, a, b, x, t) ==> s <= t
  }

  lemma ScoreUnique(g: Graph, a: Hash, b: Hash, c: Hash, s: nat, t: nat)
    requires Score(g, a, b, c, s) && Score(g, a, b, c, t)
    ensures s == t
  {
    var m: nat, n: nat :| ShortestDepth(g, a, c, m) && ShortestDepth(g, b, c, n) && s == m + n;
    var k: nat, l: nat :| ShortestDepth(g, a, c, k) && ShortestDepth(g, b, c, l) && t == k + l;
  }

  /** A common ancestor that reaches all others is the only lowest one. */
  lemma OnlyLowest(g: Graph, a: Hash, b: Hash, c: Hash)
    requires Acyclic(g) && c in Common(g, a, b) && Common(g, a, b) <= Anc(g, c)
    ensures BestBase(g, a, b, c)
  {
    forall x | x in Common(g, a, b) && x != c
      ensures Reach(g, c, x) && !Reach(g, x, c)
    {
      AncIsReach(g, x, c);
      if Reach(g, x, c) {
        AncAntisym(g, x, c);
      }
    }
    forall s: nat, t: nat | Score(g, a, b, c, s) && Score(g, a, b, c, t)
      ensures s <= t
    {
      ScoreUnique(g, a, b, c, s, t);
    }
  }

  /** Disjoint histories aside, a lowest common ancestor exists. */
  lemma LowestExists(g: Graph, a: Hash, b: Hash) returns (c: Hash)
    requires Acyclic(g) && Common(g, a, b) != {}
    ensures Lowest(g, a, b, c)
  {
    c := NewestMember(g, Common(g, a, b));
    forall x | x in Common(g, a, b) && x != c
      ensures !Reach(g, x, c)
    {
      ProperIsReach(g, x, c);
    }
  }

  /** isAncestorOfAnother: does some other candidate descend from `cand`? */
  method IsAncestorOfAnother(g: Graph, common: seq<Hash>, cand: Hash) returns (r: bool)
    ensures r <==> exists x :: x in common && x != cand && Reach(g, x, cand)
  {
    for i := 0 to |common|
      invariant forall j :: 0 <= j < i && common[j] != cand ==> !Reach(g, common[j], cand)
    {
      if common[i] == cand { continue; }
      var reached := Reaches(g, common[i], cand);
      if reached { return true; }
    }
    return false;
  }

  /**
    Find: the merge base of two tips. With real tips it fails exactly when the histories
    are disjoint, and otherwise gives a lowest common ancestor that no other beats on the
    sum of its distances to the tips.
   */
  method Find(g: Graph, a: Hash, b: Hash) returns (r: Result<Hash>)
    requires Acyclic(g)
    ensures a == NIL ==> r == Ok(b)
    ensures a != NIL && b == NIL ==> r == Ok(a)
    ensures a != NIL && b != NIL ==>
      if Common(g, a, b) == {} then r.Err? else r.Ok? && BestBase(g, a, b, r.value)
    ensures r.Ok? && r.value == a && a != NIL && b != NIL ==> a in Anc(g, b)
    ensures a != NIL && b != NIL && a in Anc(g, b) ==> r == Ok(a)
    ensures a != NIL && b != NIL && b in Anc(g, a) ==> r == Ok(b)
  {
    AncSelf(g, a);
    AncSelf(g, b);
    if a == b {
      OnlyLowest(g, a, b, a);
      return Ok(a);
    }
    if a == NIL { return Ok(b); }
    if b == NIL { return Ok(a); }
    if a in Anc(g, b) && b in Anc(g, a) {
      AncAntisym(g, a, b);
    }
    var depthA := AncestorDepths(g, a);
    var depthB := AncestorDepths(g, b);
    if b in depthA {
      OnlyLowest(g, a, b, b);
      return Ok(b);
    }
    if a in depthB {
      OnlyLowest(g, a, b, a);
      return Ok(a);
    }
    var common := Listed(depthA.Keys * depthB.Keys);
    assert Elems(common) == Common(g, a, b);
    if |common| == 0 {
      assert Common(g, a, b) == {};
      return Err("no common ancestor");
    }
    assert common[0] in Elems(common);
    if |common| == 1 {
      AncSelf(g, common[0]);
      OnlyLowest(g, a, b, common[0]);
      return Ok(common[0]);
    }
    var lowest := LowestOf(g, a, b, common);
    var best := Closest(lowest, depthA, depthB);
    ScoresFromDepths(g, a, b, depthA, depthB, lowest, best);
    return Ok(best);
  }

  /** The candidates that no other candidate descends to. */
  method LowestOf(g: Graph, a: Hash, b: Hash, common: seq<Hash>) returns (lowest: seq<Hash>)
    requires Acyclic(g) && common != [] && Elems(common) == Common(g, a, b)
    ensures lowest != [] && forall x :: x in lowest <==> Lowest(g, a, b, x)
  {
    ghost var cs := Common(g, a, b);
    assert forall x :: x in common <==> x in cs;
    lowest := [];
    for i := 0 to |common|
      invariant forall x :: x in lowest <==> x in common[..i] && Lowest(g, a, b, x)
    {
      var beaten := IsAncestorOfAnother(g, common, common[i]);
      assert common[..i + 1] == common[..i] + [common[i]];
      assert common[i] in cs;
      if !beaten {
        lowest := lowest + [common[i]];
      }
    }
    assert common[..|common|] == common && common[0] in cs;
    ghost var least := LowestExists(g, a, b);
    assert least in cs;
  }

  /** The tie-break: the first candidate with the smallest summed distance to the tips. */
  method Closest(lowest: seq<Hash>, depthA: map<Hash, nat>, depthB: map<Hash, nat>) returns (best: Hash)
    requires lowest != [] && forall x :: x in lowest ==> x in depthA && x in depthB
    ensures best in lowest
    ensures forall x :: x in lowest ==> depthA[best] + depthB[best] <= depthA[x] + depthB[x]
  {
    best := lowest[0];
    for i := 1 to |lowest|
      invariant best in lowest
      invariant forall j :: 0 <= j < i ==> depthA[best] + depthB[best] <= depthA[lowest[j]] + depthB[lowest[j]]
    {
      if depthA[lowest[i]] + depthB[lowest[i]] < depthA[best] + depthB[best] {
        best := lowest[i];
      }
    }
  }

  lemma ScoresFromDepths(g: Graph, a: Hash, b: Hash, depthA: map<Hash, nat>, depthB: map<Hash, nat>,
                         lowest: seq<Hash>, best: Hash)
    requires depthA.Keys == Anc(g, a) && forall h :: h in depthA ==> ShortestDepth(g, a, h, depthA[h])
    requires depthB.Keys == Anc(g, b) && forall h :: h in depthB ==> ShortestDepth(g, b, h, depthB[h])
    requires forall x :: x in lowest <==> Lowest(g, a, b, x)
    requires best in lowest && best in Common(g, a, b)
    requires forall x :: x in lowest && x in Common(g, a, b) ==> depthA[best] + depthB[best] <= depthA[x] + depthB[x]
    ensures BestBase(g, a, b, best)
  {
    forall x, s: nat, t: nat | Lowest(g, a, b, x) && Score(g, a, b, best, s) && Score(g, a, b, x, t)
      ensures s <= t
    {
      assert Score(g, a, b, best, depthA[best] + depthB[best]);
      assert Score(g, a, b, x, depthA[x] + depthB[x]);
      ScoreUnique(g, a, b, best, s, depthA[best] + depthB[best]);
      ScoreUnique(g, a, b, x, t, depthA[x] + depthB[x]);
    }
  }

  /** A set in some order, as ranging over a map gives it. */
  method Listed<T(==)>(s: set<T>) returns (r: seq<T>)
    ensures Elems(r) == s && NoDup(r)
  {
    r := [];
    var rest := s;
    while rest != {}
      invariant rest <= s && Elems(r) == s - rest && NoDup(r)
      decreases rest
    {
      var x :| x in rest;
      assert x !in Elems(r);
      assert Elems(r + [x]) == Elems(r) + {x};
      r := r + [x];
      rest := rest - {x};
    }
  }

  /** IsAncestor: the all-zero address counts as an ancestor of everything. */
  method IsAncestor(g: Graph, anc: Hash, desc: Hash) returns (r: bool)
    ensures r <==> anc == NIL || Reach(g, desc, anc)
  {
    ReachSelf(g, desc);
    if anc == desc { return true; }
    if anc == NIL { return true; }
    var seen: set<Hash>, stack := {}, [desc];
    AncRoom(g, desc);
    ghost var all := Anc(g, desc);
    WalkStart(g, desc, all, {});
    while |stack| > 0
      invariant anc !in seen && Walk(g, desc, all, seen, stack)
      decreases all - seen, |stack|
    {
      var h := stack[|stack| - 1];
      var rest := stack[..|stack| - 1];
      assert stack == rest + [h];
      WalkTurn(g, desc, all, seen, stack, h, rest, Parents(g, h));
      stack := rest;
      if h == anc {
        AncIsReach(g, desc, anc);
        return true;
      }
      if h in seen { continue; }
      seen := seen + {h};
      stack := rest + Parents(g, h);
    }
    WalkEnd(g, desc, all, seen);
    AncIsReach(g, desc, anc);
    return false;
  }

  /**
    Diverged: the commits of `tip` that `base` does not reach, each once. A missing commit
    among them is an error. (`NIL` as a tip gives nothing; as a base it excludes nothing.)
   */
  method Diverged(g: Graph, base: Hash, tip: Hash) returns (r: Result<seq<Hash>>)
    ensures tip == NIL ==> r == Ok([])
    ensures tip != NIL ==>
      var reach := if base == NIL then {} else Anc(g, base);
      && (r.Err? <==> !(Anc(g, tip) - reach <= g.Keys))
      && (r.Ok? ==> NoDup(r.value) && Elems(r.value) == Anc(g, tip) - reach)
  {
    if tip == NIL { return Ok([]); }
    var baseReach: set<Hash> := {};
    if base != NIL {
      baseReach := MarkReachable(g, base, {});
    }
    AncRoom(g, tip);
    ghost var all := Anc(g, tip);
    r := DivergedFrom(g, tip, baseReach, all);
    assert r.Ok? ==> Elems(r.value) == all - baseReach;
    assert baseReach == if base == NIL then {} else Anc(g, base);
  }

  /** The second loop of Diverged, over any closed exclusion set. */
  method DivergedFrom(g: Graph, tip: Hash, baseReach: set<Hash>, ghost all: set<Hash>) returns (r: Result<seq<Hash>>)
    requires Closed(g, baseReach) && Closed(g, all) && tip in all
    ensures r.Err? ==> exists h :: h in all - baseReach && h !in g
    ensures r.Ok? ==> NoDup(r.value) && Anc(g, tip) - baseReach <= Elems(r.value) <= (all - baseReach) * g.Keys
  {
    var out: seq<Hash>, seen: set<Hash>, queue := [], {}, [tip];
    WalkStart(g, tip, all + baseReach, baseReach);
    while |queue| > 0
      invariant seen == Elems(out) && NoDup(out) && seen <= g.Keys && seen !! baseReach
      invariant Walk(g, tip, all + baseReach, seen + baseReach, queue)
      decreases all - seen, |queue|
    {
      var h := queue[0];
      var rest := queue[1..];
      assert queue == [h] + rest;
      var more := ParentsUnseen(g, h, seen + {h});
      WalkTurn(g, tip, all + baseReach, seen + baseReach, queue, h, rest, more);
      queue := rest;
      if h in seen || h in baseReach { continue; }
      assert Elems(out + [h]) == seen + {h};
      assert seen + baseReach + {h} == seen + {h} + baseReach;
      seen := seen + {h};
      out := out + [h];
      if h !in g { return Err("load commit"); }
      queue := rest + more;
    }
    WalkEnd(g, tip, all + baseReach, seen + baseReach);
    return Ok(out);
  }
}
