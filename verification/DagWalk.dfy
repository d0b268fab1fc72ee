/**
  The walks of internal/dag/dag.go over a commit graph.
*/
module DagWalk {
  import opened Dag

  ghost function Elems<T>(s: seq<T>): set<T> {
    set x | x in s
  }

  ghost predicate NoDup<T>(s: seq<T>) {
    forall i, j :: 0 <= i < j < |s| ==> s[i] != s[j]
  }

  lemma {:induction false} NoDupCard<T>(s: seq<T>)
    requires NoDup(s)
    ensures |Elems(s)| == |s|
  {
    if s == [] {
      assert Elems(s) == {};
    } else {
      NoDupCard(s[1..]);
      assert s == [s[0]] + s[1..];
      assert Elems(s) == {s[0]} + Elems(s[1..]);
      assert s[0] !in Elems(s[1..]);
    }
  }

  /** A work list that never loses a parent: what is seen and what is still to visit close the graph. */
  ghost predicate Frontier(g: Graph, tip: Hash, seen: set<Hash>, work: seq<Hash>) {
    && (tip in seen || tip in work)
    && (forall h, p :: h in seen && p in Parents(g, h) ==> p in seen || p in work)
  }

  /** Every ancestor not yet seen is reached from an unseen entry of the work list. */
  lemma {:induction false} FrontierCovers(g: Graph, seen: set<Hash>, work: seq<Hash>, from: Hash, x: Hash, n: nat)
    returns (q: Hash)
    requires forall h, p :: h in seen && p in Parents(g, h) ==> p in seen || p in work
    requires from in seen || from in work
    requires Steps(g, from, x, n) && x !in seen
    ensures q in work && q !in seen && Reach(g, q, x)
    decreases n
  {
    if from !in seen {
      q := from;
    } else {
      assert n > 0;
      var p :| p in Parents(g, from) && Steps(g, p, x, n - 1);
      q := FrontierCovers(g, seen, work, p, x, n - 1);
    }
  }

  /** A walk inside a closed set `all`: it stays inside and loses no parent. */
  ghost predicate Walk(g: Graph, tip: Hash, all: set<Hash>, seen: set<Hash>, work: seq<Hash>) {
    && Closed(g, all) && seen <= all && Elems(work) <= all
    && Frontier(g, tip, seen, work)
  }

  lemma WalkStart(g: Graph, tip: Hash, all: set<Hash>, seen: set<Hash>)
    requires Closed(g, all) && tip in all && seen <= all && Closed(g, seen)
    ensures Walk(g, tip, all, seen, [tip])
  {
  }

  /** Taking `h` off the list: skipped when seen, otherwise seen and its unseen parents put on. */
  lemma WalkTurn(g: Graph, tip: Hash, all: set<Hash>, seen: set<Hash>, work: seq<Hash>, h: Hash, rest: seq<Hash>,
                 more: seq<Hash>)
    requires Walk(g, tip, all, seen, work)
    requires forall q :: q in work <==> q in rest || q == h
    requires forall p :: p in more ==> p in Parents(g, h)
    requires forall p :: p in Parents(g, h) ==> p in more || p in seen || p == h
    ensures h in all
    ensures h in seen ==> Walk(g, tip, all, seen, rest)
    ensures Walk(g, tip, all, seen + {h}, rest + more)
  {
    assert h in work;
    assert forall q :: q in rest + more <==> q in rest || q in more;
    assert h in Elems(work);
  }

  lemma WalkEnd(g: Graph, tip: Hash, all: set<Hash>, seen: set<Hash>)
    requires Walk(g, tip, all, seen, [])
    ensures Closed(g, seen) && Anc(g, tip) <= seen
  {
    AncLeast(g, tip, seen);
  }

  /** The ancestors as a room to walk in. */
  lemma AncRoom(g: Graph, tip: Hash)
    ensures Closed(g, Anc(g, tip)) && tip in Anc(g, tip)
  {
    AncSelf(g, tip);
    AncClosed(g, tip);
  }

  /** markReachable: adds to `seen` exactly the ancestors of `tip`. */
  method MarkReachable(g: Graph, tip: Hash, seen0: set<Hash>) returns (seen: set<Hash>)
    requires Closed(g, seen0)
    ensures seen == seen0 + Anc(g, tip)
    ensures Closed(g, seen)
  {
    seen := seen0;
    var stack := [tip];
    AncRoom(g, tip);
    ghost var all := seen0 + Anc(g, tip);
    WalkStart(g, tip, all, seen0);
    while |stack| > 0
      invariant seen0 <= seen && Walk(g, tip, all, seen, stack)
      decreases all - seen, |stack|
    {
      var h := stack[|stack| - 1];
      var rest := stack[..|stack| - 1];
      assert stack == rest + [h];
      WalkTurn(g, tip, all, seen, stack, h, rest, Parents(g, h));
      stack := rest;
      if h !in seen {
        seen := seen + {h};
        stack := rest + Parents(g, h);
      }
    }
    WalkEnd(g, tip, all, seen);
  }

  /** Commit times never decrease from parent to child. */
  ghost predicate TimeOrdered(g: Graph) {
    forall h, p :: h in g && p in g[h].parents && p in g ==> g[p].timestamp <= g[h].timestamp
  }

  lemma {:induction false} TimeOrderedReach(g: Graph, a: Hash, b: Hash, n: nat)
    requires TimeOrdered(g) && Steps(g, a, b, n) && b in g
    ensures a in g && g[b].timestamp <= g[a].timestamp
    decreases n
  {
    if n > 0 {
      var p :| p in Parents(g, a) && Steps(g, p, b, n - 1);
      TimeOrderedReach(g, p, b, n - 1);
    }
  }

  function Time(g: Graph, h: Hash): int {
    if h in g then g[h].timestamp else 0
  }

  ghost predicate NewestFirst(g: Graph, out: seq<Hash>) {
    forall i, j :: 0 <= i < j < |out| ==> Time(g, out[j]) <= Time(g, out[i])
  }

  /** Nothing left out of the walk is newer than anything in it. */
  ghost predicate NewestTaken(g: Graph, all: set<Hash>, out: seq<Hash>) {
    forall y, x :: y in out && x in all * g.Keys && x !in out ==> Time(g, x) <= Time(g, y)
  }

  /** Taking a newest unseen ancestor next keeps both. */
  lemma NewestExtends(g: Graph, all: set<Hash>, out: seq<Hash>, h: Hash)
    requires NewestFirst(g, out) && NewestTaken(g, all, out)
    requires h in all * g.Keys && h !in out
    requires forall x :: x in all * g.Keys && x !in out ==> Time(g, x) <= Time(g, h)
    ensures NewestFirst(g, out + [h]) && NewestTaken(g, all, out + [h])
  {
    assert forall x :: x in out + [h] <==> x in out || x == h;
  }

  /** The index of the newest unseen entry of the queue, as the inner scan of WalkTipOrder finds it. */
  method NewestUnseen(g: Graph, queue: seq<Hash>, seen: set<Hash>) returns (r: Result<nat>)
    requires |queue| > 0
    ensures r.Err? <==> exists h :: h in queue && h !in seen && h !in g
    ensures r.Ok? ==> r.value < |queue|
    ensures r.Ok? && queue[r.value] in seen ==> Elems(queue) <= seen
    ensures r.Ok? && queue[r.value] !in seen ==>
      forall q :: q in queue && q !in seen ==> Time(g, q) <= Time(g, queue[r.value])
  {
    var best, found := 0, false;
    for i := 0 to |queue|
      invariant best < |queue|
      invariant found ==> best < i && queue[best] !in seen
      invariant forall j :: 0 <= j < i && queue[j] !in seen ==> queue[j] in g && found
      invariant found ==> forall j :: 0 <= j < i && queue[j] !in seen ==> Time(g, queue[j]) <= Time(g, queue[best])
      invariant !found ==> best == 0
    {
      if queue[i] in seen { continue; }
      if queue[i] !in g { return Err("missing commit"); }
      if !found || g[queue[i]].timestamp > g[queue[best]].timestamp {
        best, found := i, true;
      }
    }
    return Ok(best);
  }

  /**
    WalkTipOrder with limit 0 (everything) or a positive limit. It fails exactly when it
    meets a missing commit; a walk that ends below its limit holds every ancestor once.
   */
  method WalkTipOrder(g: Graph, tip: Hash, limit: nat) returns (r: Result<seq<Hash>>)
    ensures r.Err? ==> !Complete(g, tip)
    ensures r.Ok? ==> NoDup(r.value) && Elems(r.value) <= Anc(g, tip) * g.Keys
    ensures r.Ok? && limit > 0 ==> |r.value| <= limit
    ensures r.Ok? && (limit == 0 || |r.value| < limit || |Anc(g, tip)| <= limit) ==> Elems(r.value) == Anc(g, tip)
    ensures r.Ok? && TimeOrdered(g) ==> NewestFirst(g, r.value) && NewestTaken(g, Anc(g, tip), r.value)
  {
    var out: seq<Hash>, seen: set<Hash>, queue := [], {}, [tip];
    AncRoom(g, tip);
    ghost var all := Anc(g, tip);
    WalkStart(g, tip, all, {});
    while |queue| > 0
      invariant Picked(g, tip, all, seen, queue, out)
      invariant limit == 0 || |out| < limit
      decreases all - seen, |queue|
    {
      var b := NewestUnseen(g, queue, seen);
      if b.Err? {
        assert exists h :: h in Elems(queue) && h !in g;
        return Err(b.error);
      }
      var best := b.value;
      var h := queue[best];
      var rest := queue[..best] + queue[best + 1..];
      var more := ParentsUnseen(g, h, seen + {h});
      assert queue == queue[..best] + [h] + queue[best + 1..];
      Pick(g, tip, all, seen, queue, out, h, rest, more);
      queue := rest;
      if h in seen { continue; }
      seen := seen + {h};
      out := out + [h];
      if limit > 0 && |out| >= limit {
        LimitReached(g, tip, out);
        return Ok(out);
      }
      queue := rest + more;
    }
    WalkEnd(g, tip, all, seen);
    return Ok(out);
  }

  /** The state of WalkTipOrder between two picks. */
  ghost predicate Picked(g: Graph, tip: Hash, all: set<Hash>, seen: set<Hash>, queue: seq<Hash>, out: seq<Hash>) {
    && Walk(g, tip, all, seen, queue)
    && seen == Elems(out) && NoDup(out) && seen <= g.Keys
    && (TimeOrdered(g) ==> NewestFirst(g, out) && NewestTaken(g, all, out))
  }

  /** One pick of a newest unseen entry. */
  lemma Pick(g: Graph, tip: Hash, all: set<Hash>, seen: set<Hash>, queue: seq<Hash>, out: seq<Hash>,
             h: Hash, rest: seq<Hash>, more: seq<Hash>)
    requires Picked(g, tip, all, seen, queue, out) && all == Anc(g, tip)
    requires forall q :: q in queue <==> q in rest || q == h
    requires forall p :: p in more <==> p in Parents(g, h) && p !in seen && p != h
    requires h !in seen ==> forall q :: q in queue && q !in seen ==> q in g && Time(g, q) <= Time(g, h)
    requires h in seen ==> Elems(queue) <= seen
    ensures h in all
    ensures h in seen ==> Picked(g, tip, all, seen, rest, out)
    ensures h !in seen ==> Picked(g, tip, all, seen + {h}, rest + more, out + [h])
  {
    WalkTurn(g, tip, all, seen, queue, h, rest, more);
    if h !in seen {
      assert h in queue;
      if TimeOrdered(g) {
        TakenIsNewest(g, tip, seen, queue, h);
        NewestExtends(g, all, out, h);
      }
      assert Elems(out + [h]) == seen + {h};
    }
  }

  /** The parents of `h` that the walk has not seen, in order. */
  function ParentsUnseen(g: Graph, h: Hash, seen: set<Hash>): (ps: seq<Hash>)
    ensures forall p :: p in ps <==> p in Parents(g, h) && p !in seen
  {
    Unseen(Parents(g, h), seen)
  }

  function Unseen(hs: seq<Hash>, seen: set<Hash>): (r: seq<Hash>)
    ensures forall p :: p in r <==> p in hs && p !in seen
  {
    if hs == [] then []
    else (if hs[0] in seen then [] else [hs[0]]) + Unseen(hs[1..], seen)
  }

  lemma LimitReached(g: Graph, tip: Hash, out: seq<Hash>)
    requires NoDup(out) && Elems(out) <= Anc(g, tip)
    ensures |Anc(g, tip)| <= |out| ==> Elems(out) == Anc(g, tip)
  {
    NoDupCard(out);
    SubsetCard(Elems(out), Anc(g, tip));
  }

  lemma {:induction false} SubsetCard<T>(a: set<T>, b: set<T>)
    requires a <= b
    ensures |a| <= |b|
    ensures |b| <= |a| ==> a == b
    decreases |a|
  {
    if a == {} {
      assert |b| == 0 ==> b == {};
    } else {
      var x :| x in a;
      SubsetCard(a - {x}, b - {x});
      assert a == (a - {x}) + {x} && b == (b - {x}) + {x};
    }
  }

  lemma TakenIsNewest(g: Graph, tip: Hash, seen: set<Hash>, queue: seq<Hash>, h: Hash)
    requires TimeOrdered(g) && Frontier(g, tip, seen, queue)
    requires forall q :: q in queue && q !in seen ==> q in g && Time(g, q) <= Time(g, h)
    ensures forall x :: x in Anc(g, tip) * g.Keys && x !in seen ==> Time(g, x) <= Time(g, h)
  {
    forall x | x in Anc(g, tip) * g.Keys && x !in seen
      ensures Time(g, x) <= Time(g, h)
    {
      var n: nat :| Steps(g, tip, x, n);
      var q := FrontierCovers(g, seen, queue, tip, x, n);
      var m: nat :| Steps(g, q, x, m);
      TimeOrderedReach(g, q, x, m);
    }
  }

  /** When every child is strictly newer than its parents, a newest-first walk lists children before parents. */
  lemma NewestFirstIsTopological(g: Graph, out: seq<Hash>)
    requires Elems(out) <= g.Keys && NewestFirst(g, out)
    requires forall h, p :: h in g && p in g[h].parents && p in g ==> g[p].timestamp < g[h].timestamp
    ensures forall i, j :: 0 <= i < |out| && 0 <= j < |out| && out[j] in Parents(g, out[i]) ==> i < j
  {
    forall i, j | 0 <= i < |out| && 0 <= j < |out| && out[j] in Parents(g, out[i])
      ensures i < j
    {
      assert out[i] in Elems(out) && out[j] in Elems(out);
    }
  }
}
