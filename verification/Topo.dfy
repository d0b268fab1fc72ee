/**
  Oldest-first topological order by Kahn's algorithm (topoOrder of
  internal/gitcompat/bisect.go).
*/
module Topo {
  import opened Dag
  import opened DagWalk

  /** The tie-break: earlier commits first, then smaller addresses. */
  predicate Earlier(g: Graph, a: Hash, b: Hash)
    requires a in g && b in g
  {
    g[a].timestamp < g[b].timestamp || (g[a].timestamp == g[b].timestamp && a < b)
  }

  /** How many entries of `ps` are in `live`. */
  ghost function Pending(ps: seq<Hash>, live: set<Hash>): nat {
    if ps == [] then 0 else (if ps[|ps| - 1] in live then 1 else 0) + Pending(ps[..|ps| - 1], live)
  }

  lemma {:induction false} PendingWithout(ps: seq<Hash>, live: set<Hash>, h: Hash)
    requires h in live
    ensures Pending(ps, live) == Pending(ps, live - {h}) + multiset(ps)[h]
  {
    if ps != [] {
      PendingWithout(ps[..|ps| - 1], live, h);
      assert ps == ps[..|ps| - 1] + [ps[|ps| - 1]];
    }
  }

  lemma {:induction false} PendingZero(ps: seq<Hash>, live: set<Hash>)
    ensures Pending(ps, live) == 0 <==> forall p :: p in ps ==> p !in live
  {
    if ps != [] {
      PendingZero(ps[..|ps| - 1], live);
      assert ps == ps[..|ps| - 1] + [ps[|ps| - 1]];
    }
  }

  /** All of `h`'s parents in `s` are in `done`. */
  ghost predicate ParentsDone(g: Graph, s: set<Hash>, h: Hash, done: seq<Hash>) {
    forall p :: p in Parents(g, h) && p in s ==> p in done
  }

  /**
    The order is oldest-first and fully determined: each entry's parents in the set come
    before it, and among everything then ready it is the earliest.
   */
  ghost predicate KahnOrder(g: Graph, s: set<Hash>, out: seq<Hash>) {
    && s <= g.Keys && NoDup(out) && Elems(out) <= s
    && forall i {:trigger KahnPick(g, s, out[..i], out[i])} :: 0 <= i < |out| ==> KahnPick(g, s, out[..i], out[i])
  }

  /** After `done`, `h` is the earliest member with all its parents done. */
  ghost predicate KahnPick(g: Graph, s: set<Hash>, done: seq<Hash>, h: Hash) {
    && h in g && ParentsDone(g, s, h, done)
    && forall x :: x in s && x in g && x !in done && x != h && ParentsDone(g, s, x, done) ==> Earlier(g, h, x)
  }

  function ChildrenOf(children: map<Hash, seq<Hash>>, p: Hash): seq<Hash> {
    if p in children then children[p] else []
  }

  /** How often `h` is listed as a child of `p`. */
  ghost function Listed(children: map<Hash, seq<Hash>>, p: Hash, h: Hash): nat {
    multiset(ChildrenOf(children, p))[h]
  }

  ghost function Occurs(ps: seq<Hash>, p: Hash): nat {
    multiset(ps)[p]
  }

  lemma OccursAppend(ps: seq<Hash>, q: Hash, p: Hash)
    ensures Occurs(ps + [q], p) == Occurs(ps, p) + if p == q then 1 else 0
  {
  }

  lemma PendingAppend(ps: seq<Hash>, q: Hash, live: set<Hash>)
    ensures Pending(ps + [q], live) == Pending(ps, live) + if q in live then 1 else 0
  {
    assert (ps + [q])[..|ps|] == ps;
  }

  lemma ListAppend(children: map<Hash, seq<Hash>>, q: Hash, c: Hash, p: Hash, h: Hash)
    ensures Listed(children[q := ChildrenOf(children, q) + [c]], p, h) ==
      Listed(children, p, h) + if p == q && h == c then 1 else 0
  {
    if p == q {
      OccursAppend(ChildrenOf(children, q), c, h);
    }
  }

  /** The in-degrees when, of each member `x`'s parents, those in `entered[x]` have been entered. */
  ghost predicate Degrees(s: set<Hash>, entered: map<Hash, seq<Hash>>, indeg: map<Hash, int>) {
    && indeg.Keys == s == entered.Keys
    && (forall x :: x in s ==> indeg[x] == Pending(entered[x], s))
  }

  /** The child lists at that point; only members are listed. */
  ghost predicate Lists(s: set<Hash>, entered: map<Hash, seq<Hash>>, children: map<Hash, seq<Hash>>) {
    && s == entered.Keys
    && (forall p, x :: p in s ==> Listed(children, p, x) == if x in s then Occurs(entered[x], p) else 0)
  }

  lemma DegreesTurn(s: set<Hash>, entered: map<Hash, seq<Hash>>, indeg: map<Hash, int>, h: Hash, p: Hash)
    requires h in s && Degrees(s, entered, indeg)
    ensures Degrees(s, entered[h := entered[h] + [p]], if p in s then indeg[h := indeg[h] + 1] else indeg)
  {
    PendingAppend(entered[h], p, s);
  }

  lemma ListsTurn(s: set<Hash>, entered: map<Hash, seq<Hash>>, children: map<Hash, seq<Hash>>, h: Hash, p: Hash)
    requires h in s && Lists(s, entered, children)
    ensures Lists(s, entered[h := entered[h] + [p]],
                  if p in s then children[p := ChildrenOf(children, p) + [h]] else children)
  {
    var entered' := entered[h := entered[h] + [p]];
    var children' := if p in s then children[p := ChildrenOf(children, p) + [h]] else children;
    forall q, x | q in s
      ensures Listed(children', q, x) == if x in s then Occurs(entered'[x], q) else 0
    {
      OccursAppend(entered[h], p, q);
      ListAppend(children, p, h, q, x);
      assert Listed(children, q, x) == if x in s then Occurs(entered[x], q) else 0;
    }
  }

  /** Enters the parents of one member. */
  method EnterParents(s: set<Hash>, h: Hash, ps: seq<Hash>, indeg0: map<Hash, int>, children0: map<Hash, seq<Hash>>,
                      ghost entered: map<Hash, seq<Hash>>)
    returns (indeg: map<Hash, int>, children: map<Hash, seq<Hash>>, ghost now: map<Hash, seq<Hash>>)
    requires h in s && Degrees(s, entered, indeg0) && Lists(s, entered, children0) && entered[h] == []
    ensures Degrees(s, now, indeg) && Lists(s, now, children)
    ensures now == entered[h := ps]
  {
    indeg, children, now := indeg0, children0, entered;
    assert entered == entered[h := ps[..0]];
    for i := 0 to |ps|
      invariant Degrees(s, now, indeg) && Lists(s, now, children)
      invariant now == entered[h := ps[..i]]
    {
      EnteredMore(entered, h, ps, i);
      indeg, children, now := EnterParent(s, h, ps[i], indeg, children, now);
    }
    assert ps[..|ps|] == ps;
  }

  lemma EnteredMore(entered: map<Hash, seq<Hash>>, h: Hash, ps: seq<Hash>, i: nat)
    requires i < |ps|
    ensures var now := entered[h := ps[..i]]; now[h := now[h] + [ps[i]]] == entered[h := ps[..i + 1]]
  {
    assert ps[..i + 1] == ps[..i] + [ps[i]];
  }

  /** One parent. */
  method EnterParent(s: set<Hash>, h: Hash, p: Hash, indeg0: map<Hash, int>, children0: map<Hash, seq<Hash>>,
                     ghost entered: map<Hash, seq<Hash>>)
    returns (indeg: map<Hash, int>, children: map<Hash, seq<Hash>>, ghost now: map<Hash, seq<Hash>>)
    requires h in s && Degrees(s, entered, indeg0) && Lists(s, entered, children0)
    ensures Degrees(s, now, indeg) && Lists(s, now, children) && now == entered[h := entered[h] + [p]]
  {
    indeg, children, now := indeg0, children0, entered[h := entered[h] + [p]];
    DegreesTurn(s, entered, indeg, h, p);
    ListsTurn(s, entered, children, h, p);
    if p in s {
      children := children[p := ChildrenOf(children, p) + [h]];
      indeg := indeg[h := indeg[h] + 1];
    }
  }

  lemma EmptyTables(s: set<Hash>, entered: map<Hash, seq<Hash>>, indeg: map<Hash, int>)
    requires indeg.Keys == s == entered.Keys && forall x :: x in s ==> indeg[x] == 0 && entered[x] == []
    ensures Degrees(s, entered, indeg) && Lists(s, entered, map[])
  {
  }

  /** In-degrees within the set, and the children of each member with repetitions. */
  method BuildTables(g: Graph, s: set<Hash>)
    returns (indeg: map<Hash, int>, children: map<Hash, seq<Hash>>, ghost entered: map<Hash, seq<Hash>>)
    ensures Degrees(s, entered, indeg) && Lists(s, entered, children)
    ensures forall x :: x in s ==> entered[x] == Parents(g, x)
  {
    indeg := map h | h in s :: 0;
    children := map[];
    entered := map h | h in s :: [];
    EmptyTables(s, entered, indeg);
    var rest := s;
    while rest != {}
      invariant rest <= s && Degrees(s, entered, indeg) && Lists(s, entered, children)
      invariant forall x :: x in s ==> entered[x] == if x in rest then [] else Parents(g, x)
      decreases rest
    {
      var h :| h in rest;
      indeg, children, entered := EnterParents(s, h, Parents(g, h), indeg, children, entered);
      rest := rest - {h};
    }
  }

  // ---------- Kahn's loop ----------

  /**
    Between two picks: `live` holds the members left, `ready` those of them whose
    in-degree is zero, and in-degrees count the parents not yet out. While the children of
    the last pick are walked, those in `cs` are still to be counted down.
   */
  ghost predicate Sorting(g: Graph, s: set<Hash>, live: set<Hash>, ready: set<Hash>, indeg: map<Hash, int>,
                          cs: seq<Hash>) {
    && indeg.Keys == s && live <= s
    && (forall x :: x in live ==> indeg[x] == Pending(Parents(g, x), live) + Occurs(cs, x))
    && (forall x :: x in ready <==> x in live && indeg[x] == 0)
    && (forall x :: x in cs ==> x in live)
  }

  lemma CountDown(g: Graph, s: set<Hash>, live: set<Hash>, ready: set<Hash>, indeg: map<Hash, int>, cs: seq<Hash>)
    requires Sorting(g, s, live, ready, indeg, cs) && cs != []
    ensures cs[0] in live && indeg[cs[0]] > 0
    ensures var d := indeg[cs[0]] - 1;
      Sorting(g, s, live, if d == 0 then ready + {cs[0]} else ready, indeg[cs[0] := d], cs[1..])
  {
    var c := cs[0];
    assert cs == [c] + cs[1..];
    assert c in cs;
    forall x
      ensures Occurs(cs, x) == Occurs(cs[1..], x) + if x == c then 1 else 0
    {
      assert multiset(cs) == multiset{c} + multiset(cs[1..]);
    }
    assert forall x :: x in cs[1..] ==> x in cs;
  }

  /** The members whose parents are all out are the ready ones. */
  lemma ReadyMeansDone(g: Graph, s: set<Hash>, out: seq<Hash>, live: set<Hash>, ready: set<Hash>,
                       indeg: map<Hash, int>, x: Hash)
    requires Sorting(g, s, live, ready, indeg, []) && live == s - Elems(out) && x in live
    ensures x in ready <==> ParentsDone(g, s, x, out)
  {
    PendingZero(Parents(g, x), live);
    assert Occurs([], x) == 0;
  }

  lemma KahnExtend(g: Graph, s: set<Hash>, out: seq<Hash>, live: set<Hash>, ready: set<Hash>, indeg: map<Hash, int>,
                   h: Hash)
    requires KahnOrder(g, s, out) && Sorting(g, s, live, ready, indeg, []) && live == s - Elems(out)
    requires h in ready && forall x :: x in ready && x != h ==> x in g && h in g && Earlier(g, h, x)
    ensures KahnOrder(g, s, out + [h]) && live - {h} == s - Elems(out + [h])
  {
    EarliestIsPick(g, s, out, live, ready, indeg, h);
    assert h in live && h !in Elems(out);
    KahnAppend(g, s, out, h);
  }

  lemma EarliestIsPick(g: Graph, s: set<Hash>, out: seq<Hash>, live: set<Hash>, ready: set<Hash>, indeg: map<Hash, int>,
                       h: Hash)
    requires KahnOrder(g, s, out) && Sorting(g, s, live, ready, indeg, []) && live == s - Elems(out)
    requires h in ready && forall x :: x in ready && x != h ==> x in g && h in g && Earlier(g, h, x)
    ensures KahnPick(g, s, out, h)
  {
    ReadyMeansDone(g, s, out, live, ready, indeg, h);
    forall x | x in s && x in g && x !in out && x != h && ParentsDone(g, s, x, out)
      ensures Earlier(g, h, x)
    {
      ReadyMeansDone(g, s, out, live, ready, indeg, x);
    }
  }

  lemma KahnAppend(g: Graph, s: set<Hash>, out: seq<Hash>, h: Hash)
    requires KahnOrder(g, s, out) && h in s && h !in Elems(out) && KahnPick(g, s, out, h)
    ensures KahnOrder(g, s, out + [h]) && Elems(out + [h]) == Elems(out) + {h}
  {
    var out' := out + [h];
    assert Elems(out') == Elems(out) + {h};
    forall i | 0 <= i < |out'|
      ensures KahnPick(g, s, out'[..i], out'[i])
    {
      assert out'[..i] == out[..i];
    }
  }

  /** A parent in the set of something already out is out. */
  lemma DoneBefore(g: Graph, s: set<Hash>, out: seq<Hash>, x: Hash, p: Hash)
    requires KahnOrder(g, s, out) && x in out && p in Parents(g, x) && p in s
    ensures p in out
  {
    var i :| 0 <= i < |out| && out[i] == x;
    assert KahnPick(g, s, out[..i], out[i]);
    assert p in out[..i];
  }

  /** Taking `h` out of the members left: its children are now one parent ahead of their in-degree. */
  lemma TakeOut(g: Graph, s: set<Hash>, out: seq<Hash>, live: set<Hash>, ready: set<Hash>, indeg: map<Hash, int>,
                children: map<Hash, seq<Hash>>, entered: map<Hash, seq<Hash>>, h: Hash)
    requires KahnOrder(g, s, out) && Sorting(g, s, live, ready, indeg, []) && live == s - Elems(out) && h in ready
    requires Lists(s, entered, children) && forall x :: x in s ==> entered[x] == Parents(g, x)
    ensures Sorting(g, s, live - {h}, ready - {h}, indeg, ChildrenOf(children, h))
  {
    var cs := ChildrenOf(children, h);
    ReadyMeansDone(g, s, out, live, ready, indeg, h);
    forall x | x in live - {h}
      ensures indeg[x] == Pending(Parents(g, x), live - {h}) + Occurs(cs, x)
    {
      PendingWithout(Parents(g, x), live, h);
      assert Listed(children, h, x) == Occurs(entered[x], h);
      assert Occurs([], x) == 0;
    }
    forall x | x in cs
      ensures x in live - {h}
    {
      assert Listed(children, h, x) > 0;
      assert x in s && h in Parents(g, x);
      if x in out { DoneBefore(g, s, out, x, h); }
    }
  }

  /** The earliest of the ready members, first after the sort. */
  method EarliestReady(g: Graph, ready: set<Hash>) returns (h: Hash)
    requires ready != {} && ready <= g.Keys
    ensures h in ready && forall x :: x in ready && x != h ==> Earlier(g, h, x)
  {
    h :| h in ready;
    var rest := ready - {h};
    while rest != {}
      invariant h in ready && rest <= ready
      invariant forall x :: x in ready - rest && x != h ==> Earlier(g, h, x)
      decreases rest
    {
      var x :| x in rest;
      rest := rest - {x};
      if Earlier(g, x, h) {
        assert forall y :: y in ready - rest && y != x && y != h ==> Earlier(g, h, y);
        h := x;
      }
    }
  }

  /** In an acyclic graph some member left is always ready. */
  lemma SomeReady(g: Graph, s: set<Hash>, live: set<Hash>, ready: set<Hash>, indeg: map<Hash, int>)
    requires Acyclic(g) && Sorting(g, s, live, ready, indeg, []) && live != {}
    ensures ready != {}
  {
    var m := OldestMember(g, live);
    forall p | p in Parents(g, m)
      ensures p !in live
    {
      ReachParent(g, m, p);
    }
    PendingZero(Parents(g, m), live);
    assert Occurs([], m) == 0;
    assert m in ready;
  }

  /** topoOrder: fails exactly when a member is not stored; its cycle error is unreachable. */
  method TopoOrder(g: Graph, s: set<Hash>) returns (r: Result<seq<Hash>>)
    requires Acyclic(g)
    ensures r.Ok? <==> s <= g.Keys
    ensures r.Ok? ==> KahnOrder(g, s, r.value) && Elems(r.value) == s
  {
    if h :| h in s && h !in g { return Err("missing commit"); }
    var indeg, children, entered := BuildTables(g, s);
    var ready := set h | h in s && indeg[h] == 0;
    var out: seq<Hash> := [];
    ghost var live := s;
    assert forall x :: Occurs([], x) == 0;
    while ready != {}
      invariant KahnOrder(g, s, out) && live == s - Elems(out) && Sorting(g, s, live, ready, indeg, [])
      decreases live
    {
      out, live, indeg, ready := TakeNext(g, s, out, live, ready, indeg, children, entered);
    }
    AllOut(g, s, out, live, indeg);
    if |out| != |s| { return Err("cycle in history"); }
    return Ok(out);
  }

  lemma AllOut(g: Graph, s: set<Hash>, out: seq<Hash>, live: set<Hash>, indeg: map<Hash, int>)
    requires Acyclic(g) && KahnOrder(g, s, out) && live == s - Elems(out) && Sorting(g, s, live, {}, indeg, [])
    ensures Elems(out) == s && |out| == |s|
  {
    if live != {} {
      SomeReady(g, s, live, {}, indeg);
    }
    NoDupCard(out);
  }

  /** One pick: the earliest ready member goes out and its children are counted down. */
  method TakeNext(g: Graph, s: set<Hash>, out0: seq<Hash>, ghost live0: set<Hash>, ready0: set<Hash>,
                  indeg0: map<Hash, int>,
                  children: map<Hash, seq<Hash>>, ghost entered: map<Hash, seq<Hash>>)
    returns (out: seq<Hash>, ghost live: set<Hash>, indeg: map<Hash, int>, ready: set<Hash>)
    requires s <= g.Keys && ready0 != {}
    requires KahnOrder(g, s, out0) && live0 == s - Elems(out0) && Sorting(g, s, live0, ready0, indeg0, [])
    requires Lists(s, entered, children) && forall x :: x in s ==> entered[x] == Parents(g, x)
    ensures KahnOrder(g, s, out) && live == s - Elems(out) && Sorting(g, s, live, ready, indeg, []) && live < live0
  {
    var h := EarliestReady(g, ready0);
    assert h in live0;
    KahnExtend(g, s, out0, live0, ready0, indeg0, h);
    TakeOut(g, s, out0, live0, ready0, indeg0, children, entered, h);
    out := out0 + [h];
    live := live0 - {h};
    indeg, ready := CountDownAll(g, s, live, ready0 - {h}, indeg0, ChildrenOf(children, h));
  }

  /** One pick's inner loop: count the children down and collect those that become ready. */
  method CountDownAll(g: Graph, s: set<Hash>, ghost live: set<Hash>, ready0: set<Hash>, indeg0: map<Hash, int>,
                      cs: seq<Hash>)
    returns (indeg: map<Hash, int>, ready: set<Hash>)
    requires Sorting(g, s, live, ready0, indeg0, cs)
    ensures Sorting(g, s, live, ready, indeg, [])
  {
    indeg, ready := indeg0, ready0;
    assert cs[0..] == cs;
    for i := 0 to |cs|
      invariant Sorting(g, s, live, ready, indeg, cs[i..])
    {
      CountDown(g, s, live, ready, indeg, cs[i..]);
      assert cs[i..][1..] == cs[i + 1..];
      var c := cs[i];
      indeg := indeg[c := indeg[c] - 1];
      if indeg[c] == 0 {
        ready := ready + {c};
      }
    }
    assert cs[|cs|..] == [];
  }

  lemma {:induction false} SamePrefix(g: Graph, s: set<Hash>, a: seq<Hash>, b: seq<Hash>, n: nat)
    requires KahnOrder(g, s, a) && KahnOrder(g, s, b) && Elems(a) == s == Elems(b)
    requires n <= |a| && n <= |b|
    ensures a[..n] == b[..n]
    decreases n
  {
    if n > 0 {
      SamePrefix(g, s, a, b, n - 1);
      SamePick(g, s, a, b, n - 1);
      LastEqual(a, b, n - 1);
    }
  }

  lemma LastEqual(a: seq<Hash>, b: seq<Hash>, i: nat)
    requires i < |a| && i < |b| && a[..i] == b[..i] && a[i] == b[i]
    ensures a[..i + 1] == b[..i + 1]
  {
    assert a[..i + 1] == a[..i] + [a[i]];
    assert b[..i + 1] == b[..i] + [b[i]];
  }

  /** The tie-break leaves one order: two orders of a set are the same. */
  lemma KahnUnique(g: Graph, s: set<Hash>, a: seq<Hash>, b: seq<Hash>)
    requires KahnOrder(g, s, a) && KahnOrder(g, s, b) && Elems(a) == s == Elems(b)
    ensures a == b
  {
    SameLength(a, b);
    SamePrefix(g, s, a, b, |a|);
    assert a[..|a|] == a && b[..|a|] == b;
  }

  lemma SameLength(a: seq<Hash>, b: seq<Hash>)
    requires NoDup(a) && NoDup(b) && Elems(a) == Elems(b)
    ensures |a| == |b|
  {
    NoDupCard(a);
    NoDupCard(b);
  }

  lemma SamePick(g: Graph, s: set<Hash>, a: seq<Hash>, b: seq<Hash>, i: nat)
    requires KahnOrder(g, s, a) && KahnOrder(g, s, b) && Elems(a) == s == Elems(b)
    requires i < |a| && i < |b| && a[..i] == b[..i]
    ensures a[i] == b[i]
  {
    assert a[i] in Elems(a) && b[i] in Elems(b);
    assert KahnPick(g, s, a[..i], a[i]) && KahnPick(g, s, a[..i], b[i]);
    assert a[i] !in a[..i] && b[i] !in b[..i];
  }
}
