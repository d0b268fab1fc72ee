/**
  The history listing with lanes (internal/cli/graph.go): GraphOrder and the active columns
  of RenderGraph.
*/
module Lanes {
  import opened Dag
  import opened DagWalk

  /** Every commit stands before all its parents. */
  ghost predicate ChildrenFirst(g: Graph, order: seq<Hash>) {
    forall i, j :: 0 <= i < |order| && 0 <= j < |order| && order[j] in Parents(g, order[i]) ==> i < j
  }

  /** Commits after all their parents, every parent present. */
  ghost predicate PostOrder(g: Graph, post: seq<Hash>) {
    forall i, p :: 0 <= i < |post| && p in Parents(g, post[i]) ==> p in post[..i]
  }

  // ---------- GraphOrder ----------

  /** What one visit does: it completes what it starts, after all parents, and stays inside `all`. */
  ghost predicate Visit(g: Graph, all: set<Hash>, open: set<Hash>, post0: seq<Hash>, post: seq<Hash>) {
    && post0 <= post && NoDup(post) && PostOrder(g, post)
    && Elems(post) <= all * g.Keys && Elems(post) !! open
  }

  lemma PostMore(g: Graph, all: set<Hash>, open: set<Hash>, post0: seq<Hash>, post: seq<Hash>, h: Hash)
    requires Visit(g, all, open + {h}, post0, post) && h in all && h in g && h !in open
    requires forall p :: p in Parents(g, h) ==> p in post
    ensures Visit(g, all, open, post0, post + [h])
  {
    assert h !in Elems(post);
    assert Elems(post + [h]) == Elems(post) + {h};
    forall i, p | 0 <= i < |post + [h]| && p in Parents(g, (post + [h])[i])
      ensures p in (post + [h])[..i]
    {
      if i < |post| {
        assert (post + [h])[..i] == post[..i];
      } else {
        assert (post + [h])[..i] == post;
      }
    }
  }

  /** An open commit reaches what is visited below it, so in a history without cycles it is no parent there. */
  lemma ParentNotOpen(g: Graph, open: set<Hash>, h: Hash, p: Hash)
    requires Acyclic(g) && p in Parents(g, h) && forall x :: x in open ==> ProperReach(g, x, h)
    ensures p !in open + {h} && forall x :: x in open + {h} ==> ProperReach(g, x, p)
  {
    ReachParent(g, h, p);
    forall x | x in open
      ensures ProperReach(g, x, p)
    {
      ProperIsReach(g, x, h);
      ReachTrans(g, x, h, p);
    }
  }

  /** visit: depth first, each commit after its parents. `open` are the commits being visited. */
  method VisitCommit(g: Graph, ghost all: set<Hash>, ghost open: set<Hash>, h: Hash, seen0: set<Hash>, post0: seq<Hash>)
    returns (ok: bool, seen: set<Hash>, post: seq<Hash>)
    requires Acyclic(g) && Closed(g, all) && h in all && h !in open && open <= all
    requires Visit(g, all, open, post0, post0) && seen0 == Elems(post0) + open
    requires forall x :: x in open ==> ProperReach(g, x, h)
    ensures ok ==> Visit(g, all, open, post0, post) && seen == Elems(post) + open && h in post
    ensures !ok ==> exists x :: x in all && x !in g
    decreases all - seen0
  {
    ok, seen, post := true, seen0, post0;
    if h in seen { return; }
    seen := seen + {h};
    if h !in g { return false, seen, post; }
    var ps := g[h].parents;
    OpenMore(g, all, open, post0, h);
    for i := 0 to |ps|
      invariant Visit(g, all, open + {h}, post0, post) && seen == Elems(post) + (open + {h}) && seen0 + {h} <= seen
      invariant forall j :: 0 <= j < i ==> ps[j] in post
    {
      ParentNotOpen(g, open, h, ps[i]);
      ghost var before := post;
      ok, seen, post := VisitCommit(g, all, open + {h}, ps[i], seen, post);
      if !ok { return; }
    }
    PostMore(g, all, open, post0, post, h);
    assert Elems(post + [h]) == Elems(post) + {h};
    post := post + [h];
  }

  lemma OpenMore(g: Graph, all: set<Hash>, open: set<Hash>, post: seq<Hash>, h: Hash)
    requires Visit(g, all, open, post, post) && h !in post
    ensures Visit(g, all, open + {h}, post, post)
  {
  }

  lemma {:induction false} PostHoldsAncestors(g: Graph, post: seq<Hash>, tip: Hash)
    requires PostOrder(g, post) && tip in post
    ensures Anc(g, tip) <= Elems(post)
  {
    forall h, p | h in Elems(post) && p in Parents(g, h)
      ensures p in Elems(post)
    {
      var i :| 0 <= i < |post| && post[i] == h;
      assert p in post[..i];
    }
    AncLeast(g, tip, Elems(post));
  }

  /** The reversed post-order. */
  method Reverse(post: seq<Hash>) returns (order: seq<Hash>)
    ensures |order| == |post| && forall i :: 0 <= i < |post| ==> order[i] == post[|post| - 1 - i]
  {
    order := [];
    var i: int := |post|;
    while i > 0
      invariant 0 <= i <= |post| && |order| == |post| - i
      invariant forall k :: 0 <= k < |order| ==> order[k] == post[|post| - 1 - k]
    {
      i := i - 1;
      order := order + [post[i]];
    }
  }

  lemma ReverseOrders(g: Graph, post: seq<Hash>, order: seq<Hash>)
    requires NoDup(post) && PostOrder(g, post)
    requires |order| == |post| && forall i :: 0 <= i < |post| ==> order[i] == post[|post| - 1 - i]
    ensures NoDup(order) && Elems(order) == Elems(post) && ChildrenFirst(g, order)
  {
    forall h
      ensures h in order <==> h in post
    {
      if h in post {
        var k :| 0 <= k < |post| && post[k] == h;
        assert order[|post| - 1 - k] == h;
      }
      if h in order {
        var k :| 0 <= k < |order| && order[k] == h;
        assert post[|post| - 1 - k] == h;
      }
    }
    forall i, j | 0 <= i < |order| && 0 <= j < |order| && order[j] in Parents(g, order[i])
      ensures i < j
    {
      var a, b := |post| - 1 - i, |post| - 1 - j;
      assert post[b] in post[..a];
      var c :| 0 <= c < a && post[c] == post[b];
    }
  }

  /** GraphOrder: every ancestor once, before its parents; with a limit, the front of that list. */
  method GraphOrder(g: Graph, tip: Hash, limit: int) returns (r: Result<seq<Hash>>, ghost full: seq<Hash>)
    requires Acyclic(g)
    ensures r.Ok? <==> Complete(g, tip)
    ensures r.Ok? ==> NoDup(full) && Elems(full) == Anc(g, tip) && ChildrenFirst(g, full)
    ensures r.Ok? ==> r.value == if 0 < limit < |full| then full[..limit] else full
    ensures r.Ok? ==> NoDup(r.value) && ChildrenFirst(g, r.value)
  {
    AncRoom(g, tip);
    full := [];
    var ok, seen, post := VisitCommit(g, Anc(g, tip), {}, tip, {}, []);
    if !ok { return Err("missing commit"), full; }
    PostHoldsAncestors(g, post, tip);
    var order := Reverse(post);
    ReverseOrders(g, post, order);
    full := order;
    if limit > 0 && |order| > limit { order := order[..limit]; }
    return Ok(order), full;
  }

  // ---------- RenderGraph ----------

  /** A printed row: a commit with its column among the active ones, or the parents of a merge. */
  datatype Row = CommitRow(h: Hash, col: nat, width: nat) | MergeRow(parents: seq<Hash>, width: nat)

  /** The not yet printed parents of printed commits, among those listed. */
  ghost function Open(g: Graph, order: seq<Hash>, i: nat): set<Hash>
    requires i <= |order|
  {
    set p | p in order && p !in order[..i] && AwaitedBy(g, order[..i], p)
  }

  ghost predicate AwaitedBy(g: Graph, printed: seq<Hash>, p: Hash) {
    exists h :: h in printed && p in Parents(g, h)
  }

  function IndexOf(s: seq<Hash>, h: Hash): (i: int)
    ensures -1 <= i < |s|
    ensures i < 0 <==> h !in s
    ensures i >= 0 ==> s[i] == h
  {
    if s == [] then -1 else if s[0] == h then 0
    else
      var i := IndexOf(s[1..], h);
      if i < 0 then -1 else i + 1
  }

  /** After a commit's row its column is dropped and its listed, not yet active parents get one. */
  method Advance(parents: seq<Hash>, allowed: set<Hash>, pending0: seq<Hash>, col: nat) returns (pending: seq<Hash>)
    requires NoDup(pending0) && col < |pending0|
    ensures NoDup(pending)
    ensures forall p :: p in pending <==> (p in pending0 && p != pending0[col]) || (p in parents && p in allowed)
    ensures parents != [] && parents[0] in allowed && parents[0] !in pending0 ==>
      col < |pending| && pending[col] == parents[0]
  {
    pending := pending0[..col] + pending0[col + 1..];
    ghost var kept := pending;
    forall p
      ensures p in pending <==> p in pending0 && p != pending0[col]
    {
      assert pending0 == pending0[..col] + [pending0[col]] + pending0[col + 1..];
    }
    for i := 0 to |parents|
      invariant NoDup(pending) && (i == 0 ==> pending == kept)
      invariant forall p :: p in pending <==> p in kept || (p in parents[..i] && p in allowed)
      invariant i > 0 && parents[0] in allowed && parents[0] !in pending0 ==>
        col < |pending| && pending[col] == parents[0]
    {
      var p := parents[i];
      assert parents[..i + 1] == parents[..i] + [p];
      if p !in allowed { continue; }
      if IndexOf(pending, p) >= 0 { continue; }
      if i == 0 {
        InsertedAt(pending, col, p);
        pending := pending[..col] + [p] + pending[col..];
      } else {
        pending := pending + [p];
      }
    }
    assert parents[..|parents|] == parents;
  }

  lemma InsertedAt(s: seq<Hash>, col: nat, p: Hash)
    requires col <= |s| && NoDup(s) && p !in s
    ensures var r := s[..col] + [p] + s[col..]; NoDup(r) && r[col] == p && forall x :: x in r <==> x in s || x == p
  {
    assert s == s[..col] + s[col..];
  }

  lemma OpenNext(g: Graph, order: seq<Hash>, i: nat)
    requires NoDup(order) && ChildrenFirst(g, order) && i < |order|
    ensures forall p :: p in Open(g, order, i + 1) <==>
      (p in Open(g, order, i) && p != order[i]) || (p in order && p in Parents(g, order[i]))
  {
    assert order[..i + 1] == order[..i] + [order[i]];
    forall p
      ensures p in Open(g, order, i + 1) <==>
        (p in Open(g, order, i) && p != order[i]) || (p in order && p in Parents(g, order[i]))
    {
      assert AwaitedBy(g, order[..i + 1], p) <==> AwaitedBy(g, order[..i], p) || p in Parents(g, order[i]);
      if p in order && p in Parents(g, order[i]) {
        var j :| 0 <= j < |order| && order[j] == p;
        assert j > i;
      }
    }
  }

  /** The lanes before the row of commit `i`. */
  ghost predicate LaneRight(g: Graph, order: seq<Hash>, i: nat, lane: seq<Hash>)
    requires i <= |order|
  {
    NoDup(lane) && Elems(lane) == Open(g, order, i)
  }

  /** The rows of commit `i` in lanes `now`, followed by lanes `next`. */
  ghost predicate RowsRight(g: Graph, order: seq<Hash>, i: nat, now: seq<Hash>, next: seq<Hash>, rows: seq<Row>)
    requires i < |order|
  {
    var h, ps := order[i], Parents(g, order[i]);
    && rows != [] && rows[0].CommitRow? && rows[0].h == h && rows[0].col < rows[0].width
    && (if h in now then rows[0].width == |now| && now[rows[0].col] == h
        else rows[0].width == |now| + 1 && rows[0].col == |now|)
    && rows[1..] == (if |ps| > 1 then [MergeRow(ps, rows[0].width)] else [])
    && (ps != [] && ps[0] in order && ps[0] !in now ==> rows[0].col < |next| && next[rows[0].col] == ps[0])
  }

  /** The rows of one commit, and the lanes after it. */
  method RenderCommit(g: Graph, order: seq<Hash>, ghost i: nat, h: Hash, allowed: set<Hash>, pending0: seq<Hash>)
    returns (rows: seq<Row>, pending: seq<Hash>)
    requires NoDup(order) && ChildrenFirst(g, order) && i < |order| && h == order[i] && allowed == Elems(order)
    requires LaneRight(g, order, i, pending0)
    ensures LaneRight(g, order, i + 1, pending) && RowsRight(g, order, i, pending0, pending, rows)
  {
    pending := pending0;
    var col := IndexOf(pending, h);
    if col < 0 {
      col := |pending|;
      pending := pending + [h];
    }
    rows := [CommitRow(h, col, |pending|)];
    var parents := Parents(g, h);
    if |parents| > 1 { rows := rows + [MergeRow(parents, |pending|)]; }
    NotOwnParent(g, order, i);
    pending := Advance(parents, allowed, pending, col);
    OpenNext(g, order, i);
    assert forall p :: p in pending <==> p in Open(g, order, i + 1);
  }

  lemma NotOwnParent(g: Graph, order: seq<Hash>, i: nat)
    requires ChildrenFirst(g, order) && i < |order|
    ensures order[i] !in Parents(g, order[i])
  {
  }

  /**
    RenderGraph over a list with children first, the rows grouped by commit. Before each
    commit the lanes are, once each, the printed commits' listed parents still to come.
   */
  method RenderGraph(g: Graph, order: seq<Hash>) returns (rows: seq<seq<Row>>, ghost lanes: seq<seq<Hash>>)
    requires NoDup(order) && ChildrenFirst(g, order)
    ensures |lanes| == |order| + 1 && forall i :: 0 <= i <= |order| ==> LaneRight(g, order, i, lanes[i])
    ensures |rows| == |order| && forall i :: 0 <= i < |order| ==>
      RowsRight(g, order, i, lanes[i], lanes[i + 1], rows[i])
  {
    rows := [];
    var pending: seq<Hash> := [];
    var allowed := set h | h in order;
    lanes := [[]];
    for i := 0 to |order|
      invariant |lanes| == i + 1 && lanes[i] == pending && |rows| == i
      invariant forall k :: 0 <= k <= i ==> LaneRight(g, order, k, lanes[k])
      invariant forall k :: 0 <= k < i ==> RowsRight(g, order, k, lanes[k], lanes[k + 1], rows[k])
    {
      var block;
      block, pending := RenderCommit(g, order, i, order[i], allowed, pending);
      rows := rows + [block];
      lanes := lanes + [pending];
    }
  }
}
