/**
  Replaying one commit on the current tip (applyPick of internal/gitcompat/pick.go) and the
  branch-unique chain of commits that a rebase replays (rebaseChain of
  internal/gitcompat/rebase.go).
*/
module Pick {
  import opened Dag
  import opened DagWalk
  import opened Merge
  import opened Paths
  import opened Store

  datatype PickResult = Picked(h: Hash) | Conflict(files: seq<string>) | Refused(error: string)

  /** The three-way base of a replay: the first parent's files, or none for a root commit. */
  function PickBase(s: State, target: Hash): Option<FlatMap>
    requires target in s.commits
  {
    var ps := s.commits[target].parents;
    if ps == [] then Some(map[]) else FlatAt(s, ps[0])
  }

  /** Everything a replay of `target` reads is there. */
  predicate Pickable(s: State, target: Hash) {
    var tip := TipOf(s.refs, s.head);
    && tip != NIL && target in s.commits
    && PickBase(s, target).Some? && FlatAt(s, tip).Some? && FlatAt(s, target).Some?
  }

  /** The repository after a commit of the files `m` on the tip. */
  ghost predicate CommittedOn(s: State, s': State, m: FlatMap, message: string, me: Site, h: Hash) {
    var tip := TipOf(s.refs, s.head);
    && tip in s.commits
    && exists now ::
      var c := NewCommit(s.commits, tip, me.addr(m), me, now, message);
      h == me.hash(c) && s' == State(s.commits[h := c], s.trees[me.addr(m) := m], s.refs[s.head := h], s.head)
  }

  /** applyPick: a clean merge is committed with the given message; anything else changes nothing. */
  ghost predicate PickOutcome(s: State, s': State, target: Hash, message: string, me: Site, r: PickResult) {
    if !Pickable(s, target) then r.Refused? && s' == s
    else
      exists m, files ::
        && IsThreeWay(PickBase(s, target).value, FlatAt(s, TipOf(s.refs, s.head)).value, FlatAt(s, target).value, m,
            files)
        && if files != [] then r == Conflict(files) && s' == s
           else if !CleanTreePaths(m.Keys) then r.Refused? && s' == s
           else r.Picked? && CommittedOn(s, s', m, message, me, r.h)
  }

  method ApplyPick(repo: Repo, target: Hash, message: string) returns (r: PickResult)
    requires repo.Valid()
    modifies repo
    ensures repo.Valid()
    ensures PickOutcome(old(repo.Now()), repo.Now(), target, message, repo.me, r)
    ensures r.Picked? ==> FlatAt(repo.Now(), r.h) == Some(repo.work)
    ensures !r.Picked? ==> repo.work == old(repo.work)
  {
    ghost var s := repo.Now();
    var tip := repo.Tip();
    if tip == NIL { return Refused("no commits yet"); }
    if target !in repo.commits { return Refused("not a commit"); }
    var base: FlatMap := map[];
    if |repo.commits[target].parents| > 0 {
      var b := FlatAt(repo.Now(), repo.commits[target].parents[0]);
      if b.None? { return Refused("cannot read the base"); }
      base := b.value;
    }
    var ours, theirs := FlatAt(repo.Now(), tip), FlatAt(repo.Now(), target);
    if ours.None? || theirs.None? { return Refused("cannot read a tree"); }
    var m, files := PickMerge(base, ours.value, theirs.value);
    assert IsThreeWay(PickBase(s, target).value, FlatAt(s, tip).value, FlatAt(s, target).value, m, files);
    if |files| > 0 { return Conflict(files); }
    if p :| p in m.Keys && !CleanTreePath(p) { return Refused("refusing to build tree"); }
    r := CommitFiles(repo, m, message);
  }

  /** Builds the tree of `m`, commits it and checks it out. */
  method CommitFiles(repo: Repo, m: FlatMap, message: string) returns (r: PickResult)
    requires repo.Valid() && repo.Tip() in repo.commits && CleanTreePaths(m.Keys)
    modifies repo
    ensures repo.Valid() && r.Picked?
    ensures CommittedOn(old(repo.Now()), repo.Now(), m, message, repo.me, r.h)
    ensures FlatAt(repo.Now(), r.h) == Some(repo.work)
  {
    ghost var s := repo.Now();
    var root := repo.PutTree(m);
    var now: int := *;
    var made := repo.Commit(message, root, now);
    assert made.Ok? && made.value == repo.me.hash(NewCommit(s.commits, TipOf(s.refs, s.head), root, repo.me, now,
        message));
    var ok := repo.Checkout(made.value);
    return Picked(made.value);
  }

  // ---------- The chain to replay ----------

  /** The commits of `tip` that `upstream` does not reach are stored and none is a merge. */
  ghost predicate LinearAbove(g: Graph, tip: Hash, upstream: Hash) {
    forall h :: h in Anc(g, tip) && h !in Anc(g, upstream) ==> h in g && |Parents(g, h)| <= 1
  }

  /**
    A first-parent path, oldest first, ending at `tip` and growing out of what `upstream`
    reaches, or out of nothing.
   */
  ghost predicate BranchChain(g: Graph, tip: Hash, upstream: Hash, chain: seq<Hash>) {
    && NoDup(chain)
    && Elems(chain) == Anc(g, tip) - Anc(g, upstream)
    && (chain != [] ==> chain[|chain| - 1] == tip)
    && (forall i :: 0 < i < |chain| ==> Parents(g, chain[i]) == [chain[i - 1]])
    && (chain != [] ==>
          (Parents(g, chain[0]) == [] || (|Parents(g, chain[0])| == 1 && Parents(g, chain[0])[0] in Anc(g, upstream))))
  }

  /** The backward walk: `chain` is the path from the commit before `h` (exclusive) to the tip. */
  ghost predicate WalkingBack(g: Graph, tip: Hash, reach: set<Hash>, h: Hash, chain: seq<Hash>) {
    && NoDup(chain) && h !in chain && h in Anc(g, tip)
    && Elems(chain) <= g.Keys && Elems(chain) !! reach
    && (if chain == [] then h == tip else chain[|chain| - 1] == tip && Parents(g, chain[0]) == [h])
    && (forall i :: 0 < i < |chain| ==> Parents(g, chain[i]) == [chain[i - 1]])
    && (forall x :: x in chain ==> ProperReach(g, x, h) && x in Anc(g, tip))
  }

  lemma StepBack(g: Graph, tip: Hash, reach: set<Hash>, h: Hash, chain: seq<Hash>, p: Hash)
    requires Acyclic(g) && WalkingBack(g, tip, reach, h, chain) && h in g && h !in reach && Parents(g, h) == [p]
    ensures WalkingBack(g, tip, reach, p, [h] + chain)
    ensures Anc(g, tip) - Elems([h] + chain) < Anc(g, tip) - Elems(chain)
    ensures forall x :: x in [h] + chain <==> x == h || x in chain
  {
    assert p in Parents(g, h) by { assert Parents(g, h)[0] == p; }
    ReachParent(g, h, p);
    AncClosed(g, tip);
    forall x | x in [h] + chain
      ensures ProperReach(g, x, p) && x in Anc(g, tip)
    {
      if x != h {
        ProperIsReach(g, x, h);
        ReachTrans(g, x, h, p);
      }
    }
    assert Elems([h] + chain) == {h} + Elems(chain);
    assert h in Anc(g, tip) - Elems(chain);
  }

  /** Once the walk ends, the chain is everything the tip has and upstream lacks. */
  lemma ChainIsDifference(g: Graph, tip: Hash, reach: set<Hash>, chain: seq<Hash>)
    requires Closed(g, reach) && Elems(chain) !! reach
    requires chain != [] ==> chain[|chain| - 1] == tip
    requires chain == [] ==> tip in reach
    requires forall i :: 0 < i < |chain| ==> Parents(g, chain[i]) == [chain[i - 1]]
    requires chain != [] ==> forall p :: p in Parents(g, chain[0]) ==> p in reach
    requires Elems(chain) <= Anc(g, tip)
    ensures Elems(chain) == Anc(g, tip) - reach
  {
    var s := Elems(chain) + reach;
    forall h, p | h in s && p in Parents(g, h)
      ensures p in s
    {
      if h !in reach {
        var i :| 0 <= i < |chain| && chain[i] == h;
        if i > 0 { assert p == chain[i - 1]; }
      }
    }
    AncLeast(g, tip, s);
  }

  lemma ChainIsLinear(g: Graph, tip: Hash, upstream: Hash, chain: seq<Hash>)
    requires Elems(chain) == Anc(g, tip) - Anc(g, upstream)
    requires forall x :: x in chain ==> x in g && |Parents(g, x)| <= 1
    ensures LinearAbove(g, tip, upstream)
  {
    assert forall x :: x in Anc(g, tip) - Anc(g, upstream) ==> x in chain;
  }

  lemma EndsAtRoot(g: Graph, tip: Hash, upstream: Hash, h: Hash, chain: seq<Hash>)
    requires WalkingBack(g, tip, Anc(g, upstream), h, chain) && h in g && h !in Anc(g, upstream) && Parents(g, h) == []
    requires forall x :: x in chain ==> x in g && |Parents(g, x)| <= 1
    ensures BranchChain(g, tip, upstream, [h] + chain) && LinearAbove(g, tip, upstream)
  {
    AncRoom(g, upstream);
    assert Elems([h] + chain) == {h} + Elems(chain);
    ChainIsDifference(g, tip, Anc(g, upstream), [h] + chain);
    ChainIsLinear(g, tip, upstream, [h] + chain);
  }

  lemma EndsAtUpstream(g: Graph, tip: Hash, upstream: Hash, h: Hash, chain: seq<Hash>)
    requires WalkingBack(g, tip, Anc(g, upstream), h, chain) && h in Anc(g, upstream)
    requires forall x :: x in chain ==> x in g && |Parents(g, x)| <= 1
    ensures BranchChain(g, tip, upstream, chain) && LinearAbove(g, tip, upstream)
  {
    AncRoom(g, upstream);
    ChainIsDifference(g, tip, Anc(g, upstream), chain);
    ChainIsLinear(g, tip, upstream, chain);
  }

  /** rebaseChain: fails exactly when a commit above upstream is missing or a merge. */
  method RebaseChain(g: Graph, tip: Hash, upstream: Hash) returns (r: Result<seq<Hash>>)
    requires Acyclic(g)
    ensures r.Ok? <==> LinearAbove(g, tip, upstream)
    ensures r.Ok? ==> BranchChain(g, tip, upstream, r.value)
  {
    var reach := MarkReachable(g, upstream, {});
    assert reach == Anc(g, upstream);
    var h, chain: seq<Hash> := tip, [];
    AncSelf(g, tip);
    while h !in reach
      invariant WalkingBack(g, tip, reach, h, chain)
      invariant forall x :: x in chain ==> x in g && |Parents(g, x)| <= 1
      decreases Anc(g, tip) - Elems(chain)
    {
      if h !in g { return Err("missing commit"); }
      if |g[h].parents| > 1 { return Err("merge commit"); }
      if |g[h].parents| == 0 {
        EndsAtRoot(g, tip, upstream, h, chain);
        return Ok([h] + chain);
      }
      var p := g[h].parents[0];
      assert Parents(g, h) == [p];
      StepBack(g, tip, reach, h, chain, p);
      chain := [h] + chain;
      h := p;
    }
    EndsAtUpstream(g, tip, upstream, h, chain);
    return Ok(chain);
  }
}
