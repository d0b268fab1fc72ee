/**
  What a peer does with a fetched tip (integrate and conflictBranch of internal/sync/sync.go).
*/
module Sync {
  import opened Dag
  import opened DagWalk
  import opened Lca
  import opened Merge
  import opened Paths
  import opened Store
  import opened VectorClock

  datatype SyncOutcome =
    | Adopted
    | UpToDate
    | FastForwarded
    | Parked(name: string)
    | Merged(h: Hash, kept: seq<string>)
    | Failed

  /** What integrate is told besides the tips: the peer, the clock on the wall and the stored blobs. */
  datatype Remote = Remote(tip: Hash, peer: Peer, now: int, tag: string, sizes: map<string, nat>)

  function ShortPeer(peer: Peer): string {
    if |peer| > 8 then peer[..8] else peer
  }

  /** The ref a remote tip is parked on. */
  function ConflictName(peer: Peer): string {
    "HEAD-peer-" + ShortPeer(peer)
  }

  function MergeMessage(peer: Peer): string {
    "Merge remote " + ShortPeer(peer)
  }

  /** Neither tip is an ancestor of the other, but they share history. */
  ghost predicate TrulyDiverged(g: Graph, local: Hash, remote: Hash) {
    && local != NIL && remote !in Anc(g, local) && local !in Anc(g, remote)
    && Common(g, local, remote) != {}
  }

  /** The state after parking the remote tip: one conflict ref moves, nothing else does. */
  function ParkedState(s: State, r: Remote): State {
    s.(refs := s.refs[ConflictName(r.peer) := r.tip])
  }

  /** The state after a merge commit with tree `m`. */
  ghost predicate MergedState(s: State, r: Remote, local: Hash, branch: string, me: Site, m: FlatMap, h: Hash,
                              s': State)
    requires local in s.commits && r.tip in s.commits
  {
    var c := MergeCommit(s.commits, local, r.tip, me.addr(m), me, r.now, MergeMessage(r.peer));
    && h == me.hash(c)
    && s' == State(s.commits[h := c], s.trees[me.addr(m) := m], s.refs[branch := h], s.head)
  }

  /**
    The tree of a merge over `base`: without overlaps it is tryMerge's map; with overlaps
    the local versions stay and the remote ones are put beside them.
   */
  ghost predicate MergeTree(s: State, r: Remote, base: Hash, local: Hash, overlapping: seq<string>, m: FlatMap) {
    exists merged: FlatMap, keep: FlatMap, copies: FlatMap ::
      && MergeTreeParts(s, r, base, local, overlapping, merged, keep, copies)
      && m == merged + keep + copies
  }

  /**
    Why diverged tips with a merge base are not merged but parked: the base is not stored,
    or files overlap and a tip's tree is unreadable, a remote version cannot be copied, or
    the tree with both versions has a path that no tree may hold.
   */
  ghost predicate MustPark(s: State, r: Remote, base: Hash, local: Hash) {
    || (base == NIL || base !in s.commits)
    || exists merged, overlapping: seq<string> ::
         && IsTryMerge(s, base, local, r.tip, merged, overlapping) && overlapping != []
         && (|| FlatAt(s, local).None? || FlatAt(s, r.tip).None?
             || (exists p :: p in overlapping && p in FlatOf(s, r.tip) && !Copyable(r.sizes, FlatOf(s, r.tip)[p]))
             || (exists m :: MergeTree(s, r, base, local, overlapping, m) && !CleanTreePaths(m.Keys)))
  }

  ghost predicate MergeTreeParts(s: State, r: Remote, base: Hash, local: Hash, overlapping: seq<string>,
                           merged: FlatMap, keep: FlatMap, copies: FlatMap) {
    && IsTryMerge(s, base, local, r.tip, merged, overlapping)
    && IsKept(overlapping, FlatOf(s, local), keep)
    && IsCopied(overlapping, FlatOf(s, r.tip), r.tag, copies)
  }

  ghost predicate IsTryMerge(s: State, base: Hash, local: Hash, remote: Hash, merged: FlatMap,
                             overlapping: seq<string>) {
    && (forall p ::
          Outcome(merged, overlapping, p) == TryMergeAt(FlatOf(s, base), FlatOf(s, local), FlatOf(s, remote), p))
    && (forall p :: p in overlapping ==> p !in merged)
  }

  /** The merge base of diverged tips is a proper ancestor of both, so both tips are stored. */
  lemma DivergedTipsStored(g: Graph, local: Hash, remote: Hash)
    requires TrulyDiverged(g, local, remote)
    ensures local in g && remote in g
  {
    var x :| x in Common(g, local, remote);
    ReachSelf(g, local);
    ReachSelf(g, remote);
    var m: nat :| Steps(g, local, x, m);
    var n: nat :| Steps(g, remote, x, n);
  }

  /** The merge over `base` with tree `m` is committed. */
  ghost predicate MergedOver(s: State, r: Remote, local: Hash, branch: string, me: Site, base: Hash,
                             kept: seq<string>, m: FlatMap, h: Hash, s': State) {
    && BestBase(s.commits, local, r.tip, base) && MergeTree(s, r, base, local, kept, m)
    && CleanTreePaths(m.Keys)
    && local in s.commits && r.tip in s.commits
    && MergedState(s, r, local, branch, me, m, h, s')
  }

  /** integrate over a repository whose branch `localBranch` stands at `localTip`. */
  ghost predicate Integrated(o: SyncOutcome, s: State, r: Remote, local: Hash, branch: string, me: Site, s': State) {
    match o
    case Adopted => local == NIL && s' == s.(refs := s.refs[branch := r.tip])
    case UpToDate => local != NIL && r.tip in Anc(s.commits, local) && s' == s
    case FastForwarded =>
      && local != NIL && local != r.tip && local in Anc(s.commits, r.tip)
      && s' == s.(refs := s.refs[branch := r.tip])
    case Parked(name) =>
      && name == ConflictName(r.peer) && s' == ParkedState(s, r)
      && local != NIL && r.tip !in Anc(s.commits, local) && local !in Anc(s.commits, r.tip)
      && (TrulyDiverged(s.commits, local, r.tip) ==>
            exists base :: BestBase(s.commits, local, r.tip, base) && MustPark(s, r, base, local))
    case Merged(h, kept) =>
      && TrulyDiverged(s.commits, local, r.tip)
      && exists base, m :: MergedOver(s, r, local, branch, me, base, kept, m, h, s')
    case Failed =>
      && TrulyDiverged(s.commits, local, r.tip) && s' == s
      && exists base, m ::
           BestBase(s.commits, local, r.tip, base) && MergeTree(s, r, base, local, [], m) && !CleanTreePaths(m.Keys)
  }

  /** conflictBranch: the remote tip is parked on a ref of its own. */
  method ConflictBranch(repo: Repo, r: Remote) returns (o: SyncOutcome)
    requires repo.Valid()
    modifies repo`refs
    ensures repo.Valid() && o == Parked(ConflictName(r.peer)) && repo.Now() == ParkedState(old(repo.Now()), r)
  {
    var name := ConflictName(r.peer);
    repo.refs := repo.refs[name := r.tip];
    return Parked(name);
  }

  /** The clock of a merge commit: both tips' clocks joined, and this peer's count bumped. */
  method MergedClock(repo: Repo, local: Hash, remote: Hash) returns (counts: Clock)
    requires local in repo.commits && remote in repo.commits
    ensures counts == Bumped(Joined(repo.commits[local].clock, repo.commits[remote].clock), repo.me.id)
  {
    var clock := new VClock(repo.commits[local].clock);
    clock.Merge(repo.commits[remote].clock);
    clock.Increment(repo.me.id);
    return clock.counts;
  }

  /** createMergeCommit: builds the tree, refusing unclean paths, and stores the merge commit. */
  method CreateMergeCommit(repo: Repo, m: FlatMap, local: Hash, r: Remote) returns (res: Result<Hash>)
    requires repo.Valid() && local in repo.commits && r.tip in repo.commits
    modifies repo`commits, repo`trees
    ensures repo.Valid()
    ensures res.Err? <==> !CleanTreePaths(m.Keys)
    ensures res.Err? ==> repo.Now() == old(repo.Now())
    ensures res.Ok? ==>
      var c := MergeCommit(old(repo.commits), local, r.tip, repo.me.addr(m), repo.me, r.now, MergeMessage(r.peer));
      && res.value == repo.me.hash(c)
      && repo.commits == old(repo.commits)[res.value := c]
      && repo.trees == old(repo.trees)[repo.me.addr(m) := m]
  {
    if p :| p in m.Keys && !CleanTreePath(p) { return Err("refusing to build tree"); }
    var root := repo.PutTree(m);
    var counts := MergedClock(repo, local, r.tip);
    var c := Dag.Commit.Commit(root, [local, r.tip], repo.me.user, repo.me.id, r.now, MergeMessage(r.peer), counts);
    var h := repo.Put(c);
    return Ok(h);
  }

  /** The tree that integrate would commit for diverged tips, or nothing when it has to park the remote. */
  method TreeToCommit(repo: Repo, r: Remote, local: Hash, base: Hash) returns (res: Option<(FlatMap, seq<string>)>)
    requires PlainTag(r.tag) && base != NIL
    ensures res.None? ==> MustPark(repo.Now(), r, base, local)
    ensures res.Some? ==> MergeTree(repo.Now(), r, base, local, res.value.1, res.value.0) && base in repo.commits
    ensures res.Some? && res.value.1 != [] ==>
      exists merged :: IsTryMerge(repo.Now(), base, local, r.tip, merged, res.value.1)
  {
    if base !in repo.commits { return None; }
    ghost var s := repo.Now();
    var bm, lm, rm := FlatOf(repo.Now(), base), FlatOf(repo.Now(), local), FlatOf(repo.Now(), r.tip);
    var merged, overlapping := TryMerge(bm, lm, rm);
    assert IsTryMerge(s, base, local, r.tip, merged, overlapping);
    if |overlapping| == 0 {
      assert MergeTreeParts(s, r, base, local, overlapping, merged, map[], map[]);
      assert merged == merged + map[] + map[];
      return Some((merged, overlapping));
    }
    if FlatAt(repo.Now(), local).None? || FlatAt(repo.Now(), r.tip).None? { return None; }
    var both := ResolveOverlaps(overlapping, lm, rm, r.tag, r.sizes);
    if both.Err? { return None; }
    assert MergeTreeParts(s, r, base, local, overlapping, merged, both.value.0, both.value.1);
    return Some((merged + both.value.0 + both.value.1, overlapping));
  }

  /** The diverged case of integrate, from the merge base on. */
  method MergeTips(repo: Repo, r: Remote, local: Hash, branch: string, base: Hash) returns (o: SyncOutcome)
    requires repo.Valid() && PlainTag(r.tag) && base != NIL
    requires TrulyDiverged(repo.commits, local, r.tip) && BestBase(repo.commits, local, r.tip, base)
    modifies repo
    ensures repo.Valid()
    ensures Integrated(o, old(repo.Now()), r, local, branch, repo.me, repo.Now())
  {
    ghost var s := repo.Now();
    DivergedTipsStored(repo.commits, local, r.tip);
    var plan := TreeToCommit(repo, r, local, base);
    if plan.None? {
      o := ConflictBranch(repo, r);
      return;
    }
    o := CommitMerge(repo, r, local, branch, plan.value.0, plan.value.1);
    MergeIsIntegrated(o, s, r, local, branch, repo.me, base, plan.value.0, plan.value.1, repo.Now());
  }

  /** Commits the merged tree and moves the branch to it; a tree that cannot be built parks or fails. */
  method CommitMerge(repo: Repo, r: Remote, local: Hash, branch: string, m: FlatMap, overlapping: seq<string>)
    returns (o: SyncOutcome)
    requires repo.Valid() && local in repo.commits && r.tip in repo.commits
    modifies repo
    ensures repo.Valid()
    ensures CommittedMerge(o, old(repo.Now()), r, local, branch, repo.me, m, overlapping, repo.Now())
  {
    ghost var s := repo.Now();
    var made := CreateMergeCommit(repo, m, local, r);
    if made.Err? {
      if |overlapping| > 0 {
        o := ConflictBranch(repo, r);
        return;
      }
      return Failed;
    }
    repo.refs := repo.refs[branch := made.value];
    var ok := repo.Checkout(made.value);
    return Merged(made.value, overlapping);
  }

  ghost predicate CommittedMerge(o: SyncOutcome, s: State, r: Remote, local: Hash, branch: string, me: Site,
                                 m: FlatMap, overlapping: seq<string>, s': State) {
    && local in s.commits && r.tip in s.commits
    && if CleanTreePaths(m.Keys) then
         o.Merged? && o.kept == overlapping && MergedState(s, r, local, branch, me, m, o.h, s')
       else if overlapping != [] then
         o == Parked(ConflictName(r.peer)) && s' == ParkedState(s, r)
       else
         o == Failed && s' == s
  }

  lemma MergeIsIntegrated(o: SyncOutcome, s: State, r: Remote, local: Hash, branch: string, me: Site, base: Hash,
                          m: FlatMap, overlapping: seq<string>, s': State)
    requires TrulyDiverged(s.commits, local, r.tip) && BestBase(s.commits, local, r.tip, base)
    requires MergeTree(s, r, base, local, overlapping, m)
    requires overlapping != [] ==> exists merged :: IsTryMerge(s, base, local, r.tip, merged, overlapping)
    requires CommittedMerge(o, s, r, local, branch, me, m, overlapping, s')
    ensures Integrated(o, s, r, local, branch, me, s')
  {
    if o.Merged? {
      assert MergedOver(s, r, local, branch, me, base, o.kept, m, o.h, s');
    } else if o.Parked? {
      var merged :| IsTryMerge(s, base, local, r.tip, merged, overlapping);
      assert MustPark(s, r, base, local);
    }
  }

  /**
    integrate returns no error: a merge was not refused, and a tip that the branch was moved
    to could be checked out. The branch has moved even when that failed.
   */
  predicate Succeeds(o: SyncOutcome, s: State, tip: Hash) {
    match o
    case Adopted => Checkable(s, tip)
    case FastForwarded => Checkable(s, tip)
    case Failed => false
    case _ => true
  }

  /** integrate: adopt, keep, fast-forward, merge or park the remote tip; `ok` when it returns no error. */
  method Integrate(repo: Repo, r: Remote, local: Hash, branch: string) returns (o: SyncOutcome, ok: bool)
    requires repo.Valid() && Acyclic(repo.commits) && r.tip != NIL && PlainTag(r.tag)
    modifies repo
    ensures repo.Valid()
    ensures Integrated(o, old(repo.Now()), r, local, branch, repo.me, repo.Now())
    ensures ok <==> Succeeds(o, old(repo.Now()), r.tip)
    ensures local == NIL ==> o == Adopted
    ensures local != NIL && r.tip in Anc(old(repo.commits), local) ==> o == UpToDate
    ensures local != NIL && r.tip !in Anc(old(repo.commits), local) && local in Anc(old(repo.commits), r.tip) ==>
      o == FastForwarded
    ensures local != NIL && Common(old(repo.commits), local, r.tip) == {} ==> o.Parked?
  {
    AncSelf(repo.commits, local);
    if local == NIL {
      repo.refs := repo.refs[branch := r.tip];
      ok := repo.Checkout(r.tip);
      return Adopted, ok;
    }
    var found := Find(repo.commits, local, r.tip);
    if found.Err? || found.value == NIL {
      o := ConflictBranch(repo, r);
      return o, true;
    }
    var base := found.value;
    if base == r.tip {
      return UpToDate, true;
    }
    if base == local {
      repo.refs := repo.refs[branch := r.tip];
      ok := repo.Checkout(r.tip);
      return FastForwarded, ok;
    }
    o := MergeTips(repo, r, local, branch, base);
    ok := !o.Failed?;
  }

  // ---------- When a merge is refused ----------

  /** Without overlaps nothing is put beside the merge. */
  lemma NothingBeside(s: State, r: Remote, base: Hash, local: Hash, m: FlatMap)
    requires MergeTree(s, r, base, local, [], m)
    ensures forall p :: Outcome(m, [], p) == TryMergeAt(FlatOf(s, base), FlatOf(s, local), FlatOf(s, r.tip), p)
  {
    var merged, keep, copies :| MergeTreeParts(s, r, base, local, [], merged, keep, copies)
      && m == merged + keep + copies;
    assert forall p :: At(keep, p) == None ==> p !in keep;
    assert keep == map[] && copies == map[];
    assert m == merged;
  }

  /** integrate is never refused a merge when both tips' files have clean paths. */
  lemma CleanTipsNeverFail(o: SyncOutcome, s: State, r: Remote, local: Hash, branch: string, me: Site, s': State)
    requires Integrated(o, s, r, local, branch, me, s')
    requires CleanTreePaths(FlatOf(s, local).Keys) && CleanTreePaths(FlatOf(s, r.tip).Keys)
    ensures !o.Failed?
  {
    if o.Failed? {
      var base, m :| BestBase(s.commits, local, r.tip, base) && MergeTree(s, r, base, local, [], m)
        && !CleanTreePaths(m.Keys);
      NothingBeside(s, r, base, local, m);
      TakenFromTips(FlatOf(s, base), FlatOf(s, local), FlatOf(s, r.tip), m, []);
      assert false;
    }
  }

  /** `base` is the only merge base that could be chosen, and it is stored. */
  ghost predicate OnlyBase(g: Graph, local: Hash, remote: Hash, base: Hash) {
    base in g && base != NIL && forall c :: BestBase(g, local, remote, c) ==> c == base
  }

  /** A merge over `base` takes a path that no tree may hold, and leaves none undecided. */
  ghost predicate TakesUnclean(s: State, base: Hash, local: Hash, remote: Hash) {
    var bm, lm, rm := FlatOf(s, base), FlatOf(s, local), FlatOf(s, remote);
    && (forall p :: TryMergeAt(bm, lm, rm, p) != Overlap)
    && exists p :: p in lm.Keys + rm.Keys && TryMergeAt(bm, lm, rm, p) != Take(None) && !CleanTreePath(p)
  }

  /**
    With a single stored merge base a merge is refused exactly when the tips have truly
    diverged, no path overlaps, and some path taken from them is unclean. (With an overlap
    the remote tip would be parked instead.)
   */
  lemma FailsExactly(o: SyncOutcome, s: State, r: Remote, local: Hash, branch: string, me: Site, s': State, base: Hash)
    requires Integrated(o, s, r, local, branch, me, s') && OnlyBase(s.commits, local, r.tip, base)
    ensures o == Failed <==> TrulyDiverged(s.commits, local, r.tip) && TakesUnclean(s, base, local, r.tip)
  {
    if o.Failed? {
      var b, m :| BestBase(s.commits, local, r.tip, b) && MergeTree(s, r, b, local, [], m) && !CleanTreePaths(m.Keys);
      NothingBeside(s, r, b, local, m);
      UncleanIsTaken(s, base, local, r.tip, m);
    } else if o.Parked? {
      if TrulyDiverged(s.commits, local, r.tip) { ParkedTakesNothing(s, r, base, local); }
    } else if o.Merged? {
      var b, m :| MergedOver(s, r, local, branch, me, b, o.kept, m, o.h, s');
      MergedTakesClean(s, r, base, local, o.kept, m);
    }
  }

  lemma ParkedTakesNothing(s: State, r: Remote, base: Hash, local: Hash)
    requires MustPark(s, r, base, local) && base != NIL && base in s.commits
    ensures !TakesUnclean(s, base, local, r.tip)
  {
    var merged, overlapping: seq<string> :| IsTryMerge(s, base, local, r.tip, merged, overlapping) && overlapping != [];
    assert Outcome(merged, overlapping, overlapping[0]) == Overlap;
  }

  lemma MergedTakesClean(s: State, r: Remote, base: Hash, local: Hash, kept: seq<string>, m: FlatMap)
    requires MergeTree(s, r, base, local, kept, m) && CleanTreePaths(m.Keys)
    ensures !TakesUnclean(s, base, local, r.tip)
  {
    if kept == [] {
      NothingBeside(s, r, base, local, m);
      UncleanIsTaken(s, base, local, r.tip, m);
    } else {
      var merged, keep, copies :| MergeTreeParts(s, r, base, local, kept, merged, keep, copies)
        && m == merged + keep + copies;
      assert Outcome(merged, kept, kept[0]) == Overlap;
    }
  }

  lemma UncleanIsTaken(s: State, base: Hash, local: Hash, remote: Hash, m: FlatMap)
    requires forall p :: Outcome(m, [], p) == TryMergeAt(FlatOf(s, base), FlatOf(s, local), FlatOf(s, remote), p)
    ensures TakesUnclean(s, base, local, remote) <==> !CleanTreePaths(m.Keys)
  {
    var bm, lm, rm := FlatOf(s, base), FlatOf(s, local), FlatOf(s, remote);
    TakenFromTips(bm, lm, rm, m, []);
    assert forall p :: TryMergeAt(bm, lm, rm, p) == Take(At(m, p));
  }

  // ---------- A merge that is refused ----------

  function Bare(tree: Hash, parents: seq<Hash>): Commit {
    Commit(tree, parents, "", "", 0, "", map[])
  }

  /**
    Commits 2 and 3 grew out of 1. The local commit 2 added a file with a backslash in its
    name, which committing does not object to; the remote commit 3 changed another file.
   */
  const BACKSLASH: State := State(
    map[1 := Bare(10, []), 2 := Bare(20, [1]), 3 := Bare(30, [1])],
    map[10 := map["f" := "x"], 20 := map["f" := "x", "a\\b" := "y"], 30 := map["f" := "z"]],
    map["main" := 2], "main")

  lemma BackslashHistory()
    ensures TrulyDiverged(BACKSLASH.commits, 2, 3) && OnlyBase(BACKSLASH.commits, 2, 3, 1)
    ensures 3 !in Anc(BACKSLASH.commits, 2)
  {
    var g := BACKSLASH.commits;
    ChildOfRoot(g, 2, 1);
    ChildOfRoot(g, 3, 1);
    assert 1 in Common(g, 2, 3);
  }

  lemma ChildOfRoot(g: Graph, h: Hash, root: Hash)
    requires Parents(g, h) == [root] && Parents(g, root) == []
    ensures Anc(g, h) == {h, root}
  {
    AncLeast(g, h, {h, root});
    AncRoom(g, h);
    assert Parents(g, h)[0] == root;
  }

  lemma BackslashTaken()
    ensures TakesUnclean(BACKSLASH, 1, 2, 3)
  {
    var bm, lm, rm := FlatOf(BACKSLASH, 1), FlatOf(BACKSLASH, 2), FlatOf(BACKSLASH, 3);
    assert bm == map["f" := "x"] && lm == map["f" := "x", "a\\b" := "y"] && rm == map["f" := "z"];
    forall p
      ensures TryMergeAt(bm, lm, rm, p) != Overlap
    {
      assert p != "a\\b" ==> At(lm, p) == At(bm, p);
      assert p != "f" ==> At(rm, p) == At(bm, p);
    }
    assert "a\\b"[1] in "a\\b" && !PlainChar("a\\b"[1]);
    assert !CleanTreePath("a\\b");
    assert "a\\b" in lm.Keys + rm.Keys;
  }

  /** integrate can only fail there: nothing changes, and no ref leads to the remote tip. */
  lemma BackslashFails(o: SyncOutcome, r: Remote, me: Site, s': State)
    requires r.tip == 3 && Integrated(o, BACKSLASH, r, 2, "main", me, s')
    ensures o == Failed && s' == BACKSLASH
    ensures forall ref :: ref in s'.refs ==> !Reach(s'.commits, s'.refs[ref], 3)
  {
    BackslashHistory();
    BackslashTaken();
    FailsExactly(o, BACKSLASH, r, 2, "main", me, s', 1);
    AncIsReach(BACKSLASH.commits, 2, 3);
  }
}
