/**
  Merging a branch by hand (internal/sync/localmerge.go): like integrate, but disjoint
  histories are refused and every overlapping path takes one chosen side.
*/
module LocalMerge {
  import opened Dag
  import opened Lca
  import opened Merge
  import opened Paths
  import opened Store
  import opened Sync

  datatype LocalOutcome =
    | Adopted
    | UpToDate
    | FastForwarded
    | Merged(h: Hash, unresolved: seq<string>)
    | Refused

  /** The rule with a preferred side: that side's version, or its absence, where both changed a path. */
  ghost function SideAt(base: FlatMap, local: FlatMap, remote: FlatMap, theirs: bool, p: string): Option<string> {
    match TryMergeAt(base, local, remote, p)
    case Take(v) => v
    case Overlap => if theirs then At(remote, p) else At(local, p)
  }

  ghost predicate IsSided(base: FlatMap, local: FlatMap, remote: FlatMap, theirs: bool, m: FlatMap) {
    forall p :: At(m, p) == SideAt(base, local, remote, theirs, p)
  }

  /** Where the tips overlap. */
  ghost predicate AreOverlaps(base: FlatMap, local: FlatMap, remote: FlatMap, overlapping: seq<string>) {
    forall p :: p in overlapping <==> TryMergeAt(base, local, remote, p) == Overlap
  }

  /** The loop over overlapping paths. */
  method TakeSide(overlapping: seq<string>, merged: FlatMap, side: FlatMap) returns (m: FlatMap)
    ensures forall p :: At(m, p) == if p in overlapping then At(side, p) else At(merged, p)
  {
    m := merged;
    for i := 0 to |overlapping|
      invariant forall p :: At(m, p) == if p in overlapping[..i] then At(side, p) else At(merged, p)
    {
      var p := overlapping[i];
      assert overlapping[..i + 1] == overlapping[..i] + [p];
      if p in side {
        m := m[p := side[p]];
      } else {
        m := m - {p};
      }
    }
    assert overlapping[..|overlapping|] == overlapping;
  }

  /** The tree of the merge and what was resolved by preference. */
  method MergedTree(bm: FlatMap, lm: FlatMap, rm: FlatMap, theirs: bool) returns (m: FlatMap, overlapping: seq<string>)
    ensures IsSided(bm, lm, rm, theirs, m) && AreOverlaps(bm, lm, rm, overlapping)
  {
    var merged;
    merged, overlapping := TryMerge(bm, lm, rm);
    m := TakeSide(overlapping, merged, if theirs then rm else lm);
    forall p
      ensures At(m, p) == SideAt(bm, lm, rm, theirs, p)
      ensures p in overlapping <==> TryMergeAt(bm, lm, rm, p) == Overlap
    {
      assert Outcome(merged, overlapping, p) == TryMergeAt(bm, lm, rm, p);
    }
  }

  /** What a local merge of `remote`, called `name`, does to a repository whose branch stands at `local`. */
  ghost predicate LocallyMerged(o: LocalOutcome, s: State, local: Hash, remote: Hash, name: string, theirs: bool,
                                now: int,
                                me: Site, s': State) {
    match o
    case Adopted => local == NIL && s' == s.(refs := s.refs[s.head := remote])
    case UpToDate => local != NIL && remote in Anc(s.commits, local) && s' == s
    case FastForwarded => local != NIL && local != remote && local in Anc(s.commits, remote)
      && s' == s.(refs := s.refs[s.head := remote])
    case Merged(h, unresolved) =>
      && TrulyDiverged(s.commits, local, remote) && local in s.commits && remote in s.commits
      && exists base, m :: SidedOver(s, local, remote, name, theirs, now, me, base, unresolved, m, h, s')
    case Refused =>
      && local != NIL && remote !in Anc(s.commits, local) && local !in Anc(s.commits, remote) && s' == s
      && (TrulyDiverged(s.commits, local, remote) ==>
        exists base :: BestBase(s.commits, local, remote, base) && Unbuildable(s, base, local, remote, theirs))
  }

  ghost predicate SidedOver(s: State, local: Hash, remote: Hash, name: string, theirs: bool, now: int, me: Site,
                            base: Hash, unresolved: seq<string>, m: FlatMap, h: Hash, s': State)
    requires local in s.commits && remote in s.commits
  {
    && BestBase(s.commits, local, remote, base)
    && IsSided(FlatOf(s, base), FlatOf(s, local), FlatOf(s, remote), theirs, m)
    && AreOverlaps(FlatOf(s, base), FlatOf(s, local), FlatOf(s, remote), unresolved)
    && CleanTreePaths(m.Keys)
    && var c := MergeCommit(s.commits, local, remote, me.addr(m), me, now, "Merge " + name);
       h == me.hash(c) && s' == State(s.commits[h := c], s.trees[me.addr(m) := m], s.refs[s.head := h], s.head)
  }

  /** The base is not stored, or the merged tree has a path that no tree may hold. */
  ghost predicate Unbuildable(s: State, base: Hash, local: Hash, remote: Hash, theirs: bool) {
    || base == NIL || base !in s.commits
    || exists m :: IsSided(FlatOf(s, base), FlatOf(s, local), FlatOf(s, remote), theirs, m) && !CleanTreePaths(m.Keys)
  }

  /** No error is returned: not refused, and the tip that the branch was moved to could be checked out. */
  predicate Succeeds(o: LocalOutcome, s: State, remote: Hash) {
    match o
    case Adopted => Checkable(s, remote)
    case FastForwarded => Checkable(s, remote)
    case Refused => false
    case _ => true
  }

  /** MergeLocalOpts; `ok` when it returns no error. */
  method MergeLocalOpts(repo: Repo, remote: Hash, name: string, theirs: bool, now: int)
    returns (o: LocalOutcome, ok: bool)
    requires repo.Valid() && Acyclic(repo.commits) && remote != NIL
    modifies repo
    ensures repo.Valid()
    ensures LocallyMerged(o, old(repo.Now()), old(repo.Tip()), remote, name, theirs, now, repo.me, repo.Now())
    ensures ok <==> Succeeds(o, old(repo.Now()), remote)
  {
    var local := repo.Tip();
    AncSelf(repo.commits, local);
    if local == NIL {
      repo.refs := repo.refs[repo.head := remote];
      ok := repo.Checkout(remote);
      return LocalOutcome.Adopted, ok;
    }
    if remote == local { return LocalOutcome.UpToDate, true; }
    var found := Find(repo.commits, local, remote);
    if found.Err? || found.value == NIL { return Refused, false; }
    var base := found.value;
    if base == remote { return LocalOutcome.UpToDate, true; }
    if base == local {
      repo.refs := repo.refs[repo.head := remote];
      ok := repo.Checkout(remote);
      return LocalOutcome.FastForwarded, ok;
    }
    o := MergeDiverged(repo, local, remote, name, theirs, now, base);
    ok := !o.Refused?;
  }

  /** The diverged case, from the merge base on. */
  method MergeDiverged(repo: Repo, local: Hash, remote: Hash, name: string, theirs: bool, now: int, base: Hash)
    returns (o: LocalOutcome)
    requires repo.Valid() && local == repo.Tip() && base != NIL
    requires TrulyDiverged(repo.commits, local, remote) && BestBase(repo.commits, local, remote, base)
    modifies repo
    ensures o.Refused? || o.Merged?
    ensures repo.Valid()
    ensures LocallyMerged(o, old(repo.Now()), local, remote, name, theirs, now, repo.me, repo.Now())
  {
    ghost var s := repo.Now();
    DivergedTipsStored(repo.commits, local, remote);
    if base !in repo.commits {
      assert Unbuildable(s, base, local, remote, theirs);
      return Refused;
    }
    var bm, lm, rm := FlatOf(repo.Now(), base), FlatOf(repo.Now(), local), FlatOf(repo.Now(), remote);
    var m, overlapping := MergedTree(bm, lm, rm, theirs);
    if p :| p in m.Keys && !CleanTreePath(p) {
      assert Unbuildable(s, base, local, remote, theirs);
      return Refused;
    }
    var h := CommitLocal(repo, m, local, remote, name, now);
    assert SidedOver(s, local, remote, name, theirs, now, repo.me, base, overlapping, m, h, repo.Now());
    return LocalOutcome.Merged(h, overlapping);
  }

  /** Stores the tree and the merge commit, and moves the branch. */
  method CommitLocal(repo: Repo, m: FlatMap, local: Hash, remote: Hash, name: string, now: int) returns (h: Hash)
    requires repo.Valid() && local in repo.commits && remote in repo.commits && CleanTreePaths(m.Keys)
    modifies repo
    ensures repo.Valid()
    ensures var s := old(repo.Now());
      var c := MergeCommit(s.commits, local, remote, repo.me.addr(m), repo.me, now, "Merge " + name);
      h == repo.me.hash(c) && repo.Now() ==
        State(s.commits[h := c], s.trees[repo.me.addr(m) := m], s.refs[s.head := h], s.head)
  {
    var root := repo.PutTree(m);
    var counts := MergedClock(repo, local, remote);
    h := repo.Put(Dag.Commit.Commit(root, [local, remote], repo.me.user, repo.me.id, now, "Merge " + name, counts));
    repo.refs := repo.refs[repo.head := h];
    var ok := repo.Checkout(h);
  }

  // ---------- Two sides of one merge ----------

  /**
    Keeping mine here and taking theirs there gives one tree, unless the side rule met a
    path that one tip and the base agree on only in lacking a hash.
   */
  lemma SidesMirror(base: FlatMap, x: FlatMap, y: FlatMap, m: FlatMap, n: FlatMap)
    requires IsSided(base, x, y, false, m) && IsSided(base, y, x, true, n)
    requires forall p :: !Blank(base, x, y, p) && !Blank(base, y, x, p)
    ensures m == n
  {
    forall p
      ensures At(m, p) == At(n, p)
    {
      assert At(m, p) == SideAt(base, x, y, false, p);
      assert At(n, p) == SideAt(base, y, x, true, p);
    }
    assert forall p :: p in m <==> At(m, p) != None;
    assert forall p :: p in n <==> At(n, p) != None;
    assert forall p :: p in m ==> At(m, p) == Some(m[p]) && At(n, p) == Some(n[p]);
  }

  /** Every path of the merged tree comes from one of the tips, and a path changed on one side only takes that side. */
  lemma SidedFromTips(base: FlatMap, local: FlatMap, remote: FlatMap, theirs: bool, m: FlatMap, p: string)
    requires IsSided(base, local, remote, theirs, m)
    ensures At(m, p) == At(local, p) || At(m, p) == At(remote, p)
    ensures At(local, p) == At(remote, p) ==> At(m, p) == At(local, p)
    ensures At(local, p) == At(base, p) && !Blank(base, local, remote, p) ==> At(m, p) == At(remote, p)
    ensures At(remote, p) == At(base, p) ==> At(m, p) == At(local, p)
  {
    assert At(m, p) == SideAt(base, local, remote, theirs, p);
  }
}
