/**
  Rebase (internal/gitcompat/rebase.go): the branch's own commits are replayed on a scratch
  branch grown from upstream, stopping at conflicts, and the real branch moves once, at the
  end. Commit times are arbitrary.
*/
module Rebase {
  import opened Dag
  import opened DagWalk
  import opened Lca
  import opened Merge
  import opened Paths
  import opened Pick
  import opened Store

  const SCRATCH: string := "rebase-scratch"

  datatype RebaseState = RebaseState(branch: string, origTip: Hash, upstream: Hash, pending: seq<Hash>, done: seq<Hash>)

  datatype RebaseResult =
    | UpToDate
    | Finished(tip: Hash, shown: bool)
    | Stopped(at: Hash, files: seq<string>)
    | Failed(error: string)

  // ---------- Specification ----------

  function MessageOf(g: Graph, h: Hash): string {
    if h in g then g[h].message else ""
  }

  function Messages(g: Graph, hs: seq<Hash>): (ms: seq<string>)
    ensures |ms| == |hs|
  {
    seq(|hs|, i requires 0 <= i < |hs| => MessageOf(g, hs[i]))
  }

  /** Going back from `tip` by single parents, the commits down to `base` carry `messages`, oldest first. */
  ghost predicate Replayed(g: Graph, tip: Hash, base: Hash, messages: seq<string>)
    decreases |messages|
  {
    if messages == [] then tip == base
    else
      && tip in g && |g[tip].parents| == 1 && g[tip].message == messages[|messages| - 1]
      && Replayed(g, g[tip].parents[0], base, messages[..|messages| - 1])
  }

  lemma {:induction false} ReplayedGrows(a: Graph, b: Graph, tip: Hash, base: Hash, messages: seq<string>)
    requires SubGraph(a, b) && Replayed(a, tip, base, messages)
    ensures Replayed(b, tip, base, messages)
    decreases |messages|
  {
    if messages != [] {
      ReplayedGrows(a, b, a[tip].parents[0], base, messages[..|messages| - 1]);
    }
  }

  lemma ReplayedNext(g: Graph, tip: Hash, base: Hash, messages: seq<string>, h: Hash, c: Commit)
    requires Replayed(g, tip, base, messages) && (h in g ==> g[h] == c) && c.parents == [tip]
    ensures Replayed(g[h := c], h, base, messages + [c.message])
  {
    ReplayedGrows(g, g[h := c], tip, base, messages);
    assert (messages + [c.message])[..|messages|] == messages;
  }

  lemma MessagesGrow(a: Graph, b: Graph, hs: seq<Hash>)
    requires SubGraph(a, b) && Elems(hs) <= a.Keys
    ensures Messages(b, hs) == Messages(a, hs)
  {
    forall i | 0 <= i < |hs|
      ensures MessageOf(a, hs[i]) == MessageOf(b, hs[i])
    {
      assert hs[i] in Elems(hs);
    }
  }

  /** The commits of `chain` that are not at a skipped position, in order. */
  ghost function Played(chain: seq<Hash>, skipped: set<nat>): (r: seq<Hash>)
    ensures forall x :: x in r ==> x in chain
    decreases |chain|
  {
    if chain == [] then []
    else
      var k := |chain| - 1;
      Played(chain[..k], skipped) + if k in skipped then [] else [chain[k]]
  }

  lemma {:induction false} SkippedLater(chain: seq<Hash>, skipped: set<nat>, k: nat)
    requires k >= |chain|
    ensures Played(chain, skipped + {k}) == Played(chain, skipped)
    decreases |chain|
  {
    if chain != [] { SkippedLater(chain[..|chain| - 1], skipped, k); }
  }

  /** One more commit is played, or skipped. */
  lemma PlayedNext(done: seq<Hash>, skipped: set<nat>, x: Hash)
    requires |done| !in skipped
    ensures Played(done + [x], skipped) == Played(done, skipped) + [x]
    ensures Played(done + [x], skipped + {|done|}) == Played(done, skipped)
  {
    assert (done + [x])[..|done|] == done;
    SkippedLater(done, skipped, |done|);
  }

  lemma {:induction false} PlayedAll(chain: seq<Hash>)
    ensures Played(chain, {}) == chain
    decreases |chain|
  {
    if chain != [] {
      PlayedAll(chain[..|chain| - 1]);
      assert chain == chain[..|chain| - 1] + [chain[|chain| - 1]];
    }
  }

  /** Nothing but the skipped commits is missing. */
  lemma {:induction false} PlayedHolds(chain: seq<Hash>, skipped: set<nat>)
    requires forall k :: k in skipped ==> k < |chain|
    ensures |Played(chain, skipped)| == |chain| - |skipped|
    ensures forall k :: 0 <= k < |chain| && k !in skipped ==> chain[k] in Played(chain, skipped)
    decreases |chain|
  {
    if chain == [] {
      assert skipped == {};
    } else {
      var n := |chain| - 1;
      PlayedHolds(chain[..n], skipped - {n});
      SkippedLater(chain[..n], skipped - {n}, n);
      assert n in skipped ==> skipped - {n} + {n} == skipped;
      assert n !in skipped ==> skipped - {n} == skipped;
    }
  }

  /**
    A rebase in progress. Done and pending commits make up the original chain; every ref
    but the scratch branch is as it was; and the scratch branch carries, on top of upstream,
    the messages of the done commits that were not skipped.
   */
  ghost predicate Underway(s: State, st: RebaseState, chain: seq<Hash>, skipped: set<nat>, refs0: map<string, Hash>) {
    && st.done + st.pending == chain && Elems(chain) <= s.commits.Keys
    && (forall k :: k in skipped ==> k < |st.done|)
    && SCRATCH !in refs0 && TipOf(refs0, st.branch) == st.origTip && st.branch in refs0
    && SCRATCH in s.refs && s.refs[SCRATCH] in s.commits && s.refs - {SCRATCH} == refs0
    && Replayed(s.commits, s.refs[SCRATCH], st.upstream, Messages(s.commits, Played(st.done, skipped)))
  }

  /** The state with the first pending commit done. */
  function Onward(st: RebaseState): RebaseState
    requires st.pending != []
  {
    st.(done := st.done + [st.pending[0]], pending := st.pending[1..])
  }

  /** The end of a rebase: only the branch has moved, onto the recorded messages above upstream. */
  ghost predicate Rebased(s: State, branch: string, upstream: Hash, recorded: seq<Hash>, refs0: map<string, Hash>,
                          tip: Hash) {
    && s.refs == refs0[branch := tip] && s.head == branch
    && Replayed(s.commits, tip, upstream, Messages(s.commits, recorded))
  }

  lemma MessagesMore(a: Graph, b: Graph, hs: seq<Hash>, x: Hash)
    requires SubGraph(a, b) && Elems(hs) <= a.Keys && x in a
    ensures Messages(b, hs + [x]) == Messages(a, hs) + [MessageOf(a, x)]
  {
    MessagesGrow(a, b, hs);
    assert Messages(b, hs + [x])[..|hs|] == Messages(b, hs);
  }

  /** One more commit on the scratch branch replays the next original. */
  lemma RecordNext(s: State, s': State, st: RebaseState, chain: seq<Hash>, skipped: set<nat>, refs0: map<string, Hash>,
                   hash: Commit -> Hash, c: Commit, h: Hash)
    requires Underway(s, st, chain, skipped, refs0) && st.pending != []
    requires IdealHash(hash) && Addressed(s.commits, hash) && h == hash(c)
    requires c.parents == [s.refs[SCRATCH]] && c.message == MessageOf(s.commits, st.pending[0])
    requires s'.commits == s.commits[h := c] && s'.refs == s.refs[SCRATCH := h]
    ensures Underway(s', Onward(st), chain, skipped, refs0)
  {
    PendingNext(st, chain);
    PlayedNext(st.done, skipped, st.pending[0]);
    assert s'.refs - {SCRATCH} == s.refs - {SCRATCH};
    ReplayRecords(s.commits, s.refs[SCRATCH], st.upstream, Played(st.done, skipped), st.pending[0], h, c);
  }

  lemma PendingNext(st: RebaseState, chain: seq<Hash>)
    requires st.done + st.pending == chain && st.pending != []
    ensures Onward(st).done + Onward(st).pending == chain && st.pending[0] in Elems(chain)
      && Elems(st.done) <= Elems(chain)
  {
    assert st.done + st.pending == st.done + [st.pending[0]] + st.pending[1..];
    assert st.pending[0] == chain[|st.done|] && st.pending[0] in chain;
  }

  lemma ReplayRecords(g: Graph, tip: Hash, base: Hash, recorded: seq<Hash>, x: Hash, h: Hash, c: Commit)
    requires Replayed(g, tip, base, Messages(g, recorded)) && Elems(recorded) <= g.Keys && x in g
    requires (h in g ==> g[h] == c) && c.parents == [tip] && c.message == MessageOf(g, x)
    ensures Replayed(g[h := c], h, base, Messages(g[h := c], recorded + [x]))
  {
    MessagesMore(g, g[h := c], recorded, x);
    ReplayedNext(g, tip, base, Messages(g, recorded), h, c);
  }

  /** Skipping the next original leaves the scratch branch alone. */
  lemma SkipNext(s: State, st: RebaseState, chain: seq<Hash>, skipped: set<nat>, refs0: map<string, Hash>)
    requires Underway(s, st, chain, skipped, refs0) && st.pending != []
    ensures Underway(s, Onward(st), chain, skipped + {|st.done|}, refs0)
  {
    PendingNext(st, chain);
    PlayedNext(st.done, skipped, st.pending[0]);
  }

  /** A picked commit on the scratch branch records the next original under its own message. */
  lemma PickRecords(s: State, s': State, st: RebaseState, chain: seq<Hash>, skipped: set<nat>, refs0: map<string, Hash>,
                    m: FlatMap, me: Site, h: Hash)
    requires Underway(s, st, chain, skipped, refs0) && st.pending != [] && s.head == SCRATCH
    requires IdealHash(me.hash) && Addressed(s.commits, me.hash)
    requires CommittedOn(s, s', m, MessageOf(s.commits, st.pending[0]), me, h)
    ensures Underway(s', Onward(st), chain, skipped, refs0)
    ensures s'.head == SCRATCH
  {
    var tip := s.refs[SCRATCH];
    var now :| var c := NewCommit(s.commits, tip, me.addr(m), me, now, MessageOf(s.commits, st.pending[0]));
      h == me.hash(c) && s' == State(s.commits[h := c], s.trees[me.addr(m) := m], s.refs[s.head := h], s.head);
    var c := NewCommit(s.commits, tip, me.addr(m), me, now, MessageOf(s.commits, st.pending[0]));
    RecordNext(s, s', st, chain, skipped, refs0, me.hash, c, h);
  }

  /** What a rebase needs before it looks at the two tips. */
  ghost predicate CanStart(st: Option<RebaseState>, s: State, upstream: Hash, clean: bool) {
    var tip := TipOf(s.refs, s.head);
    && st.None? && clean && tip != NIL && upstream in s.commits
    && (UpToDateWith(s.commits, tip, upstream) || (LinearAbove(s.commits, tip, upstream) && SCRATCH !in s.refs))
  }

  /** One of the tips reaches the other. */
  ghost predicate UpToDateWith(g: Graph, tip: Hash, upstream: Hash) {
    upstream in Anc(g, tip) || tip in Anc(g, upstream)
  }

  lemma ReachedIsLinear(g: Graph, tip: Hash, upstream: Hash)
    ensures tip in Anc(g, upstream) ==> LinearAbove(g, tip, upstream)
    ensures tip in Anc(g, tip)
  {
    AncSelf(g, tip);
    if tip in Anc(g, upstream) { AncTrans(g, upstream, tip); }
  }

  lemma StartUnderway(s: State, s': State, st: RebaseState)
    requires SCRATCH !in s.refs && st.branch in s.refs && s.refs[st.branch] == st.origTip && st.done == []
    requires s'.commits == s.commits && s'.refs == s.refs[SCRATCH := st.upstream]
    requires Elems(st.pending) <= s.commits.Keys && st.upstream in s.commits
    ensures Underway(s', st, st.pending, {}, s.refs)
  {
    assert Messages(s'.commits, []) == [];
  }

  // ---------- Disjoint changes ----------

  /** The files before the chain's `k`-th commit. */
  ghost function Version(s: State, base: FlatMap, chain: seq<Hash>, k: nat): FlatMap
    requires k <= |chain|
  {
    if k == 0 then base else FlatOf(s, chain[k - 1])
  }

  /** `m` is upstream's file wherever upstream changed the base, and `v`'s elsewhere. */
  ghost predicate Mixed(base: FlatMap, up: FlatMap, v: FlatMap, m: FlatMap) {
    forall p :: At(m, p) == if At(up, p) != At(base, p) then At(up, p) else At(v, p)
  }

  /** Every tree the replay reads is there with clean paths, and the chain is a path off `base`. */
  ghost predicate Readable(s: State, base: FlatMap, up: FlatMap, chain: seq<Hash>) {
    && CleanTreePaths(up.Keys)
    && (forall i :: 0 <= i < |chain| ==> FlatAt(s, chain[i]).Some? && CleanTreePaths(FlatOf(s, chain[i]).Keys))
    && (forall i :: 0 <= i < |chain| ==>
      chain[i] in s.commits && PickBase(s, chain[i]) == Some(Version(s, base, chain, i)))
  }

  /** Upstream and the branch change no path in common: where upstream differs from the base, no version does. */
  ghost predicate TouchDisjoint(s: State, base: FlatMap, up: FlatMap, chain: seq<Hash>) {
    forall p, k :: 0 <= k <= |chain| && At(up, p) != At(base, p) ==> At(Version(s, base, chain, k), p) == At(base, p)
  }

  /** A replay with nothing in its way, `k` commits in. */
  ghost predicate Smooth(s: State, base: FlatMap, up: FlatMap, chain: seq<Hash>, k: nat) {
    && Readable(s, base, up, chain) && TouchDisjoint(s, base, up, chain) && k <= |chain|
    && SCRATCH in s.refs && FlatAt(s, s.refs[SCRATCH]).Some?
    && Mixed(base, up, Version(s, base, chain, k), FlatOf(s, s.refs[SCRATCH]))
  }

  /** Later states read the same files. */
  ghost predicate SameFiles(s: State, s': State) {
    && (forall h :: h in s.commits ==> h in s'.commits && s'.commits[h] == s.commits[h])
    && (forall t :: t in s.trees ==> t in s'.trees && s'.trees[t] == s.trees[t])
  }

  lemma SmoothGrows(s: State, s': State, base: FlatMap, up: FlatMap, chain: seq<Hash>)
    requires SameFiles(s, s') && Readable(s, base, up, chain) && TouchDisjoint(s, base, up, chain)
    ensures Readable(s', base, up, chain) && TouchDisjoint(s', base, up, chain)
    ensures forall k :: 0 <= k <= |chain| ==> Version(s', base, chain, k) == Version(s, base, chain, k)
  {
    assert forall h :: FlatAt(s, h).Some? ==> FlatAt(s', h) == FlatAt(s, h);
    forall k | 0 <= k <= |chain|
      ensures Version(s', base, chain, k) == Version(s, base, chain, k)
    {
      assert k > 0 ==> FlatAt(s, chain[k - 1]).Some?;
    }
  }

  /** Replaying a step of the branch on disjoint upstream changes never conflicts. */
  lemma DisjointMerge(base: FlatMap, up: FlatMap, v: FlatMap, w: FlatMap, ours: FlatMap, m: FlatMap, files: seq<string>)
    requires Mixed(base, up, v, ours) && IsThreeWay(v, ours, w, m, files)
    requires forall p :: At(up, p) != At(base, p) ==> At(v, p) == At(base, p) && At(w, p) == At(base, p)
    ensures files == [] && Mixed(base, up, w, m) && m.Keys <= up.Keys + w.Keys
  {
    assert files != [] ==> files[0] in files;
    forall p
      ensures p !in files && At(m, p) == if At(up, p) != At(base, p) then At(up, p) else At(w, p)
    {
      assert Outcome(m, files, p) == ThreeWay(At(v, p), At(ours, p), At(w, p));
    }
    assert forall p :: p in m ==> At(m, p) == At(up, p) || At(m, p) == At(w, p);
  }

  /** What is mixed from disjoint changes is the three-way merge at the fork. */
  lemma MixedIsMerge(base: FlatMap, up: FlatMap, v: FlatMap, m: FlatMap)
    requires Mixed(base, up, v, m) && forall p :: At(up, p) != At(base, p) ==> At(v, p) == At(base, p)
    ensures IsThreeWay(base, up, v, m, [])
  {
    forall p
      ensures Outcome(m, [], p) == ThreeWay(At(base, p), At(up, p), At(v, p))
    {
    }
  }

  /** On a smooth replay the pick goes through, and stays smooth. */
  lemma SmoothPick(s: State, s': State, st: RebaseState, base: FlatMap, up: FlatMap, chain: seq<Hash>, message: string,
                   me: Site, r: PickResult)
    requires Smooth(s, base, up, chain, |st.done|) && st.done + st.pending == chain && st.pending != []
    requires s.head == SCRATCH && s.refs[SCRATCH] != NIL
    requires IdealHash(me.hash) && Addressed(s.commits, me.hash) && TreesAddressed(s.trees, me.addr)
    requires PickOutcome(s, s', st.pending[0], message, me, r)
    ensures r.Picked? && Smooth(s', base, up, chain, |st.done| + 1) && SameVersions(s, s', base, chain)
  {
    var k := |st.done|;
    assert chain[k] == st.pending[0];
    var m, files := SmoothMerge(s, s', base, up, chain, k, message, me, r);
    CommittedFiles(s, s', m, message, me, r.h);
    SmoothGrows(s, s', base, up, chain);
  }

  lemma SmoothMerge(s: State, s': State, base: FlatMap, up: FlatMap, chain: seq<Hash>, k: nat, message: string,
                    me: Site, r: PickResult)
    returns (m: FlatMap, files: seq<string>)
    requires Smooth(s, base, up, chain, k) && k < |chain| && s.head == SCRATCH && s.refs[SCRATCH] != NIL
    requires PickOutcome(s, s', chain[k], message, me, r)
    ensures Mixed(base, up, Version(s, base, chain, k + 1), m)
    ensures r.Picked? && CommittedOn(s, s', m, message, me, r.h)
  {
    assert FlatAt(s, chain[k]).Some?;
    assert Pickable(s, chain[k]);
    var v, w, ours := Version(s, base, chain, k), Version(s, base, chain, k + 1), FlatOf(s, s.refs[SCRATCH]);
    m, files :|
      && IsThreeWay(v, ours, w, m, files)
      && if files != [] then r == Conflict(files) && s' == s
         else if !CleanTreePaths(m.Keys) then r.Refused? && s' == s
         else r.Picked? && CommittedOn(s, s', m, message, me, r.h);
    DisjointMerge(base, up, v, w, ours, m, files);
  }

  lemma CommittedFiles(s: State, s': State, m: FlatMap, message: string, me: Site, h: Hash)
    requires s.head == SCRATCH && CommittedOn(s, s', m, message, me, h)
    requires IdealHash(me.hash) && Addressed(s.commits, me.hash) && TreesAddressed(s.trees, me.addr)
    ensures SameFiles(s, s') && SCRATCH in s'.refs && s'.refs[SCRATCH] == h && FlatAt(s', h) == Some(m)
  {
  }

  /** The files at the fork: those of the first parent of the oldest replayed commit, or none. */
  ghost function ForkBase(s: State, chain: seq<Hash>): FlatMap {
    if chain != [] && chain[0] in s.commits && PickBase(s, chain[0]).Some? then PickBase(s, chain[0]).value else map[]
  }

  /** Upstream and the branch change disjoint paths since the fork, and everything is readable. */
  ghost predicate ForkSmooth(s: State, chain: seq<Hash>, upstream: Hash) {
    && FlatAt(s, upstream).Some?
    && Readable(s, ForkBase(s, chain), FlatOf(s, upstream), chain)
    && TouchDisjoint(s, ForkBase(s, chain), FlatOf(s, upstream), chain)
  }

  lemma SmoothStart(s: State, s': State, chain: seq<Hash>, upstream: Hash)
    requires ForkSmooth(s, chain, upstream)
    requires s'.commits == s.commits && s'.trees == s.trees && s'.refs == s.refs[SCRATCH := upstream]
    ensures Smooth(s', ForkBase(s, chain), FlatOf(s, upstream), chain, 0)
    ensures SameVersions(s, s', ForkBase(s, chain), chain)
  {
    SmoothGrows(s, s', ForkBase(s, chain), FlatOf(s, upstream), chain);
    assert FlatAt(s', upstream) == FlatAt(s, upstream);
  }

  ghost predicate SameVersions(s: State, s': State, base: FlatMap, chain: seq<Hash>) {
    forall k :: 0 <= k <= |chain| ==> Version(s', base, chain, k) == Version(s, base, chain, k)
  }

  /** The finished branch holds the three-way merge, at the fork, of upstream and the old branch. */
  ghost predicate SmoothEnd(s: State, s': State, base: FlatMap, up: FlatMap, chain: seq<Hash>, tip: Hash) {
    FlatAt(s', tip).Some? && IsThreeWay(base, up, Version(s, base, chain, |chain|), FlatOf(s', tip), [])
  }

  lemma SmoothFinish(s0: State, s: State, s': State, base: FlatMap, up: FlatMap, chain: seq<Hash>, tip: Hash)
    requires Smooth(s, base, up, chain, |chain|) && SameVersions(s0, s, base, chain)
    requires s'.commits == s.commits && s'.trees == s.trees && tip == s.refs[SCRATCH]
    ensures SmoothEnd(s0, s', base, up, chain, tip)
  {
    MixedIsMerge(base, up, Version(s, base, chain, |chain|), FlatOf(s, tip));
  }

  class Rebaser {
    const repo: Repo
    var st: Option<RebaseState>
    ghost var chain: seq<Hash>
    /** The positions in the chain of the commits that a continue found nothing to resolve in. */
    ghost var skipped: set<nat>
    ghost var refs0: map<string, Hash>

    ghost predicate Valid()
      reads this, repo
    {
      && repo.Valid()
      && (st.Some? ==> Underway(repo.Now(), st.value, chain, skipped, refs0))
    }

    constructor (repo: Repo)
      requires repo.Valid()
      ensures Valid() && this.repo == repo && st == None
    {
      this.repo, st, chain, skipped, refs0 := repo, None, [], {}, map[];
    }

    /**
      What every command that replays may leave: still underway, at the first commit that
      was not played, or finished, with only the branch moved, onto the messages of all
      commits of the chain that were not skipped.
     */
    twostate predicate ReplayedOrStopped(r: RebaseResult)
      requires old(st).Some?
      reads this, repo
    {
      && chain == old(chain) && refs0 == old(refs0)
      && match r
         case Finished(tip, _) =>
           st == None && Rebased(repo.Now(), old(st).value.branch, old(st).value.upstream, Played(chain, skipped),
               refs0, tip)
         case UpToDate => false
         case Stopped(at, files) => SameRebase() && st.value.pending != [] && at == st.value.pending[0] && files != []
         case Failed(_) => SameRebase() && st.value.pending != []
    }

    /** The same rebase is still in progress on the scratch branch. */
    twostate predicate SameRebase()
      requires old(st).Some?
      reads this, repo
    {
      && st.Some? && repo.head == SCRATCH
      && st.value.branch == old(st).value.branch && st.value.origTip == old(st).value.origTip
        && st.value.upstream == old(st).value.upstream
    }

    /** rebaseFinish: the branch moves onto the scratch tip and the scratch branch goes. */
    method Finish() returns (r: RebaseResult)
      requires Valid() && st.Some? && st.value.pending == [] && repo.head == SCRATCH
      modifies this, repo
      ensures Valid() && st == None && chain == old(chain) && skipped == old(skipped) && refs0 == old(refs0)
      ensures r == Finished(old(repo.Tip()), Checkable(repo.Now(), old(repo.Tip())))
      ensures Rebased(repo.Now(), old(st).value.branch, old(st).value.upstream, Played(chain, skipped), refs0, r.tip)
      ensures repo.commits == old(repo.commits) && repo.trees == old(repo.trees)
    {
      var s := st.value;
      assert s.done + [] == s.done;
      var newTip := repo.Tip();
      repo.refs := repo.refs[s.branch := newTip];
      repo.head := s.branch;
      repo.refs := repo.refs - {SCRATCH};
      st := None;
      var shown := repo.Checkout(newTip);
      return Finished(newTip, shown);
    }

    /** One turn of rebaseReplay: the next pending commit is picked and recorded, or stops the replay. */
    method ReplayOne(ghost base: FlatMap, ghost up: FlatMap) returns (p: PickResult)
      requires Valid() && st.Some? && repo.head == SCRATCH && st.value.pending != []
      modifies this, repo
      ensures Valid() && SameRebase() && chain == old(chain) && skipped == old(skipped) && refs0 == old(refs0)
      ensures st == if p.Picked? then Some(Onward(old(st).value)) else old(st)
      ensures p.Conflict? ==> p.files != []
      ensures Smooth(old(repo.Now()), base, up, chain, |old(st).value.done|) ==>
        p.Picked? && Smooth(repo.Now(), base, up, chain, |st.value.done|)
          && SameVersions(old(repo.Now()), repo.Now(), base, chain)
    {
      var target := st.value.pending[0];
      if target !in repo.commits { return Refused("missing commit"); }
      p := PickNext(target, base, up);
      if p.Picked? { st := Some(Onward(st.value)); }
    }

    /** The pick of one turn: it records the original on the scratch branch, or changes nothing. */
    method PickNext(target: Hash, ghost base: FlatMap, ghost up: FlatMap) returns (p: PickResult)
      requires Valid() && st.Some? && repo.head == SCRATCH && st.value.pending != []
      requires target == st.value.pending[0] && target in repo.commits
      modifies repo
      ensures repo.Valid() && repo.head == SCRATCH
      ensures if p.Picked? then
                Underway(repo.Now(), Onward(st.value), chain, skipped, refs0)
              else
                repo.Now() == old(repo.Now()) && (p.Conflict? ==> p.files != [])
      ensures Smooth(old(repo.Now()), base, up, chain, |st.value.done|) ==>
        p.Picked? && Smooth(repo.Now(), base, up, chain, |st.value.done| + 1)
          && SameVersions(old(repo.Now()), repo.Now(), base, chain)
    {
      ghost var s := repo.Now();
      p := ApplyPick(repo, target, repo.commits[target].message);
      if Smooth(s, base, up, chain, |st.value.done|) {
        SmoothPick(s, repo.Now(), st.value, base, up, chain, MessageOf(s.commits, target), repo.me, p);
      }
      if p.Picked? {
        ghost var m :| CommittedOn(s, repo.Now(), m, MessageOf(s.commits, target), repo.me, p.h);
        PickRecords(s, repo.Now(), st.value, chain, skipped, refs0, m, repo.me, p.h);
      }
    }

    /** rebaseReplay: every pending commit in order, until one conflicts or cannot be replayed. */
    method Replay(ghost base: FlatMap, ghost up: FlatMap) returns (r: RebaseResult)
      requires Valid() && st.Some? && repo.head == SCRATCH
      modifies this, repo
      ensures Valid() && ReplayedOrStopped(r) && skipped == old(skipped)
      ensures st.Some? ==> |old(st).value.done| <= |st.value.done|
      ensures Smooth(old(repo.Now()), base, up, chain, |old(st).value.done|) ==>
        r.Finished? && SmoothEnd(old(repo.Now()), repo.Now(), base, up, chain, r.tip)
    {
      ghost var s0 := repo.Now();
      ghost var smooth := Smooth(s0, base, up, chain, |st.value.done|);
      while |st.value.pending| > 0
        invariant st.Some? && Valid() && SameRebase()
        invariant chain == old(chain) && skipped == old(skipped) && refs0 == old(refs0)
        invariant |old(st).value.done| <= |st.value.done|
        invariant smooth ==>
          Smooth(repo.Now(), base, up, chain, |st.value.done|) && SameVersions(s0, repo.Now(), base, chain)
        decreases |st.value.pending|
      {
        var target := st.value.pending[0];
        var p := ReplayOne(base, up);
        if p.Conflict? { return Stopped(target, p.files); }
        if p.Refused? { return Failed(p.error); }
      }
      assert st.value.done + [] == st.value.done;
      ghost var s1 := repo.Now();
      r := Finish();
      if smooth { SmoothFinish(s0, s1, repo.Now(), base, up, chain, r.tip); }
    }

    /**
      RebaseStart. Nothing changes when a rebase is underway, the working tree is dirty,
      the branch is unborn, upstream is unknown, one tip reaches the other, the branch's
      own history is not linear, or the scratch branch exists. Otherwise the chain is the
      branch's own history; without a conflict it all ends up above upstream, message by
      message, and only the branch has moved.
     */
    method Start(upstream: Hash, clean: bool) returns (r: RebaseResult)
      requires Valid() && Acyclic(repo.commits)
      modifies this, repo
      ensures Valid()
      ensures if !CanStart(old(st), old(repo.Now()), upstream, clean) then
                r.Failed? && st == old(st) && repo.Now() == old(repo.Now()) && repo.work == old(repo.work)
              else if UpToDateWith(old(repo.commits), old(repo.Tip()), upstream) then
                r == UpToDate && st == old(st) && repo.Now() == old(repo.Now()) && repo.work == old(repo.work)
              else
                && BranchChain(old(repo.commits), old(repo.Tip()), upstream, chain) && refs0 == old(repo.refs)
                && match r
                   case Finished(t, _) => st == None && Rebased(repo.Now(), old(repo.head), upstream, chain, refs0, t)
                   case UpToDate => false
                   case _ => Begun(old(repo.Now()), upstream)
      ensures CanStart(old(st), old(repo.Now()), upstream, clean) ==>
        !UpToDateWith(old(repo.commits), old(repo.Tip()), upstream) ==> ForkSmooth(old(repo.Now()), chain, upstream) ==>
          && r.Finished?
          && SmoothEnd(old(repo.Now()), repo.Now(), ForkBase(old(repo.Now()), chain),
                       FlatOf(old(repo.Now()), upstream), chain, r.tip)
    {
      if st.Some? { return Failed("rebase already in progress"); }
      if !clean { return Failed("workdir dirty"); }
      var tip, branch := repo.Tip(), repo.head;
      if tip == NIL { return Failed("no commits yet"); }
      if upstream !in repo.commits { return Failed("unknown upstream commit"); }
      AncIsReach(repo.commits, tip, upstream);
      if upstream == tip {
        AncSelf(repo.commits, tip);
        return UpToDate;
      }
      var above := IsAncestor(repo.commits, upstream, tip);
      if above { return UpToDate; }
      var found := RebaseChain(repo.commits, tip, upstream);
      ReachedIsLinear(repo.commits, tip, upstream);
      if found.Err? { return Failed(found.error); }
      if |found.value| == 0 {
        assert tip !in Elems(found.value);
        return UpToDate;
      }
      if SCRATCH in repo.refs { return Failed("scratch branch exists"); }
      r := Begin(upstream, found.value);
    }

    /** The rest of RebaseStart: the scratch branch at upstream, the state saved, the replay. */
    method Begin(upstream: Hash, commits: seq<Hash>) returns (r: RebaseResult)
      requires Valid() && st.None? && upstream in repo.commits && repo.head in repo.refs && SCRATCH !in repo.refs
      requires Elems(commits) <= repo.commits.Keys
      modifies this, repo
      ensures Valid() && chain == commits && refs0 == old(repo.refs)
      ensures match r
        case Finished(t, _) => st == None && Rebased(repo.Now(), old(repo.head), upstream, chain, refs0, t)
        case UpToDate => false
        case _ => Begun(old(repo.Now()), upstream)
      ensures ForkSmooth(old(repo.Now()), chain, upstream) ==>
        r.Finished? && SmoothEnd(old(repo.Now()), repo.Now(), ForkBase(old(repo.Now()), chain),
            FlatOf(old(repo.Now()), upstream), chain, r.tip)
    {
      ghost var s := repo.Now();
      ghost var base, up := ForkBase(s, commits), FlatOf(s, upstream);
      var branch, tip := repo.head, repo.Tip();
      repo.refs := repo.refs[SCRATCH := upstream];
      st := Some(RebaseState(branch, tip, upstream, commits, []));
      chain, skipped, refs0 := commits, {}, s.refs;
      repo.head := SCRATCH;
      StartUnderway(s, repo.Now(), st.value);
      var shown := repo.Checkout(upstream);
      if !shown { return Failed("cannot check out upstream"); }
      if ForkSmooth(s, commits, upstream) { SmoothStart(s, repo.Now(), commits, upstream); }
      r := Replay(base, up);
      PlayedAll(commits);
    }

    /** A rebase of what `s`'s HEAD named is in progress, and nothing has been skipped. */
    ghost predicate Begun(s: State, upstream: Hash)
      reads this
    {
      && st.Some? && st.value.branch == s.head && st.value.origTip == TipOf(s.refs, s.head)
      && st.value.upstream == upstream && skipped == {}
    }

    /**
      RebaseContinue with the scanned working tree `files` at address `root`: the resolution
      is committed under the stopping commit's own message, or the commit is skipped,
      exactly when the address is that of the scratch tip's tree; and the replay goes on.
     */
    method Continue(root: Hash, files: FlatMap) returns (r: RebaseResult)
      requires Valid() && (root in repo.trees ==> repo.trees[root] == files)
        && (forall m :: repo.me.addr(m) == root ==> m == files)
      modifies this, repo
      ensures Valid()
      ensures !old(Resumable()) ==>
        r.Failed? && st == old(st) && repo.Now() == old(repo.Now()) && chain == old(chain)
          && skipped == old(skipped) && refs0 == old(refs0)
      ensures old(Resumable()) ==>
        && ReplayedOrStopped(r)
        && (st.Some? ==> |st.value.done| > |old(st).value.done|)
        && skipped == old(skipped) + if old(Unresolved(root)) then {|old(st).value.done|} else {}
    {
      if st.None? { return Failed("no rebase in progress"); }
      if |st.value.pending| == 0 { return Failed("nothing pending"); }
      if repo.head != SCRATCH && repo.head != st.value.branch { return Failed("HEAD is elsewhere"); }
      repo.head := SCRATCH;
      PendingNext(st.value, chain);
      var target := st.value.pending[0];
      if target !in repo.commits { return Failed("missing commit"); }
      Resolve(root, files);
      r := Replay(map[], map[]);
    }

    /** A rebase has stopped, and HEAD is on the scratch branch or the branch being rebased. */
    predicate Resumable()
      reads this, repo
    {
      st.Some? && st.value.pending != [] && (repo.head == SCRATCH || repo.head == st.value.branch)
    }

    /** The scratch tip's tree has the address `root`: there is nothing to record. */
    predicate Unresolved(root: Hash)
      reads this, repo
    {
      SCRATCH in repo.refs && repo.refs[SCRATCH] in repo.commits && repo.commits[repo.refs[SCRATCH]].tree == root
    }

    /** The scanned tree is recorded as the resolution, or the commit is skipped. */
    method Resolve(root: Hash, files: FlatMap)
      requires Valid() && (root in repo.trees ==> repo.trees[root] == files)
        && (forall m :: repo.me.addr(m) == root ==> m == files)
      requires st.Some? && st.value.pending != [] && repo.head == SCRATCH && st.value.pending[0] in repo.commits
      modifies this, repo
      ensures Valid() && SameRebase() && st == Some(Onward(old(st).value)) && chain == old(chain) && refs0 == old(refs0)
      ensures skipped == old(skipped) + if old(Unresolved(root)) then {|old(st).value.done|} else {}
    {
      repo.trees := repo.trees[root := files];
      assert Underway(repo.Now(), st.value, chain, skipped, refs0);
      var scratch := repo.Tip();
      if scratch in repo.commits && repo.commits[scratch].tree == root {
        SkipNext(repo.Now(), st.value, chain, skipped, refs0);
        skipped := skipped + {|st.value.done|};
        st := Some(Onward(st.value));
      } else {
        Record(root);
      }
    }

    /** Commits the resolution under the stopping commit's own message. */
    method Record(root: Hash)
      requires Valid() && st.Some? && st.value.pending != [] && repo.head == SCRATCH
        && st.value.pending[0] in repo.commits
      modifies this, repo
      ensures Valid() && SameRebase() && st == Some(Onward(old(st).value))
      ensures chain == old(chain) && skipped == old(skipped) && refs0 == old(refs0)
    {
      ghost var s := repo.Now();
      var scratch, message := repo.Tip(), repo.commits[st.value.pending[0]].message;
      var now: int := *;
      var made := repo.Commit(message, root, now);
      assert made.Ok?;
      RecordNext(s, repo.Now(), st.value, chain, skipped, refs0, repo.me.hash,
        NewCommit(s.commits, scratch, root, repo.me, now, message), made.value);
      st := Some(Onward(st.value));
    }

    /** RebaseAbort: refs and HEAD are back where the rebase found them. */
    method Abort() returns (r: RebaseResult)
      requires Valid()
      modifies this, repo
      ensures Valid()
      ensures old(st).None? ==> r.Failed? && repo.Now() == old(repo.Now()) && repo.work == old(repo.work)
      ensures old(st).Some? ==>
        && r == Finished(old(st).value.origTip, Checkable(repo.Now(), old(st).value.origTip)) && st == None
        && repo.refs == old(refs0) && repo.head == old(st).value.branch && repo.Tip() == old(st).value.origTip
        && repo.work == if r.shown then FlatOf(repo.Now(), r.tip) else old(repo.work)
    {
      if st.None? { return Failed("no rebase in progress"); }
      var s := st.value;
      repo.head := s.branch;
      repo.refs := repo.refs - {SCRATCH};
      st := None;
      var shown := repo.Checkout(s.origTip);
      return Finished(s.origTip, shown);
    }
  }
}
