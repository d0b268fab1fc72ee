/**
  A sync session between a dialer and a responder (serveResponder, fetchGraph,
  pushToRemote and the push-tip handler of internal/sync/sync.go): fetch by want and have,
  integrate, push the tip held before the merge, integrate on the other side.
*/
module Session {
  import opened Dag
  import opened DagWalk
  import opened Merge
  import opened Network
  import opened Paths
  import opened Store
  import opened Sync

  const PUSH_LIMIT: nat := 500

  /** No stored commit has a missing parent. */
  ghost predicate ClosedStore(g: Graph) {
    forall h, p :: p in Parents(g, h) ==> p in g
  }

  /** Two stores agree where they overlap, as content addressing makes them. */
  ghost predicate Agree(a: Graph, b: Graph) {
    forall h :: h in a && h in b ==> a[h] == b[h]
  }

  lemma AddressedAgree(a: Graph, b: Graph, hash: Commit -> Hash)
    requires IdealHash(hash) && Addressed(a, hash) && Addressed(b, hash)
    ensures Agree(a, b)
  {
  }

  lemma ClosedComplete(g: Graph, tip: Hash)
    requires ClosedStore(g) && tip in g
    ensures Complete(g, tip)
  {
    AncLeast(g, tip, g.Keys);
  }

  /** A closed store that holds a tip holds the ancestry any agreeing closed store gives it. */
  lemma AncestryShared(a: Graph, b: Graph, tip: Hash)
    requires ClosedStore(a) && ClosedStore(b) && Agree(a, b) && tip in a && tip in b
    ensures Anc(a, tip) <= b.Keys
  {
    forall h, p | h in a.Keys * b.Keys && p in Parents(a, h)
      ensures p in a.Keys * b.Keys
    {
      assert Parents(a, h) == Parents(b, h);
    }
    AncLeast(a, tip, a.Keys * b.Keys);
  }

  lemma {:induction false} SameStepsWithin(a: Graph, b: Graph, x: Hash, y: Hash, n: nat)
    requires ClosedStore(a) && Agree(a, b) && SubKeys(a, b) && x in a && Steps(b, x, y, n)
    ensures Steps(a, x, y, n)
    decreases n
  {
    if n > 0 {
      var p :| p in Parents(b, x) && Steps(b, p, y, n - 1);
      assert p in Parents(a, x);
      SameStepsWithin(a, b, p, y, n - 1);
    }
  }

  ghost predicate SubKeys(a: Graph, b: Graph) {
    a.Keys <= b.Keys
  }

  /** Closed stores that agree give a commit they both hold one ancestry. */
  lemma AncestryEqual(g: Graph, k: Graph, t: Hash)
    requires ClosedStore(g) && ClosedStore(k) && Agree(g, k) && t in g && t in k
    ensures Anc(g, t) == Anc(k, t)
  {
    AncestryShared(g, k, t);
    AncestryShared(k, g, t);
    ClosedComplete(g, t);
    ClosedComplete(k, t);
    AncClosed(g, t);
    AncClosed(k, t);
    forall h, p | h in Anc(g, t) && p in Parents(k, h)
      ensures p in Anc(g, t)
    {
      assert Parents(k, h) == Parents(g, h);
    }
    forall h, p | h in Anc(k, t) && p in Parents(g, h)
      ensures p in Anc(k, t)
    {
      assert Parents(k, h) == Parents(g, h);
    }
    AncSelf(g, t);
    AncSelf(k, t);
    AncLeast(k, t, Anc(g, t));
    AncLeast(g, t, Anc(k, t));
  }

  /** Growing a closed store changes no ancestry in it. */
  lemma AncestryStable(a: Graph, b: Graph, tip: Hash)
    requires ClosedStore(a) && SubGraph(a, b) && tip in a
    ensures Anc(a, tip) == Anc(b, tip)
  {
    forall y
      ensures y in Anc(a, tip) <==> y in Anc(b, tip)
    {
      AncIsReach(a, tip, y);
      AncIsReach(b, tip, y);
      if Reach(b, tip, y) {
        var n: nat :| Steps(b, tip, y, n);
        SameStepsWithin(a, b, tip, y, n);
      }
      if Reach(a, tip, y) {
        SubGraphReach(a, b, tip, y);
      }
    }
  }

  lemma SubGraphAcyclic(a: Graph, b: Graph)
    requires SubGraph(a, b) && Acyclic(b)
    ensures Acyclic(a)
  {
    forall h
      ensures !ProperReach(a, h, h)
    {
      if ProperReach(a, h, h) {
        var n: nat :| n > 0 && Steps(a, h, h, n);
        SubGraphSteps(a, b, h, h, n);
        assert ProperReach(b, h, h);
      }
    }
  }

  // ---------- What integrate keeps ----------

  ghost predicate KeptByRef(s: State, tip: Hash) {
    exists ref :: ref in s.refs && Reach(s.commits, s.refs[ref], tip)
  }

  /** The branch has stayed or moved to a descendant. */
  ghost predicate Forward(s: State, s': State) {
    s'.head == s.head && (Tip(s) == NIL || Reach(s'.commits, Tip(s'), Tip(s)))
  }

  /** Every stored commit has its tree. */
  ghost predicate HasTrees(s: State) {
    forall h :: h in s.commits ==> s.commits[h].tree in s.trees
  }

  /** A state to start a session from: ancestry and trees complete, the branch tip stored. */
  ghost predicate Sound(s: State) {
    ClosedStore(s.commits) && HasTrees(s) && (Tip(s) != NIL ==> Tip(s) in s.commits)
  }

  /** No ref but the branch and the peer's conflict ref has moved. */
  ghost predicate OthersStay(s: State, s': State, peer: Peer) {
    forall ref :: ref != s.head && ref != ConflictName(peer) ==>
      (ref in s'.refs <==> ref in s.refs) && (ref in s.refs ==> s'.refs[ref] == s.refs[ref])
  }

  /** What a session leaves of one side: nothing lost, the branch only moved forward, the other side's tip kept. */
  ghost predicate SafeAfter(s: State, s': State, o: Option<SyncOutcome>, r: Remote) {
    && SubGraph(s.commits, s'.commits) && Sound(s') && SameFlats(s, s')
    && Forward(s, s') && OthersStay(s, s', r.peer)
    && (o.Some? && !o.value.Failed? ==> KeptByRef(s', r.tip))
  }

  /**
    Whatever integrate does on a sound store that holds the remote tip: the store stays
    sound and loses nothing, the branch moves only forward, and unless a merge was refused
    the remote tip stays reachable.
   */
  lemma IntegrateSafe(o: SyncOutcome, s: State, r: Remote, me: Site, s': State)
    requires Integrated(o, s, r, Tip(s), s.head, me, s')
    requires IdealHash(me.hash) && Addressed(s.commits, me.hash) && IdealTreeHash(me.addr)
      && TreesAddressed(s.trees, me.addr)
    requires s.head != ConflictName(r.peer) && r.tip != NIL
    requires Sound(s) && r.tip in s.commits
    ensures SafeAfter(s, s', Some(o), r)
  {
    if o.Merged? { MergeSafe(o, s, r, me, s'); } else { UnmergedSafe(o, s, r, me, s'); }
  }

  /** Without a merge only refs change. */
  lemma UnmergedSafe(o: SyncOutcome, s: State, r: Remote, me: Site, s': State)
    requires Integrated(o, s, r, Tip(s), s.head, me, s') && !o.Merged?
    requires s.head != ConflictName(r.peer) && r.tip != NIL && Sound(s) && r.tip in s.commits
    ensures SafeAfter(s, s', Some(o), r)
  {
    ReachSelf(s.commits, r.tip);
    ReachSelf(s.commits, Tip(s));
    match o
    case Adopted =>
      assert s'.refs[s.head] == r.tip;
    case UpToDate =>
      assert s.head in s'.refs && Reach(s.commits, s'.refs[s.head], r.tip);
    case FastForwarded =>
      assert s'.refs[s.head] == r.tip;
    case Parked(name) =>
      assert s'.refs[name] == r.tip;
    case Failed =>
  }

  /** What was readable reads the same. */
  ghost predicate SameFlats(s: State, s': State) {
    forall h :: FlatAt(s, h).Some? ==> FlatAt(s', h) == FlatAt(s, h)
  }

  lemma MergeSafe(o: SyncOutcome, s: State, r: Remote, me: Site, s': State)
    requires Integrated(o, s, r, Tip(s), s.head, me, s') && o.Merged?
    requires IdealHash(me.hash) && Addressed(s.commits, me.hash) && IdealTreeHash(me.addr)
      && TreesAddressed(s.trees, me.addr)
    requires Sound(s) && r.tip in s.commits
    ensures SubGraph(s.commits, s'.commits) && Sound(s') && SameFlats(s, s')
    ensures s'.refs == s.refs[s.head := o.h] && s'.head == s.head
    ensures Reach(s'.commits, o.h, r.tip) && Reach(s'.commits, o.h, Tip(s))
  {
    var base, m :| MergedOver(s, r, Tip(s), s.head, me, base, o.kept, m, o.h, s');
    var c := MergeCommit(s.commits, Tip(s), r.tip, me.addr(m), me, r.now, MergeMessage(r.peer));
    assert me.hash(c) in s.commits ==> s.commits[me.hash(c)] == c;
    MergedReaches(s.commits, me.hash(c), c, Tip(s), r.tip);
    OneMoreCommit(s, me.hash(c), c, me.addr(m), m);
  }

  lemma OneMoreCommit(s: State, h: Hash, c: Commit, root: Hash, m: FlatMap)
    requires HasTrees(s) && (h in s.commits ==> s.commits[h] == c) && c.tree == root
      && (root in s.trees ==> s.trees[root] == m)
    ensures var s' := State(s.commits[h := c], s.trees[root := m], s.refs[s.head := h], s.head);
      SubGraph(s.commits, s'.commits) && HasTrees(s') && SameFlats(s, s') && Tip(s') == h && h in s'.commits
  {
  }

  lemma MergedReaches(g: Graph, h: Hash, c: Commit, a: Hash, b: Hash)
    requires ClosedStore(g) && c.parents == [a, b] && a in g && b in g && (h in g ==> g[h] == c)
    ensures ClosedStore(g[h := c]) && Reach(g[h := c], h, a) && Reach(g[h := c], h, b)
  {
    var g' := g[h := c];
    assert Parents(g', h)[0] == a && Parents(g', h)[1] == b;
    ReachParent(g', h, a);
    ReachParent(g', h, b);
    forall x, p | p in Parents(g', x)
      ensures p in g'
    {
      assert x != h ==> p in Parents(g, x);
    }
  }

  // ---------- Fetch ----------

  /** What a fetch has added came from the peer. */
  ghost predicate FromPeer(g0: Graph, peer: Graph, g: Graph, fetched: seq<Hash>) {
    && SubGraph(g0, g)
    && (forall h :: h in g ==> h in g0 || (h in peer && peer[h] == g[h]))
    && (forall h :: h in fetched <==> h in g && h !in g0)
  }

  /**
    The parents of what is new, and the tip, are stored or pending, and all that is
    reachable from the tip at the peer.
   */
  ghost predicate Fetching(g0: Graph, peer: Graph, g: Graph, tip: Hash, pending: seq<Hash>) {
    && (tip in g || tip in pending)
    && (forall h, p :: h in g && h !in g0 && p in Parents(g, h) ==> p in g || p in pending)
    && (forall h :: h in pending || (h in g && h !in g0) ==> h in Anc(peer, tip))
  }

  /** One served commit is stored and its missing parents are queued. */
  lemma FromPeerMore(g0: Graph, peer: Graph, g: Graph, fetched: seq<Hash>, h: Hash)
    requires FromPeer(g0, peer, g, fetched) && h !in g0 && h in peer
    ensures FromPeer(g0, peer, g[h := peer[h]], fetched + [h])
  {
    assert forall q :: q in fetched + [h] <==> q in fetched || q == h;
  }

  lemma ServedFetching(g0: Graph, peer: Graph, g: Graph, tip: Hash, h: Hash, rest: seq<Hash>, next: seq<Hash>,
                       more: seq<Hash>)
    requires Fetching(g0, peer, g, tip, [h] + rest + next) && h in peer && (h in g ==> g[h] == peer[h])
    requires forall p :: p in more <==> p in Parents(peer, h) && p !in g[h := peer[h]]
    ensures Fetching(g0, peer, g[h := peer[h]], tip, rest + (next + more))
  {
    var g' := g[h := peer[h]];
    var before, after := [h] + rest + next, rest + (next + more);
    assert forall q :: q in before <==> q == h || q in rest || q in next;
    assert forall q :: q in after <==> q in rest || q in next || q in more;
    assert h in before;
    AncClosed(peer, tip);
    forall x, p | x in g' && x !in g0 && p in Parents(g', x)
      ensures p in g' || p in after
    {
      if x == h {
        assert p in Parents(peer, h);
      } else {
        assert p in Parents(g, x);
      }
    }
  }

  /** One want-have exchange: the peer's answer is stored and the next level's wants collected. */
  method FetchLevel(a: Repo, b: Repo, tip: Hash, want: seq<Hash>, ghost g0: Graph, ghost full: bool, got: seq<Hash>)
    returns (fetched: seq<Hash>, next: seq<Hash>)
    requires a != b && a.Valid() && b.Valid() && a.me.hash == b.me.hash
    requires FromPeer(g0, b.commits, a.commits, got) && forall h :: h in want ==> h !in a.commits
    requires full ==> Anc(b.commits, tip) <= b.commits.Keys && Fetching(g0, b.commits, a.commits, tip, want)
    modifies a`commits
    ensures a.Valid() && FromPeer(g0, b.commits, a.commits, fetched)
    ensures full ==> Fetching(g0, b.commits, a.commits, tip, next)
    ensures old(a.commits).Keys <= a.commits.Keys <= old(a.commits).Keys + b.commits.Keys
    ensures next != [] ==> old(a.commits).Keys < a.commits.Keys
  {
    ghost var known, all := a.commits.Keys, Anc(b.commits, tip);
    fetched, next := got, [];
    assert want[0..] + next == want;
    for i := 0 to |want|
      invariant a.Valid() && FromPeer(g0, b.commits, a.commits, fetched)
      invariant full ==> Fetching(g0, b.commits, a.commits, tip, want[i..] + next)
      invariant known <= a.commits.Keys <= known + b.commits.Keys && (next != [] ==> known < a.commits.Keys)
    {
      var h := want[i];
      assert want[i..] + next == [h] + want[i + 1..] + next;
      assert h in want && h in want[i..] + next;
      if h !in b.commits {
        assert !full;
        continue;
      }
      ghost var g := a.commits;
      var stored := a.Put(b.commits[h]);
      assert a.commits == g[h := b.commits[h]];
      FromPeerMore(g0, b.commits, g, fetched, h);
      var more := ParentsUnseen(b.commits, h, a.commits.Keys);
      if full {
        ServedFetching(g0, b.commits, g, tip, h, want[i + 1..], next, more);
      }
      fetched, next := fetched + [h], next + more;
    }
    assert want[|want|..] + next == next;
  }

  /**
    fetchGraph's commit loop: level by level, whatever the peer holds of the wanted hashes.
    Between closed stores it brings in exactly the missing ancestry of the tip.
   */
  method FetchGraph(a: Repo, b: Repo, tip: Hash) returns (fetched: seq<Hash>)
    requires a != b && a.Valid() && b.Valid() && a.me.hash == b.me.hash
    modifies a`commits
    ensures a.Valid() && FromPeer(old(a.commits), b.commits, a.commits, fetched)
    ensures ClosedStore(old(a.commits)) && ClosedStore(b.commits) && tip in b.commits ==>
      && ClosedStore(a.commits) && tip in a.commits
      && a.commits.Keys == old(a.commits).Keys + Anc(b.commits, tip)
  {
    ghost var g0, full := a.commits, ClosedStore(b.commits) && tip in b.commits;
    fetched := [];
    var queue := [tip];
    AncSelf(b.commits, tip);
    if full { ClosedComplete(b.commits, tip); }
    while |queue| > 0
      invariant a.Valid() && FromPeer(g0, b.commits, a.commits, fetched)
      invariant full ==> Fetching(g0, b.commits, a.commits, tip, queue)
      decreases b.commits.Keys - a.commits.Keys, |queue|
    {
      var want := Unseen(queue, a.commits.Keys);
      assert full ==> Fetching(g0, b.commits, a.commits, tip, want);
      queue := [];
      if |want| == 0 { break; }
      fetched, queue := FetchLevel(a, b, tip, want, g0, full, fetched);
    }
    if full && ClosedStore(g0) {
      AddressedAgree(a.commits, b.commits, a.me.hash);
      FetchedAll(g0, b.commits, a.commits, tip);
    }
  }

  lemma FetchedAll(g0: Graph, peer: Graph, g: Graph, tip: Hash)
    requires SubGraph(g0, g) && forall h :: h in g ==> h in g0 || (h in peer && peer[h] == g[h])
    requires Fetching(g0, peer, g, tip, []) && ClosedStore(g0) && ClosedStore(peer) && Agree(g, peer) && tip in peer
    ensures ClosedStore(g) && tip in g && g.Keys == g0.Keys + Anc(peer, tip)
  {
    forall h, p | p in Parents(g, h)
      ensures p in g
    {
      if h in g0 { assert p in Parents(g0, h); }
    }
    AncestryShared(peer, g, tip);
  }

  /** Every fetched commit's tree is brought over; a tree the peer lacks is an error. */
  method FetchTrees(a: Repo, b: Repo, chain: seq<Hash>) returns (ok: bool)
    requires a != b && a.Valid() && b.Valid() && a.me.addr == b.me.addr
    modifies a`trees
    ensures a.Valid()
    ensures ok ==> forall h :: h in chain && h in a.commits ==> a.commits[h].tree in a.trees
    ensures !ok ==> exists h ::
      h in chain && h in a.commits && a.commits[h].tree !in b.trees && a.commits[h].tree !in old(a.trees)
    ensures forall t :: t in old(a.trees) ==> t in a.trees && a.trees[t] == old(a.trees)[t]
    ensures forall t :: t in a.trees && t !in old(a.trees) ==> t in b.trees && a.trees[t] == b.trees[t]
  {
    for i := 0 to |chain|
      invariant a.Valid()
      invariant forall j :: 0 <= j < i && chain[j] in a.commits ==> a.commits[chain[j]].tree in a.trees
      invariant forall t :: t in old(a.trees) ==> t in a.trees && a.trees[t] == old(a.trees)[t]
      invariant forall t :: t in a.trees && t !in old(a.trees) ==> t in b.trees && a.trees[t] == b.trees[t]
    {
      if chain[i] !in a.commits { continue; }
      var root := a.commits[chain[i]].tree;
      if root in a.trees { continue; }
      if root !in b.trees { return false; }
      a.trees := a.trees[root := b.trees[root]];
    }
    return true;
  }

  // ---------- Push ----------

  /** The receiver grew, by commits of the pushed history. */
  ghost predicate Pushed(a: Graph, all: set<Hash>, b0: Graph, b: Graph) {
    SubGraph(b0, b) && forall h :: h in b && h !in b0 ==> h in all && h in a && b[h] == a[h]
  }

  lemma PushedMore(a: Graph, all: set<Hash>, b0: Graph, b: Graph, h: Hash)
    requires Pushed(a, all, b0, b) && h !in b && h in all && h in a
    ensures Pushed(a, all, b0, b[h := a[h]])
  {
  }


  /**
    pushToRemote's first half: the newest commits of the tip's history, at most PUSH_LIMIT,
    without what the remote's advertised heads reach. Short histories arrive whole.
   */
  method PushCommits(a: Repo, b: Repo, tip: Hash, heads: seq<Hash>) returns (ok: bool)
    requires a != b && a.Valid() && b.Valid() && a.me.hash == b.me.hash
    modifies b`commits
    ensures b.Valid() && SubGraph(old(b.commits), b.commits)
    ensures forall h :: h in b.commits && h !in old(b.commits) ==>
      h in Anc(a.commits, tip) && h in a.commits && b.commits[h] == a.commits[h]
    ensures !ok ==> !Complete(a.commits, tip) && b.commits == old(b.commits)
    ensures ok && |Anc(a.commits, tip)| <= PUSH_LIMIT && ClosedStore(a.commits) && ClosedStore(old(b.commits)) ==>
      (forall h :: h in heads ==> h in old(b.commits)) ==> Anc(a.commits, tip) <= b.commits.Keys
  {
    var walk := WalkTipOrder(a.commits, tip, PUSH_LIMIT);
    if walk.Err? { return false; }
    var exclude := Excluded(a, heads);
    ghost var all, b0 := Anc(a.commits, tip), b.commits;
    for i := 0 to |walk.value|
      invariant b.Valid() && Pushed(a.commits, all, b0, b.commits)
      invariant forall j :: 0 <= j < i ==> walk.value[j] in b.commits || walk.value[j] in exclude
    {
      var h := walk.value[i];
      assert h in Elems(walk.value);
      if h in exclude { continue; }
      if h !in b.commits {
        PushedMore(a.commits, all, b0, b.commits, h);
        var stored := b.Put(a.commits[h]);
      }
    }
    if |all| <= PUSH_LIMIT && ClosedStore(a.commits) && ClosedStore(b0) && (forall h :: h in heads ==> h in b0) {
      AddressedAgree(a.commits, b0, a.me.hash);
      ExcludedHeld(a.commits, b0, heads, exclude);
      assert forall h :: h in all ==> h in walk.value;
    }
    return true;
  }

  /** What the advertised heads that are known here reach. */
  method Excluded(a: Repo, heads: seq<Hash>) returns (exclude: set<Hash>)
    ensures forall x :: x in exclude ==> exists h :: h in heads && h in a.commits && x in Anc(a.commits, h)
  {
    exclude := {};
    for i := 0 to |heads|
      invariant forall x :: x in exclude ==> exists h :: h in heads && h in a.commits && x in Anc(a.commits, h)
    {
      if heads[i] == NIL || heads[i] !in a.commits { continue; }
      var chain := WalkTipOrder(a.commits, heads[i], PUSH_LIMIT);
      if chain.Ok? {
        assert forall x :: x in chain.value ==> x in Elems(chain.value);
        exclude := exclude + (set x | x in chain.value);
      }
    }
  }

  lemma ExcludedHeld(a: Graph, b: Graph, heads: seq<Hash>, exclude: set<Hash>)
    requires ClosedStore(a) && ClosedStore(b) && Agree(a, b) && forall h :: h in heads ==> h in b
    requires forall x :: x in exclude ==> exists h :: h in heads && h in a && x in Anc(a, h)
    ensures exclude <= b.Keys
  {
    forall x | x in exclude
      ensures x in b
    {
      var h :| h in heads && h in a && x in Anc(a, h);
      AncestryShared(a, b, h);
    }
  }

  /** The responder after a push: its closed store grew by the pushed ancestry. */
  lemma PushedClosed(a: Graph, b0: Graph, b: Graph, tip: Hash)
    requires ClosedStore(a) && ClosedStore(b0) && SubGraph(b0, b)
    requires forall h :: h in b && h !in b0 ==> h in Anc(a, tip) && h in a && b[h] == a[h]
    requires Anc(a, tip) <= b.Keys
    ensures ClosedStore(b) && tip in b
  {
    AncSelf(a, tip);
    AncClosed(a, tip);
    forall h, p | p in Parents(b, h)
      ensures p in b
    {
      if h in b0 { assert p in Parents(b0, h); } else { assert p in Parents(a, h); }
    }
  }

  // ---------- The session ----------

  /** What each side's integrate is told by its surroundings. */
  datatype Env = Env(now: int, tag: string, sizes: map<string, nat>)

  /** What each side's integrate did, and whether the dialer's side ended without an error. */
  datatype Ending = Ending(dialer: Option<SyncOutcome>, responder: Option<SyncOutcome>, done: bool)

  /** A repository that a session can start from; its branch is not the ref that the peer would be parked on. */
  ghost predicate Ready(repo: Repo, peer: Peer)
    reads repo
  {
    repo.Valid() && Sound(repo.Now()) && repo.head != ConflictName(peer)
  }

  /** Trees found at one address in both stores are one tree. */
  ghost predicate TreesAgree(a: map<Hash, FlatMap>, b: map<Hash, FlatMap>) {
    forall t :: t in a && t in b ==> a[t] == b[t]
  }

  function RemoteOf(tip: Hash, peer: Peer, e: Env): Remote {
    Remote(tip, peer, e.now, e.tag, e.sizes)
  }

  /** `mid` is `s` with commits and trees that came from `peer`, complete up to `tip`. */
  ghost predicate Received(s: State, peer: State, tip: Hash, mid: State) {
    && mid.refs == s.refs && mid.head == s.head
    && SubGraph(s.commits, mid.commits)
    && (forall h :: h in mid.commits ==> h in s.commits || (h in peer.commits && peer.commits[h] == mid.commits[h]))
    && (forall t :: t in s.trees ==> t in mid.trees && mid.trees[t] == s.trees[t])
    && (forall t :: t in mid.trees && t !in s.trees ==> t in peer.trees && mid.trees[t] == peer.trees[t])
    && Sound(mid) && tip in mid.commits
  }

  /** One side of a session: what came from the peer, and then what integrate made of the tip. */
  ghost predicate Half(me: Site, s: State, peer: State, mid: State, r: Remote, o: SyncOutcome, s': State) {
    Received(s, peer, r.tip, mid) && Integrated(o, mid, r, Tip(mid), mid.head, me, s')
  }

  /** The same where there may be no tip to take, and then nothing changes. */
  ghost predicate Side(me: Site, s: State, peer: State, mid: State, r: Remote, o: Option<SyncOutcome>, s': State) {
    if o.Some? then Half(me, s, peer, mid, r, o.value, s') else mid == s && s' == s
  }

  ghost predicate IdealStore(s: State, me: Site) {
    && IdealHash(me.hash) && Addressed(s.commits, me.hash)
    && IdealTreeHash(me.addr) && TreesAddressed(s.trees, me.addr)
  }

  lemma HalfSafe(me: Site, s: State, peer: State, mid: State, r: Remote, o: SyncOutcome, s': State)
    requires Half(me, s, peer, mid, r, o, s') && IdealStore(mid, me)
    requires s.head != ConflictName(r.peer) && r.tip != NIL && Sound(s)
    ensures SafeAfter(s, s', Some(o), r)
  {
    IntegrateSafe(o, mid, r, me, s');
    ReceivedKeeps(s, peer, r.tip, mid);
    SafeOnward(s, mid, s', Some(o), r);
  }

  lemma ReceivedKeeps(s: State, peer: State, tip: Hash, mid: State)
    requires Received(s, peer, tip, mid)
    ensures SameFlats(s, mid)
  {
  }

  lemma SafeOnward(s: State, mid: State, s': State, o: Option<SyncOutcome>, r: Remote)
    requires SafeAfter(mid, s', o, r) && SubGraph(s.commits, mid.commits) && SameFlats(s, mid)
    requires mid.refs == s.refs && mid.head == s.head
    ensures SafeAfter(s, s', o, r)
  {
    assert forall h :: h in s.commits ==> h in mid.commits && mid.commits[h] == s.commits[h];
    assert forall h :: FlatAt(s, h).Some? ==> FlatAt(mid, h) == FlatAt(s, h);
  }

  /** fetchGraph: the missing ancestry of the tip, and its trees. */
  method FetchTip(a: Repo, b: Repo, tip: Hash)
    requires a != b && a.Valid() && Sound(a.Now()) && b.Valid() && Sound(b.Now()) && tip in b.commits
    requires a.me.hash == b.me.hash && a.me.addr == b.me.addr
    modifies a
    ensures a.Valid() && Received(old(a.Now()), b.Now(), tip, a.Now())
  {
    var fetched := FetchGraph(a, b, tip);
    var got := FetchTrees(a, b, fetched);
    assert got;
  }

  lemma ReceivedAcyclic(s: State, peer: State, tip: Hash, mid: State, u: Graph)
    requires Received(s, peer, tip, mid) && Acyclic(u) && SubGraph(s.commits, u)
    requires forall h :: h in peer.commits && h in mid.commits && h !in s.commits ==> h in u && u[h] == peer.commits[h]
    ensures Acyclic(mid.commits)
  {
    SubGraphAcyclic(mid.commits, u);
  }

  /** The dialer's half: fetch the remote tip with its trees and integrate it. */
  method Pull(a: Repo, b: Repo, tip: Hash, e: Env, ghost u: Graph) returns (o: SyncOutcome, ok: bool, ghost mid: State)
    requires a != b && Ready(a, b.me.id) && b.Valid() && Sound(b.Now()) && tip != NIL && tip in b.commits
    requires a.me.hash == b.me.hash && a.me.addr == b.me.addr && PlainTag(e.tag)
    requires Acyclic(u) && SubGraph(a.commits, u) && SubGraph(b.commits, u)
    modifies a
    ensures a.Valid() && IdealStore(mid, a.me)
    ensures Half(a.me, old(a.Now()), old(b.Now()), mid, RemoteOf(tip, b.me.id, e), o, a.Now())
    ensures ok <==> Succeeds(o, mid, tip)
  {
    ghost var s := a.Now();
    FetchTip(a, b, tip);
    mid := a.Now();
    ReceivedAcyclic(s, b.Now(), tip, mid, u);
    o, ok := Integrate(a, RemoteOf(tip, b.me.id, e), a.Tip(), a.head);
  }

  /**
    collectKnownChain: known commits from the tip on, breadth first; the whole stored
    ancestry unless it is over 2000.
   */
  method CollectKnownChain(g: Graph, tip: Hash) returns (chain: seq<Hash>)
    ensures |chain| <= KNOWN_LIMIT && NoDup(chain) && Elems(chain) <= Anc(g, tip) * g.Keys
    ensures |Anc(g, tip) * g.Keys| <= KNOWN_LIMIT ==> Elems(chain) == Anc(g, tip) * g.Keys
  {
    var seen: set<Hash>, queue := {}, [tip];
    chain := [];
    AncRoom(g, tip);
    assert Known(g, tip, seen, queue);
    while |queue| > 0 && |chain| < KNOWN_LIMIT
      invariant seen == Elems(chain) && NoDup(chain) && |chain| <= KNOWN_LIMIT && Known(g, tip, seen, queue)
      decreases Anc(g, tip) * g.Keys - seen, |queue|
    {
      var h, rest := queue[0], queue[1..];
      assert queue == [h] + rest;
      KnownTurn(g, tip, seen, h, rest);
      queue := rest;
      if h in seen || h !in g { continue; }
      assert Elems(chain + [h]) == seen + {h};
      seen := seen + {h};
      chain := chain + [h];
      queue := rest + ParentsUnseen(g, h, seen);
    }
    NoDupCard(chain);
    if queue == [] { KnownAll(g, tip, seen); } else { FullSubset(seen, Anc(g, tip) * g.Keys); }
  }

  const KNOWN_LIMIT: nat := 2000

  /** Only ancestors are met, and every stored parent of what is seen, and the tip, is seen or waiting. */
  ghost predicate Known(g: Graph, tip: Hash, seen: set<Hash>, queue: seq<Hash>) {
    && seen <= Anc(g, tip) * g.Keys && (forall q :: q in queue ==> q in Anc(g, tip))
    && (tip in g ==> tip in seen || tip in queue)
    && forall h, p :: h in seen && p in Parents(g, h) && p in g ==> p in seen || p in queue
  }

  lemma KnownTurn(g: Graph, tip: Hash, seen: set<Hash>, h: Hash, rest: seq<Hash>)
    requires Known(g, tip, seen, [h] + rest)
    ensures h in Anc(g, tip)
    ensures h in seen || h !in g ==> Known(g, tip, seen, rest)
    ensures h in g ==> Known(g, tip, seen + {h}, rest + ParentsUnseen(g, h, seen + {h}))
  {
    assert forall q :: q in [h] + rest <==> q == h || q in rest;
    var more := ParentsUnseen(g, h, seen + {h});
    assert forall q :: q in rest + more <==> q in rest || q in more;
    AncClosed(g, tip);
  }

  lemma KnownAll(g: Graph, tip: Hash, seen: set<Hash>)
    requires Known(g, tip, seen, [])
    ensures seen == Anc(g, tip) * g.Keys
  {
    AncRoom(g, tip);
    AncLeast(g, tip, seen + (Anc(g, tip) - g.Keys));
  }

  lemma FullSubset<T>(a: set<T>, b: set<T>)
    requires a <= b
    ensures |a| >= |b| ==> a == b
  {
    if a != b { SubsetCard(a, b); }
  }

  /** The push before the announced tip is integrated: the dialer's history and its trees. */
  method PushTip(a: Repo, b: Repo, tip: Hash, heads: seq<Hash>)
    requires a != b && a.Valid() && Sound(a.Now()) && b.Valid() && Sound(b.Now()) && tip in a.commits
    requires a.me.hash == b.me.hash && a.me.addr == b.me.addr
    requires |Anc(a.commits, tip)| <= PUSH_LIMIT && forall h :: h in heads ==> h in b.commits
    modifies b
    ensures b.Valid() && Received(old(b.Now()), a.Now(), tip, b.Now())
    ensures forall h :: h in b.commits && h !in old(b.commits) ==> h in Anc(a.commits, tip)
  {
    ghost var s := b.Now();
    ClosedComplete(a.commits, tip);
    var sent := PushCommits(a, b, tip, heads);
    PushedClosed(a.commits, s.commits, b.commits, tip);
    PushTrees(a, b, tip, s);
  }

  /** ensureTipObjects on the responder: the trees of all it knows of the tip's history. */
  method PushTrees(a: Repo, b: Repo, tip: Hash, ghost s: State)
    requires a != b && a.Valid() && Sound(a.Now()) && b.Valid() && a.me.hash == b.me.hash && a.me.addr == b.me.addr
    requires tip in a.commits && |Anc(a.commits, tip)| <= PUSH_LIMIT && tip in b.commits && ClosedStore(b.commits)
    requires HasTrees(s) && s.trees == b.trees && SubGraph(s.commits, b.commits)
    requires forall h :: h in b.commits && h !in s.commits ==>
      h in Anc(a.commits, tip) && h in a.commits && b.commits[h] == a.commits[h]
    modifies b`trees
    ensures b.Valid() && HasTrees(b.Now())
    ensures forall t :: t in s.trees ==> t in b.trees && b.trees[t] == s.trees[t]
    ensures forall t :: t in b.trees && t !in s.trees ==> t in a.trees && b.trees[t] == a.trees[t]
  {
    AddressedAgree(a.commits, b.commits, a.me.hash);
    AncestryEqual(a.commits, b.commits, tip);
    ClosedComplete(a.commits, tip);
    ClosedComplete(b.commits, tip);
    var chain := CollectKnownChain(b.commits, tip);
    assert Anc(b.commits, tip) * b.commits.Keys == Anc(b.commits, tip);
    assert forall h :: h in chain <==> h in Elems(chain);
    var got := FetchTrees(b, a, chain);
    assert got;
  }

  /** The push half: after it the responder integrates the announced tip; its error is dropped. */
  method Push(a: Repo, b: Repo, tip: Hash, heads: seq<Hash>, e: Env, ghost u: Graph)
    returns (o: SyncOutcome, ghost mid: State)
    requires a != b && a.Valid() && Sound(a.Now()) && tip != NIL && tip in a.commits && Ready(b, a.me.id)
    requires a.me.hash == b.me.hash && a.me.addr == b.me.addr && PlainTag(e.tag)
    requires Acyclic(u) && SubGraph(b.commits, u)
    requires forall h :: h in Anc(a.commits, tip) ==> h in u && h in a.commits && u[h] == a.commits[h]
    requires |Anc(a.commits, tip)| <= PUSH_LIMIT && forall h :: h in heads ==> h in b.commits
    modifies b
    ensures b.Valid() && IdealStore(mid, b.me)
    ensures Half(b.me, old(b.Now()), old(a.Now()), mid, RemoteOf(tip, a.me.id, e), o, b.Now())
  {
    ghost var s := b.Now();
    PushTip(a, b, tip, heads);
    mid := b.Now();
    ReceivedAcyclic(s, a.Now(), tip, mid, u);
    var ok;
    o, ok := Integrate(b, RemoteOf(tip, a.me.id, e), b.Tip(), b.head);
  }

  /** The dialer's side up to its push: whether to go on, and the heads that the responder advertised. */
  method Dial(a: Repo, b: Repo, tip: Hash, e: Env, ghost u: Graph)
    returns (end: Ending, heads: seq<Hash>, ghost mid: State)
    requires a != b && Ready(a, b.me.id) && b.Valid() && Sound(b.Now()) && tip == b.Tip()
    requires a.me.hash == b.me.hash && a.me.addr == b.me.addr && PlainTag(e.tag)
    requires Acyclic(u) && SubGraph(a.commits, u) && SubGraph(b.commits, u)
    modifies a
    ensures a.Valid() && IdealStore(mid, a.me) && end.responder.None?
    ensures Side(a.me, old(a.Now()), old(b.Now()), mid, RemoteOf(tip, b.me.id, e), end.dialer, a.Now())
    ensures end.dialer.Some? <==> tip != NIL
    ensures end.done <==> (tip == NIL || Succeeds(end.dialer.value, mid, tip))
    ensures forall h :: h in heads ==> h in b.commits
    ensures SafeAfter(old(a.Now()), a.Now(), end.dialer, RemoteOf(tip, b.me.id, e))
  {
    ghost var s := a.Now();
    mid := s;
    if tip == NIL {
      SideSafe(a.me, s, b.Now(), mid, RemoteOf(tip, b.me.id, e), None, s);
      return Ending(None, None, true), [], mid;
    }
    var o, ok;
    o, ok, mid := Pull(a, b, tip, e, u);
    SideSafe(a.me, s, b.Now(), mid, RemoteOf(tip, b.me.id, e), Some(o), a.Now());
    return Ending(Some(o), None, ok), [tip], mid;
  }

  lemma SideSafe(me: Site, s: State, peer: State, mid: State, r: Remote, o: Option<SyncOutcome>, s': State)
    requires Side(me, s, peer, mid, r, o, s') && IdealStore(mid, me)
    requires s.head != ConflictName(r.peer) && (o.Some? ==> r.tip != NIL) && Sound(s)
    ensures SafeAfter(s, s', o, r)
  {
    ReachSelf(s.commits, Tip(s));
    if o.Some? { HalfSafe(me, s, peer, mid, r, o.value, s'); }
  }

  /** What was received of the peer's commits reads as it does there. */
  lemma ReceivedReads(s: State, peer: State, tip: Hash, mid: State, h: Hash)
    requires Received(s, peer, tip, mid) && Sound(s) && Sound(peer)
    requires DagsAndTreesAgree(s, peer) && h in peer.commits && h in mid.commits
    ensures FlatAt(mid, h).Some? && FlatOf(mid, h) == FlatOf(peer, h)
  {
  }

  ghost predicate DagsAndTreesAgree(s: State, peer: State) {
    Agree(s.commits, peer.commits) && TreesAgree(s.trees, peer.trees)
  }

  /** With clean files on both tips a side takes the other's tip without an error. */
  lemma CleanHalf(me: Site, s: State, peer: State, mid: State, r: Remote, o: SyncOutcome, s': State)
    requires Half(me, s, peer, mid, r, o, s') && Sound(s) && Sound(peer) && DagsAndTreesAgree(s, peer)
    requires r.tip in peer.commits && CleanTip(s) && CleanTreePaths(FlatOf(peer, r.tip).Keys)
    ensures !o.Failed? && Succeeds(o, mid, r.tip)
  {
    ReceivedReads(s, peer, r.tip, mid, r.tip);
    if Tip(s) != NIL {
      assert FlatOf(mid, Tip(s)) == FlatOf(s, Tip(s));
      CleanTipsNeverFail(o, mid, r, Tip(mid), mid.head, me, s');
    }
  }

  /** After its half a side still agrees with the other. */
  lemma StillAgree(me: Site, s: State, peer: State, mid: State, r: Remote, o: Option<SyncOutcome>, s': State)
    requires Side(me, s, peer, mid, r, o, s') && DagsAndTreesAgree(s, peer)
    requires IdealTreeHash(me.addr) && TreesAddressed(peer.trees, me.addr)
    ensures TreesAgree(peer.trees, s'.trees)
  {
    if o.Some? {
      if o.value.Merged? {
        var m := MergedTrees(mid, r, me, o.value, s');
        TreesStillAgree(s.trees, peer.trees, mid.trees, me.addr(m), m, s'.trees);
      } else {
        assert s'.trees == mid.trees;
      }
    }
  }

  lemma MergedTrees(s: State, r: Remote, me: Site, o: SyncOutcome, s': State) returns (m: FlatMap)
    requires Integrated(o, s, r, Tip(s), s.head, me, s') && o.Merged?
    ensures s'.trees == s.trees[me.addr(m) := m]
  {
    var base;
    base, m :| MergedOver(s, r, Tip(s), s.head, me, base, o.kept, m, o.h, s');
  }

  lemma TreesStillAgree(s: map<Hash, FlatMap>, peer: map<Hash, FlatMap>, mid: map<Hash, FlatMap>,
                        root: Hash, m: FlatMap, s': map<Hash, FlatMap>)
    requires TreesAgree(s, peer) && s' == mid[root := m] && (root in peer ==> peer[root] == m)
    requires forall t :: t in s ==> t in mid && mid[t] == s[t]
    requires forall t :: t in mid && t !in s ==> t in peer && mid[t] == peer[t]
    ensures TreesAgree(peer, s')
  {
  }

  /** Both tips' files have clean paths: all that a session needs to go through. */
  ghost predicate CleanTip(s: State) {
    CleanTreePaths(FlatOf(s, Tip(s)).Keys)
  }

  /**
    A session on record: the dialer's site `a` and the responder's `b`, their states before,
    just before each integrates, and after.
   */
  datatype Record = Record(a: Site, b: Site, ea: Env, eb: Env, sa: State, sb: State, ma: State, mb: State,
                           sa': State, sb': State, end: Ending)

  /** What each side integrates: the tip that the other advertised. The dialer pushes the tip it had before merging. */
  function ForDialer(x: Record): Remote {
    RemoteOf(Tip(x.sb), x.b.id, x.ea)
  }

  function ForResponder(x: Record): Remote {
    RemoteOf(Tip(x.sa), x.a.id, x.eb)
  }

  /** Two complete sides that address contents alike, neither on a branch that the other would be parked on. */
  ghost predicate Meet(a: Site, sa: State, b: Site, sb: State) {
    && Sound(sa) && Sound(sb) && IdealStore(sa, a) && IdealStore(sb, b)
    && a.hash == b.hash && a.addr == b.addr && TreesAgree(sa.trees, sb.trees)
    && sa.head != ConflictName(b.id) && sb.head != ConflictName(a.id)
  }

  /** What happened: the dialer's side, and the responder's unless the dialer's ended in an error. */
  ghost predicate Ran(x: Record) {
    && IdealStore(x.ma, x.a) && IdealStore(x.mb, x.b) && IdealStore(x.sa', x.a) && IdealStore(x.sb', x.b)
    && Side(x.a, x.sa, x.sb, x.ma, ForDialer(x), x.end.dialer, x.sa')
    && Side(x.b, x.sb, x.sa', x.mb, ForResponder(x), x.end.responder, x.sb')
    && (x.end.dialer.Some? <==> Tip(x.sb) != NIL)
    && (x.end.done <==> (Tip(x.sb) == NIL || Succeeds(x.end.dialer.value, x.ma, Tip(x.sb))))
    && (x.end.responder.Some? <==> x.end.done && Tip(x.sa) != NIL)
  }

  /** Both sides are safe, and with clean files on both tips the session goes through and keeps both. */
  ghost predicate SafeSession(x: Record) {
    && SafeAfter(x.sa, x.sa', x.end.dialer, ForDialer(x)) && SafeAfter(x.sb, x.sb', x.end.responder, ForResponder(x))
    && (CleanTip(x.sa) && CleanTip(x.sb) ==>
          && x.end.done
          && (Tip(x.sb) != NIL ==> KeptByRef(x.sa', Tip(x.sb)))
          && (Tip(x.sa) != NIL ==> KeptByRef(x.sb', Tip(x.sa))))
  }

  /** Whatever a session comes to, it is safe. */
  lemma SessionSafe(x: Record)
    requires Meet(x.a, x.sa, x.b, x.sb) && Ran(x)
    ensures SafeSession(x)
  {
    SideSafe(x.a, x.sa, x.sb, x.ma, ForDialer(x), x.end.dialer, x.sa');
    SideSafe(x.b, x.sb, x.sa', x.mb, ForResponder(x), x.end.responder, x.sb');
    if CleanTip(x.sa) && CleanTip(x.sb) {
      if x.end.dialer.Some? { CleanDialer(x); }
      if x.end.responder.Some? { CleanResponder(x); }
    }
  }

  lemma CleanDialer(x: Record)
    requires Meet(x.a, x.sa, x.b, x.sb) && Ran(x) && CleanTip(x.sa) && CleanTip(x.sb) && x.end.dialer.Some?
    ensures !x.end.dialer.value.Failed? && Succeeds(x.end.dialer.value, x.ma, Tip(x.sb))
  {
    AddressedAgree(x.sa.commits, x.sb.commits, x.a.hash);
    CleanHalf(x.a, x.sa, x.sb, x.ma, ForDialer(x), x.end.dialer.value, x.sa');
  }

  lemma CleanResponder(x: Record)
    requires Meet(x.a, x.sa, x.b, x.sb) && Ran(x) && CleanTip(x.sa) && CleanTip(x.sb) && x.end.responder.Some?
    requires SafeAfter(x.sa, x.sa', x.end.dialer, ForDialer(x))
    ensures !x.end.responder.value.Failed?
  {
    AddressedAgree(x.sa.commits, x.sb.commits, x.a.hash);
    AddressedAgree(x.sb.commits, x.sa'.commits, x.a.hash);
    StillAgree(x.a, x.sa, x.sb, x.ma, ForDialer(x), x.end.dialer, x.sa');
    CleanHalf(x.b, x.sb, x.sa', x.mb, ForResponder(x), x.end.responder.value, x.sb');
  }

  /** The responder's side: it is pushed the dialer's tip, if there is one and the dialer goes on. */
  method Answer(a: Repo, b: Repo, tip: Hash, go: bool, heads: seq<Hash>, e: Env, ghost s: State, ghost u: Graph)
    returns (o: Option<SyncOutcome>, ghost mid: State)
    requires a != b && a.Valid() && Sound(a.Now()) && Ready(b, a.me.id)
    requires a.me.hash == b.me.hash && a.me.addr == b.me.addr && PlainTag(e.tag)
    requires Acyclic(u) && SubGraph(b.commits, u) && SubGraph(s.commits, u)
    requires Sound(s) && tip == Tip(s) && SubGraph(s.commits, a.commits) && |Anc(s.commits, tip)| <= PUSH_LIMIT
    requires forall h :: h in heads ==> h in b.commits
    modifies b
    ensures b.Valid() && IdealStore(mid, b.me)
    ensures Side(b.me, old(b.Now()), old(a.Now()), mid, RemoteOf(tip, a.me.id, e), o, b.Now())
    ensures o.Some? <==> go && tip != NIL
  {
    mid := b.Now();
    if !go || tip == NIL { return None, mid; }
    AncestryStable(s.commits, a.commits, tip);
    HistoryWithin(s.commits, u, tip);
    var taken;
    taken, mid := Push(a, b, tip, heads, e, u);
    return Some(taken), mid;
  }

  /** The session: the dialer's side, and then its push to the responder. */
  method Exchange(a: Repo, b: Repo, ea: Env, eb: Env) returns (end: Ending, ghost ma: State, ghost mb: State)
    requires a != b && a.Valid() && b.Valid() && PlainTag(ea.tag) && PlainTag(eb.tag)
    requires Meet(a.me, a.Now(), b.me, b.Now())
    requires Acyclic(a.commits + b.commits) && |Anc(a.commits, a.Tip())| <= PUSH_LIMIT
    modifies a, b
    ensures a.Valid() && b.Valid()
    ensures Ran(Record(a.me, b.me, ea, eb, old(a.Now()), old(b.Now()), ma, mb, a.Now(), b.Now(), end))
  {
    ghost var u, s := a.commits + b.commits, a.Now();
    AddressedAgree(a.commits, b.commits, a.me.hash);
    var remoteTip, localTip := b.Tip(), a.Tip();
    var heads: seq<Hash>, taken;
    end, heads, ma := Dial(a, b, remoteTip, ea, u);
    taken, mb := Answer(a, b, localTip, end.done, heads, eb, s, u);
    end := end.(responder := taken);
  }

  /**
    A session from dialer `a` to responder `b`, both complete, whose pushed history is within
    the limit. Each side receives what it lacks and integrates the other's advertised tip.
    Both sides end complete, with nothing lost and each branch moved only forward, and a side
    keeps the other's tip reachable unless its merge was refused. When both tips' files have
    clean paths the session goes through and both tips are kept.
   */
  method RunSession(a: Repo, b: Repo, ea: Env, eb: Env) returns (end: Ending, ghost ma: State, ghost mb: State)
    requires a != b && a.Valid() && b.Valid() && PlainTag(ea.tag) && PlainTag(eb.tag)
    requires Meet(a.me, a.Now(), b.me, b.Now())
    requires Acyclic(a.commits + b.commits) && |Anc(a.commits, a.Tip())| <= PUSH_LIMIT
    modifies a, b
    ensures a.Valid() && b.Valid()
    ensures Ran(Record(a.me, b.me, ea, eb, old(a.Now()), old(b.Now()), ma, mb, a.Now(), b.Now(), end))
    ensures SafeSession(Record(a.me, b.me, ea, eb, old(a.Now()), old(b.Now()), ma, mb, a.Now(), b.Now(), end))
  {
    ghost var sa, sb := a.Now(), b.Now();
    end, ma, mb := Exchange(a, b, ea, eb);
    SessionSafe(Record(a.me, b.me, ea, eb, sa, sb, ma, mb, a.Now(), b.Now(), end));
  }

  lemma HistoryWithin(g: Graph, u: Graph, tip: Hash)
    requires ClosedStore(g) && SubGraph(g, u) && tip in g
    ensures forall h :: h in Anc(g, tip) ==> h in g && h in u && u[h] == g[h]
  {
    ClosedComplete(g, tip);
  }

}
