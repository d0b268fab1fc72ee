/**
  A network of peers that commit, receive commits and integrate tips
  (internal/store/store.go, internal/sync/sync.go). A run allows any set of existing commits
  to reach any peer at any time. The main result is that vector clocks mirror ancestry in
  every reachable state; module Converge shows that a session is such a run.
*/
module Network {
  import opened Dag
  import opened Merge
  import opened Store
  import opened Sync
  import opened VectorClock

  /** Ideal hashing, and the user name each peer signs with. */
  datatype World = World(hash: Commit -> Hash, addr: FlatMap -> Hash, user: Peer -> string)

  function SiteOf(w: World, p: Peer): Site {
    Site(p, w.user(p), w.hash, w.addr)
  }

  /** All commits ever made, and what each peer holds. */
  datatype Net = Net(all: Graph, peers: map<Peer, State>)

  function Tip(s: State): Hash {
    TipOf(s.refs, s.head)
  }

  ghost predicate Init(n: Net) {
    && n.all == map[]
    && forall p :: p in n.peers ==> n.peers[p].commits == map[] && n.peers[p].refs == map[]
  }

  /** Peer `p` commits on its branch. */
  ghost predicate CommitStep(w: World, n: Net, n': Net, p: Peer, root: Hash, now: int, message: string) {
    && p in n.peers
    && var s := n.peers[p];
    && (Tip(s) != NIL ==> Tip(s) in s.commits)
    && var c := NewCommit(s.commits, Tip(s), root, SiteOf(w, p), now, message);
    && var h := w.hash(c);
    && n' == Net(n.all[h := c], n.peers[p := s.(commits := s.commits[h := c], refs := s.refs[s.head := h])])
  }

  /** Some existing commits reach peer `p`. */
  ghost predicate ReceiveStep(n: Net, n': Net, p: Peer, g: Graph, trees: map<Hash, FlatMap>) {
    && p in n.peers && SubGraph(g, n.all)
    && n' == n.(peers := n.peers[p := n.peers[p].(commits := n.peers[p].commits + g, trees := trees)])
  }

  /**
    Peer `p` integrates an existing tip into its branch. The branch is not itself the ref
    that the remote would be parked on.
   */
  ghost predicate IntegrateStep(w: World, n: Net, n': Net, p: Peer, r: Remote, o: SyncOutcome, s': State) {
    && p in n.peers && r.tip in n.all && r.tip != NIL
    && var s := n.peers[p];
    && s.head != ConflictName(r.peer)
    && Integrated(o, s, r, Tip(s), s.head, SiteOf(w, p), s')
    && n' == Net(n.all + s'.commits, n.peers[p := s'])
  }

  ghost predicate Next(w: World, n: Net, n': Net) {
    || (exists p, root, now, message :: CommitStep(w, n, n', p, root, now, message))
    || (exists p, g, trees :: ReceiveStep(n, n', p, g, trees))
    || (exists p, r, o, s' :: IntegrateStep(w, n, n', p, r, o, s'))
  }

  ghost predicate Run(w: World, run: seq<Net>) {
    && run != [] && Init(run[0])
    && forall i :: 0 <= i < |run| - 1 ==> Next(w, run[i], run[i + 1])
  }

  // ---------- The invariant ----------

  function ClockOf(g: Graph, h: Hash): Clock {
    if h in g then g[h].clock else map[]
  }

  /** How many commits of `q` the commit at `h` knows of. */
  function Knows(g: Graph, h: Hash, q: Peer): nat {
    Count(ClockOf(g, h), q)
  }

  ghost predicate By(g: Graph, h: Hash, q: Peer) {
    h in g && g[h].peer == q
  }

  /** Every commit is at its address with its parents present, at most its clock, and less in its author's count. */
  ghost predicate Grounded(w: World, g: Graph) {
    && Addressed(g, w.hash) && NIL !in g
    && Edges(g)
    && Counted(g)
  }

  ghost predicate Counted(g: Graph) {
    forall h :: h in g ==> Knows(g, h, g[h].peer) > 0
  }

  ghost predicate Edges(g: Graph) {
    forall h, p :: p in Parents(g, h) ==> Edge(g, h, p)
  }

  ghost predicate Edge(g: Graph, h: Hash, p: Hash) {
    h in g && p in g && Leq(ClockOf(g, p), ClockOf(g, h)) && Knows(g, p, g[h].peer) < Knows(g, h, g[h].peer)
  }

  /** The commits of one author form a chain, in the order of their counts. */
  ghost predicate Chained(g: Graph) {
    forall q, x, y :: By(g, x, q) && By(g, y, q) && Knows(g, x, q) <= Knows(g, y, q) ==> Reach(g, y, x)
  }

  /** What a clock counts is really there: the newest counted commit is an ancestor. */
  ghost predicate Backed(g: Graph) {
    forall q, y {:trigger BackedAt(g, q, y)} :: y in g && Knows(g, y, q) > 0 ==> BackedAt(g, q, y)
  }

  ghost predicate BackedAt(g: Graph, q: Peer, y: Hash) {
    exists x :: By(g, x, q) && Knows(g, x, q) == Knows(g, y, q) && Reach(g, y, x)
  }

  /** Each peer's branch reaches everything the peer wrote. */
  ghost predicate Owned(n: Net, q: Peer) {
    q in n.peers ==>
      var t := Tip(n.peers[q]);
      && (t != NIL ==> t in n.all)
      && forall x :: By(n.all, x, q) ==> t != NIL && Reach(n.all, t, x)
  }

  ghost predicate Inv(w: World, n: Net) {
    && Grounded(w, n.all) && Chained(n.all) && Backed(n.all)
    && (forall q :: Owned(n, q))
    && (forall q :: q in n.peers ==> SubGraph(n.peers[q].commits, n.all))
    && (forall x :: x in n.all ==> n.all[x].peer in n.peers)
  }

  // ---------- Reachability in a growing graph ----------

  lemma {:induction false} SubGraphSteps(a: Graph, b: Graph, x: Hash, y: Hash, n: nat)
    requires SubGraph(a, b) && Steps(a, x, y, n)
    ensures Steps(b, x, y, n)
    decreases n
  {
    if n > 0 {
      var p :| p in Parents(a, x) && Steps(a, p, y, n - 1);
      SubGraphSteps(a, b, p, y, n - 1);
      assert p in Parents(b, x);
    }
  }

  lemma SubGraphReach(a: Graph, b: Graph, x: Hash, y: Hash)
    requires SubGraph(a, b) && Reach(a, x, y)
    ensures Reach(b, x, y)
  {
    var n: nat :| Steps(a, x, y, n);
    SubGraphSteps(a, b, x, y, n);
  }

  /** Clocks never shrink along a path, and the commit it starts from is counted more. */
  lemma {:induction false} ClocksGrow(w: World, g: Graph, y: Hash, x: Hash, n: nat)
    requires Grounded(w, g) && y in g && Steps(g, y, x, n)
    ensures x in g && Leq(ClockOf(g, x), ClockOf(g, y))
    ensures n > 0 ==> Knows(g, x, g[y].peer) < Knows(g, y, g[y].peer)
    decreases n
  {
    if n > 0 {
      var p :| p in Parents(g, y) && Steps(g, p, x, n - 1);
      assert Edge(g, y, p);
      ClocksGrow(w, g, p, x, n - 1);
      assert Count(ClockOf(g, x), g[y].peer) <= Count(ClockOf(g, p), g[y].peer);
      forall q
        ensures Count(ClockOf(g, x), q) <= Count(ClockOf(g, y), q)
      {
        assert Count(ClockOf(g, x), q) <= Count(ClockOf(g, p), q) <= Count(ClockOf(g, y), q);
      }
    }
  }

  lemma ReachClock(w: World, g: Graph, y: Hash, x: Hash)
    requires Grounded(w, g) && y in g && Reach(g, y, x)
    ensures x in g && Leq(ClockOf(g, x), ClockOf(g, y))
    ensures x != y ==> Knows(g, x, g[y].peer) < Knows(g, y, g[y].peer)
  {
    var n: nat :| Steps(g, y, x, n);
    ClocksGrow(w, g, y, x, n);
  }

  /** A grounded graph is acyclic. */
  lemma GroundedAcyclic(w: World, g: Graph)
    requires Grounded(w, g)
    ensures Acyclic(g)
  {
    forall h
      ensures !ProperReach(g, h, h)
    {
      if ProperReach(g, h, h) {
        var n: nat :| n > 0 && Steps(g, h, h, n);
        assert h in g;
        ClocksGrow(w, g, h, h, n);
      }
    }
  }

  // ---------- One new commit ----------

  /**
    What a new commit of peer `p` looks like on a grounded graph: its parents are there and
    include `p`'s tip, it counts one more commit of `p` than that tip, and everything it
    counts of others some parent counts.
   */
  ghost predicate Extends(g: Graph, tip: Hash, p: Peer, c: Commit) {
    && c.peer == p
    && (tip != NIL ==> tip in c.parents)
    && (forall x :: x in c.parents ==> x in g && Leq(ClockOf(g, x), c.clock))
    && Count(c.clock, p) == Knows(g, tip, p) + 1
    && (forall x :: x in c.parents ==> Knows(g, x, p) <= Knows(g, tip, p))
    && (forall q :: q != p && Count(c.clock, q) > 0 ==>
      exists x :: x in c.parents && Knows(g, x, q) == Count(c.clock, q))
  }

  /** What was true of the peer's tip before the commit. */
  ghost predicate TipOwns(g: Graph, tip: Hash, p: Peer) {
    && (tip != NIL ==> tip in g)
    && forall x :: By(g, x, p) ==> tip != NIL && Reach(g, tip, x)
  }

  lemma OwnCountBounded(w: World, g: Graph, tip: Hash, p: Peer, x: Hash)
    requires Grounded(w, g) && TipOwns(g, tip, p) && By(g, x, p)
    ensures Knows(g, x, p) <= Knows(g, tip, p)
  {
    ReachClock(w, g, tip, x);
  }

  /** The new commit is not one that exists. */
  lemma NewIsFresh(w: World, g: Graph, tip: Hash, p: Peer, c: Commit)
    requires IdealHash(w.hash) && Grounded(w, g) && TipOwns(g, tip, p) && Extends(g, tip, p, c)
    ensures w.hash(c) !in g && w.hash(c) != NIL
  {
    if w.hash(c) in g {
      OwnCountBounded(w, g, tip, p, w.hash(c));
    }
  }

  lemma OldUnchanged(g: Graph, h: Hash, c: Commit)
    requires h !in g
    ensures SubGraph(g, g[h := c])
    ensures forall x :: x in g ==> ClockOf(g[h := c], x) == ClockOf(g, x)
  {
  }

  lemma ExtendGrounded(w: World, g: Graph, tip: Hash, p: Peer, c: Commit, h: Hash)
    requires h == w.hash(c) && h !in g && h != NIL && Grounded(w, g) && Extends(g, tip, p, c)
    ensures Grounded(w, g[h := c])
  {
    ExtendEdges(w, g, tip, p, c, h);
    ExtendKnows(g, p, c, h);
    AddressedMore(g, c, h, w.hash);
  }

  lemma AddressedMore(g: Graph, c: Commit, h: Hash, hash: Commit -> Hash)
    requires Addressed(g, hash) && h == hash(c)
    ensures Addressed(g[h := c], hash)
  {
  }

  lemma ExtendKnows(g: Graph, p: Peer, c: Commit, h: Hash)
    requires h !in g && c.peer == p && Count(c.clock, p) > 0 && Counted(g)
    ensures Counted(g[h := c])
  {
  }

  lemma ExtendEdges(w: World, g: Graph, tip: Hash, p: Peer, c: Commit, h: Hash)
    requires h !in g && Grounded(w, g) && Extends(g, tip, p, c)
    ensures Edges(g[h := c])
  {
    var g' := g[h := c];
    forall x, y | y in Parents(g', x)
      ensures Edge(g', x, y)
    {
      ExtendEdge(w, g, tip, p, c, h, x, y);
    }
  }

  lemma ExtendEdge(w: World, g: Graph, tip: Hash, p: Peer, c: Commit, h: Hash, x: Hash, y: Hash)
    requires h !in g && Grounded(w, g) && Extends(g, tip, p, c) && y in Parents(g[h := c], x)
    ensures Edge(g[h := c], x, y)
  {
    if x == h {
      NewEdge(g, tip, p, c, h, y);
    } else {
      assert y in Parents(g, x);
      OldEdge(g, c, h, x, y);
    }
  }

  lemma NewEdge(g: Graph, tip: Hash, p: Peer, c: Commit, h: Hash, y: Hash)
    requires h !in g && Extends(g, tip, p, c) && y in c.parents
    ensures Edge(g[h := c], h, y)
  {
    assert ClockOf(g[h := c], y) == ClockOf(g, y) && ClockOf(g[h := c], h) == c.clock;
  }

  lemma OldEdge(g: Graph, c: Commit, h: Hash, x: Hash, y: Hash)
    requires h !in g && Edge(g, x, y)
    ensures Edge(g[h := c], x, y)
  {
    assert ClockOf(g[h := c], y) == ClockOf(g, y) && ClockOf(g[h := c], x) == ClockOf(g, x);
  }

  lemma NewReaches(g: Graph, h: Hash, c: Commit, parent: Hash, x: Hash)
    requires h !in g && parent in c.parents && Reach(g, parent, x)
    ensures Reach(g[h := c], h, x)
  {
    var g' := g[h := c];
    SubGraphReach(g, g', parent, x);
    ReachParent(g', h, parent);
    ReachTrans(g', h, parent, x);
  }

  lemma ExtendChained(w: World, g: Graph, tip: Hash, p: Peer, c: Commit, h: Hash)
    requires h !in g && h != NIL && Grounded(w, g) && TipOwns(g, tip, p) && Extends(g, tip, p, c)
    requires Chained(g)
    ensures Chained(g[h := c])
  {
    var g' := g[h := c];
    OldUnchanged(g, h, c);
    forall q, x, y | By(g', x, q) && By(g', y, q) && Knows(g', x, q) <= Knows(g', y, q)
      ensures Reach(g', y, x)
    {
      if y == h {
        if x == h {
          ReachSelf(g', h);
        } else {
          assert By(g, x, p);
          NewReaches(g, h, c, tip, x);
        }
      } else {
        assert By(g, y, q);
        if x == h {
          OwnCountBounded(w, g, tip, p, y);
        }
        assert By(g, x, q);
        SubGraphReach(g, g', y, x);
      }
    }
  }

  lemma ExtendBacked(w: World, g: Graph, tip: Hash, p: Peer, c: Commit, h: Hash)
    requires h !in g && h != NIL && Grounded(w, g) && TipOwns(g, tip, p) && Extends(g, tip, p, c)
    requires Backed(g)
    ensures Backed(g[h := c])
  {
    var g' := g[h := c];
    OldUnchanged(g, h, c);
    forall q, y | y in g' && Knows(g', y, q) > 0
      ensures BackedAt(g', q, y)
    {
      if y != h {
        assert BackedAt(g, q, y);
        var x :| By(g, x, q) && Knows(g, x, q) == Knows(g, y, q) && Reach(g, y, x);
        SubGraphReach(g, g', y, x);
        assert By(g', x, q);
      } else if q == p {
        ReachSelf(g', h);
        assert By(g', h, q);
      } else {
        var parent :| parent in c.parents && Knows(g, parent, q) == Count(c.clock, q);
        assert BackedAt(g, q, parent);
        var x :| By(g, x, q) && Knows(g, x, q) == Knows(g, parent, q) && Reach(g, parent, x);
        NewReaches(g, h, c, parent, x);
        assert By(g', x, q);
      }
    }
  }

  /** After the commit the peer's branch reaches everything the peer wrote. */
  lemma ExtendOwns(g: Graph, tip: Hash, p: Peer, c: Commit, h: Hash)
    requires h !in g && h != NIL && TipOwns(g, tip, p) && (tip != NIL ==> tip in c.parents)
    ensures TipOwns(g[h := c], h, p)
  {
    var g' := g[h := c];
    forall x | By(g', x, p)
      ensures Reach(g', h, x)
    {
      if x == h {
        ReachSelf(g', h);
      } else {
        assert By(g, x, p);
        NewReaches(g, h, c, tip, x);
      }
    }
  }

  /** The other peers' branches reach what they did. */
  lemma OthersOwn(g: Graph, p: Peer, c: Commit, h: Hash, q: Peer, t: Hash)
    requires h !in g && c.peer == p && q != p && TipOwns(g, t, q)
    ensures TipOwns(g[h := c], t, q)
  {
    var g' := g[h := c];
    OldUnchanged(g, h, c);
    forall x | By(g', x, q)
      ensures t != NIL && Reach(g', t, x)
    {
      assert By(g, x, q);
      SubGraphReach(g, g', t, x);
    }
  }

  // ---------- Every step keeps the invariant ----------

  lemma NewCommitExtends(w: World, n: Net, p: Peer, root: Hash, now: int, message: string)
    requires Inv(w, n) && p in n.peers
    requires Tip(n.peers[p]) != NIL ==> Tip(n.peers[p]) in n.peers[p].commits
    ensures Extends(n.all, Tip(n.peers[p]), p,
        NewCommit(n.peers[p].commits, Tip(n.peers[p]), root, SiteOf(w, p), now, message))
  {
    var s := n.peers[p];
    var t := Tip(s);
    var c := NewCommit(s.commits, t, root, SiteOf(w, p), now, message);
    assert SubGraph(s.commits, n.all);
    assert t != NIL ==> ClockOf(n.all, t) == s.commits[t].clock;
    assert forall q :: Count(c.clock, q) == Knows(n.all, t, q) + if q == p then 1 else 0;
    assert t != NIL ==> c.parents[0] == t;
  }

  /** A merge counts no commit of its own peer that the peer's branch does not. */
  lemma OwnCountOnBranch(w: World, n: Net, p: Peer, y: Hash)
    requires Inv(w, n) && p in n.peers && y in n.all
    ensures Knows(n.all, y, p) <= Knows(n.all, Tip(n.peers[p]), p)
  {
    assert Owned(n, p);
    if Knows(n.all, y, p) > 0 {
      assert BackedAt(n.all, p, y);
      var x :| By(n.all, x, p) && Knows(n.all, x, p) == Knows(n.all, y, p) && Reach(n.all, y, x);
      OwnCountBounded(w, n.all, Tip(n.peers[p]), p, x);
    }
  }

  lemma MergeCommitExtends(w: World, n: Net, p: Peer, remote: Hash, root: Hash, now: int, message: string)
    requires Inv(w, n) && p in n.peers
    requires Tip(n.peers[p]) != NIL && Tip(n.peers[p]) in n.peers[p].commits && remote in n.peers[p].commits
    ensures Extends(n.all, Tip(n.peers[p]), p,
        MergeCommit(n.peers[p].commits, Tip(n.peers[p]), remote, root, SiteOf(w, p), now, message))
  {
    assert SubGraph(n.peers[p].commits, n.all);
    OwnCountOnBranch(w, n, p, remote);
    JoinExtends(n.all, n.peers[p].commits, Tip(n.peers[p]), p, remote,
      MergeCommit(n.peers[p].commits, Tip(n.peers[p]), remote, root, SiteOf(w, p), now, message));
  }

  lemma JoinExtends(g: Graph, own: Graph, tip: Hash, p: Peer, remote: Hash, c: Commit)
    requires SubGraph(own, g) && tip in own && remote in own
    requires Knows(g, remote, p) <= Knows(g, tip, p)
    requires c.peer == p && c.parents == [tip, remote]
    requires c.clock == Bumped(Joined(own[tip].clock, own[remote].clock), p)
    ensures Extends(g, tip, p, c)
  {
    var a, b := own[tip].clock, own[remote].clock;
    JoinedIsLub(a, b);
    assert c.parents[0] == tip && c.parents[1] == remote;
    forall q
      ensures Count(c.clock, q) ==
        (if Count(b, q) > Count(a, q) then Count(b, q) else Count(a, q)) + if q == p then 1 else 0
    {
    }
    assert ClockOf(g, tip) == a && ClockOf(g, remote) == b;
  }

  /** Adding one commit of `p` as its new tip keeps the invariant. */
  lemma ExtendInv(w: World, n: Net, p: Peer, c: Commit, s': State)
    requires IdealHash(w.hash) && Inv(w, n) && p in n.peers && Extends(n.all, Tip(n.peers[p]), p, c)
    requires s'.commits == n.peers[p].commits[w.hash(c) := c] && Tip(s') == w.hash(c)
    ensures Inv(w, Net(n.all[w.hash(c) := c], n.peers[p := s']))
  {
    var h := w.hash(c);
    var n' := Net(n.all[h := c], n.peers[p := s']);
    var t := Tip(n.peers[p]);
    assert Owned(n, p);
    NewIsFresh(w, n.all, t, p, c);
    ExtendGrounded(w, n.all, t, p, c, h);
    ExtendChained(w, n.all, t, p, c, h);
    ExtendBacked(w, n.all, t, p, c, h);
    ExtendOwns(n.all, t, p, c, h);
    ExtendPeers(n, n', p, h, c);
  }

  lemma ExtendPeers(n: Net, n': Net, p: Peer, h: Hash, c: Commit)
    requires p in n.peers && h !in n.all && c.peer == p
    requires forall q :: Owned(n, q)
    requires forall q :: q in n.peers ==> SubGraph(n.peers[q].commits, n.all)
    requires forall x :: x in n.all ==> n.all[x].peer in n.peers
    requires n'.all == n.all[h := c] && p in n'.peers && n'.peers == n.peers[p := n'.peers[p]]
    requires n'.peers[p].commits == n.peers[p].commits[h := c]
    requires TipOwns(n'.all, Tip(n'.peers[p]), p)
    ensures forall q :: Owned(n', q)
    ensures forall q :: q in n'.peers ==> SubGraph(n'.peers[q].commits, n'.all)
    ensures forall x :: x in n'.all ==> n'.all[x].peer in n'.peers
  {
    forall q
      ensures Owned(n', q)
    {
      assert Owned(n, q);
      if q in n'.peers && q != p {
        OthersOwn(n.all, p, c, h, q, Tip(n.peers[q]));
      }
    }
    forall q | q in n'.peers
      ensures SubGraph(n'.peers[q].commits, n'.all)
    {
      assert SubGraph(n.peers[q].commits, n.all);
    }
  }

  lemma CommitKeepsInv(w: World, n: Net, n': Net, p: Peer, root: Hash, now: int, message: string)
    requires IdealHash(w.hash) && Inv(w, n) && CommitStep(w, n, n', p, root, now, message)
    ensures Inv(w, n')
  {
    var s := n.peers[p];
    var c := NewCommit(s.commits, Tip(s), root, SiteOf(w, p), now, message);
    NewCommitExtends(w, n, p, root, now, message);
    ExtendInv(w, n, p, c, n'.peers[p]);
  }

  /** Moving a tip to a commit that reaches the old tip keeps the invariant. */
  lemma MoveTipInv(w: World, n: Net, p: Peer, s': State)
    requires Inv(w, n) && p in n.peers && s'.commits == n.peers[p].commits
    requires Tip(s') == Tip(n.peers[p]) ||
      (Tip(s') != NIL && Tip(s') in n.all && (Tip(n.peers[p]) == NIL || Reach(n.all, Tip(s'), Tip(n.peers[p]))))
    ensures Inv(w, n.(peers := n.peers[p := s']))
  {
    var n' := n.(peers := n.peers[p := s']);
    var t, t' := Tip(n.peers[p]), Tip(s');
    forall q
      ensures Owned(n', q)
    {
      assert Owned(n, q);
      if q == p && t' != t {
        forall x | By(n.all, x, q)
          ensures Reach(n.all, t', x)
        {
          ReachTrans(n.all, t', t, x);
        }
      }
    }
  }

  lemma IntegrateKeepsInv(w: World, n: Net, n': Net, p: Peer, r: Remote, o: SyncOutcome, s': State)
    requires IdealHash(w.hash) && Inv(w, n) && IntegrateStep(w, n, n', p, r, o, s')
    ensures Inv(w, n')
  {
    if o.Merged? {
      MergedKeepsInv(w, n, p, r, o, s');
    } else {
      UnmergedKeepsInv(w, n, p, r, o, s');
    }
  }

  lemma MergedKeepsInv(w: World, n: Net, p: Peer, r: Remote, o: SyncOutcome, s': State)
    requires IdealHash(w.hash) && Inv(w, n) && p in n.peers && o.Merged?
    requires var s := n.peers[p]; Integrated(o, s, r, Tip(s), s.head, SiteOf(w, p), s')
    ensures Inv(w, Net(n.all + s'.commits, n.peers[p := s']))
  {
    var m, c := MergedParts(w, n, p, r, o, s');
    MergeKeepsInv(w, n, p, r.tip, w.addr(m), r.now, MergeMessage(r.peer), s');
  }

  lemma UnmergedKeepsInv(w: World, n: Net, p: Peer, r: Remote, o: SyncOutcome, s': State)
    requires Inv(w, n) && p in n.peers && r.tip in n.all && r.tip != NIL && !o.Merged?
    requires var s := n.peers[p];
      s.head != ConflictName(r.peer) && Integrated(o, s, r, Tip(s), s.head, SiteOf(w, p), s')
    ensures Inv(w, Net(n.all + s'.commits, n.peers[p := s']))
  {
    assert SubGraph(n.peers[p].commits, n.all);
    UnmergedTip(w, n, p, r, o, s');
    MoveTipInv(w, n, p, s');
  }

  /** Without a merge the branch stays, adopts a tip, or moves to one that reaches the old tip. */
  lemma UnmergedTip(w: World, n: Net, p: Peer, r: Remote, o: SyncOutcome, s': State)
    requires p in n.peers && SubGraph(n.peers[p].commits, n.all) && r.tip in n.all && r.tip != NIL && !o.Merged?
    requires var s := n.peers[p];
      s.head != ConflictName(r.peer) && Integrated(o, s, r, Tip(s), s.head, SiteOf(w, p), s')
    ensures s'.commits == n.peers[p].commits && n.all + s'.commits == n.all
    ensures Tip(s') == Tip(n.peers[p]) ||
      (Tip(s') == r.tip && (Tip(n.peers[p]) == NIL || Reach(n.all, r.tip, Tip(n.peers[p]))))
  {
    var s := n.peers[p];
    if o.FastForwarded? {
      AncIsReach(s.commits, r.tip, Tip(s));
      SubGraphReach(s.commits, n.all, r.tip, Tip(s));
    }
    assert n.all + s.commits == n.all;
  }

  lemma MergeKeepsInv(w: World, n: Net, p: Peer, remote: Hash, root: Hash, now: int, message: string, s': State)
    requires IdealHash(w.hash) && Inv(w, n) && p in n.peers
    requires var s := n.peers[p];
      && Tip(s) != NIL && Tip(s) in s.commits && remote in s.commits
      && var c := MergeCommit(s.commits, Tip(s), remote, root, SiteOf(w, p), now, message);
      && s'.commits == s.commits[w.hash(c) := c] && Tip(s') == w.hash(c)
    ensures Inv(w, Net(n.all + s'.commits, n.peers[p := s']))
  {
    var s := n.peers[p];
    var c := MergeCommit(s.commits, Tip(s), remote, root, SiteOf(w, p), now, message);
    MergeCommitExtends(w, n, p, remote, root, now, message);
    ExtendInv(w, n, p, c, s');
    assert SubGraph(s.commits, n.all);
    AllGrowsByOne(n.all, s.commits, w.hash(c), c);
  }

  lemma AllGrowsByOne(all: Graph, own: Graph, h: Hash, c: Commit)
    requires SubGraph(own, all)
    ensures all + own[h := c] == all[h := c]
  {
  }

  lemma MergedParts(w: World, n: Net, p: Peer, r: Remote, o: SyncOutcome, s': State) returns (m: FlatMap, c: Commit)
    requires p in n.peers && o.Merged?
    requires var s := n.peers[p];
      Integrated(o, s, r, Tip(s), s.head, SiteOf(w, p), s')
    ensures var s := n.peers[p];
      && Tip(s) != NIL && Tip(s) in s.commits && r.tip in s.commits
      && c == MergeCommit(s.commits, Tip(s), r.tip, w.addr(m), SiteOf(w, p), r.now, MergeMessage(r.peer))
      && o.h == w.hash(c) && s'.commits == s.commits[o.h := c] && Tip(s') == o.h
  {
    var s := n.peers[p];
    var base;
    base, m :| MergedOver(s, r, Tip(s), s.head, SiteOf(w, p), base, o.kept, m, o.h, s');
    c := MergeCommit(s.commits, Tip(s), r.tip, w.addr(m), SiteOf(w, p), r.now, MergeMessage(r.peer));
  }

  lemma ReceiveKeepsInv(w: World, n: Net, n': Net, p: Peer, g: Graph, trees: map<Hash, FlatMap>)
    requires Inv(w, n) && ReceiveStep(n, n', p, g, trees)
    ensures Inv(w, n')
  {
    ReceiveMovesNoTip(n, n', p, g, trees);
    assert n'.all == n.all;
  }

  lemma ReceiveMovesNoTip(n: Net, n': Net, p: Peer, g: Graph, trees: map<Hash, FlatMap>)
    requires (forall q :: Owned(n, q)) && ReceiveStep(n, n', p, g, trees)
    requires forall q :: q in n.peers ==> SubGraph(n.peers[q].commits, n.all)
    ensures forall q :: Owned(n', q)
    ensures forall q :: q in n'.peers ==> SubGraph(n'.peers[q].commits, n'.all)
  {
    forall q
      ensures Owned(n', q)
    {
      assert Owned(n, q);
    }
  }

  lemma NextKeepsInv(w: World, n: Net, n': Net)
    requires IdealHash(w.hash) && Inv(w, n) && Next(w, n, n')
    ensures Inv(w, n')
  {
    if p, root, now, message :| CommitStep(w, n, n', p, root, now, message) {
      CommitKeepsInv(w, n, n', p, root, now, message);
    } else if p, g, trees :| ReceiveStep(n, n', p, g, trees) {
      ReceiveKeepsInv(w, n, n', p, g, trees);
    } else {
      var p, r, o, s' :| IntegrateStep(w, n, n', p, r, o, s');
      IntegrateKeepsInv(w, n, n', p, r, o, s');
    }
  }

  lemma {:induction false} RunKeepsInv(w: World, run: seq<Net>, i: nat)
    requires IdealHash(w.hash) && Run(w, run) && i < |run|
    ensures Inv(w, run[i])
    decreases i
  {
    if i == 0 {
      assert forall q :: Owned(run[0], q);
    } else {
      RunKeepsInv(w, run, i - 1);
      assert Next(w, run[i - 1], run[i - 1 + 1]);
      NextKeepsInv(w, run[i - 1], run[i]);
    }
  }

  // ---------- Main results ----------

  /** In a state that keeps the invariant, clock order is ancestry. */
  lemma ClockOrderIsAncestry(w: World, n: Net, x: Hash, y: Hash)
    requires Inv(w, n) && x in n.all && y in n.all
    ensures Leq(n.all[x].clock, n.all[y].clock) <==> Reach(n.all, y, x)
  {
    var g := n.all;
    if Reach(g, y, x) {
      ReachClock(w, g, y, x);
    }
    if Leq(g[x].clock, g[y].clock) {
      var a := g[x].peer;
      assert Count(g[x].clock, a) <= Count(g[y].clock, a);
      assert Knows(g, x, a) > 0;
      assert BackedAt(g, a, y);
      var z :| By(g, z, a) && Knows(g, z, a) == Knows(g, y, a) && Reach(g, y, z);
      assert By(g, x, a);
      ReachTrans(g, y, z, x);
    }
  }

  /**
    In every run, for distinct commits: one is a proper ancestor of the other exactly when
    its clock compares as before, and their clocks are concurrent exactly when neither
    reaches the other.
   */
  lemma ClocksMirrorAncestry(w: World, run: seq<Net>, i: nat, x: Hash, y: Hash)
    requires IdealHash(w.hash) && Run(w, run) && i < |run|
    requires x in run[i].all && y in run[i].all && x != y
    ensures ProperReach(run[i].all, y, x) <==> Before(run[i].all[x].clock, run[i].all[y].clock)
    ensures Parallel(run[i].all[x].clock, run[i].all[y].clock) <==>
      !Reach(run[i].all, x, y) && !Reach(run[i].all, y, x)
  {
    RunKeepsInv(w, run, i);
    var g := run[i].all;
    ClockOrderIsAncestry(w, run[i], x, y);
    ClockOrderIsAncestry(w, run[i], y, x);
    ProperIsReach(g, y, x);
    if Reach(g, y, x) && Reach(g, x, y) {
      ReachClock(w, g, y, x);
      ReachClock(w, g, x, y);
    }
  }

  /** Two commits with the same counters are the same commit. */
  lemma ClocksIdentify(w: World, run: seq<Net>, i: nat, x: Hash, y: Hash)
    requires IdealHash(w.hash) && Run(w, run) && i < |run|
    requires x in run[i].all && y in run[i].all && Same(run[i].all[x].clock, run[i].all[y].clock)
    ensures x == y
  {
    if x != y {
      ClocksMirrorAncestry(w, run, i, x, y);
      ClocksMirrorAncestry(w, run, i, y, x);
      ProperIsReach(run[i].all, x, y);
      ProperIsReach(run[i].all, y, x);
    }
  }
}
