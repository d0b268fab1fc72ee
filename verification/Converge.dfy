/**
  What a session means beyond each side's safety: diverged peers end with the same files,
  and every session is a run of the network, so that clocks mirror ancestry after it.
*/
module Converge {
  import opened Dag
  import opened Lca
  import opened Merge
  import opened Network
  import opened Paths
  import opened Session
  import opened Store
  import opened Sync
  import opened VectorClock

  // ---------- Both sides end with the same files ----------

  ghost predicate SingleBase(g: Graph, a: Hash, b: Hash) {
    forall x, y :: Lowest(g, a, b, x) && Lowest(g, a, b, y) ==> x == y
  }

  /** No stored tree maps a path to the empty string. */
  ghost predicate NoBlanks(s: State) {
    forall t, p :: t in s.trees && p in s.trees[t] ==> s.trees[t][p] != ""
  }

  /** Closed stores that agree give two tips the same lowest common ancestors, in either order. */
  lemma LowestShared(g: Graph, k: Graph, a: Hash, b: Hash, x: Hash)
    requires ClosedStore(g) && ClosedStore(k) && Agree(g, k) && {a, b} <= g.Keys * k.Keys
    requires Lowest(k, b, a, x)
    ensures Lowest(g, a, b, x) && x in g && x in k
  {
    AncestryEqual(g, k, a);
    AncestryEqual(g, k, b);
    ClosedComplete(g, a);
    ClosedComplete(k, a);
    forall y | y in Common(g, a, b) && y != x
      ensures !Reach(g, y, x)
    {
      assert y in Common(k, b, a);
      AncestryEqual(g, k, y);
      AncIsReach(g, y, x);
      AncIsReach(k, y, x);
    }
  }

  lemma SwapLowest(g: Graph, a: Hash, b: Hash, x: Hash)
    requires Lowest(g, a, b, x)
    ensures Lowest(g, b, a, x)
  {
    assert Common(g, b, a) == Common(g, a, b);
  }

  /** tryMerge with the sides swapped, on maps without empty values, when one order finds no overlap. */
  lemma MirrorMerge(base: FlatMap, left: FlatMap, right: FlatMap, m1: FlatMap, kept: seq<string>, m2: FlatMap)
    requires forall p :: Outcome(m1, [], p) == TryMergeAt(base, left, right, p)
    requires forall p :: Outcome(m2, kept, p) == TryMergeAt(base, right, left, p)
    requires forall m, p :: m in {base, left, right} && p in m ==> m[p] != ""
    ensures kept == [] && m1 == m2
  {
    assert kept != [] ==> kept[0] in kept;
    forall p
      ensures p !in kept && At(m1, p) == At(m2, p)
    {
      assert base in {base, left, right} && left in {base, left, right} && right in {base, left, right};
      TryMergeExact(base, left, right, p);
      TryMergeExact(base, right, left, p);
      assert Outcome(m1, [], p) == ThreeWay(At(base, p), At(left, p), At(right, p));
      assert Outcome(m2, kept, p) == ThreeWay(At(base, p), At(right, p), At(left, p));
    }
    assert forall p :: At(m1, p) == At(m2, p) ==> (p in m1 <==> p in m2) && (p in m1 ==> m1[p] == m2[p]);
  }

  /** The other side's merge, over the same files and base, has merged without overlap to `m`. */
  ghost predicate Mirrors(s: State, base: Hash, local: Hash, remote: Hash, m: FlatMap) {
    && base in s.commits && base != NIL && CleanTreePaths(m.Keys)
    && (forall b :: BestBase(s.commits, local, remote, b) ==> b == base)
    && (forall p :: Outcome(m, [], p) == TryMergeAt(FlatOf(s, base), FlatOf(s, remote), FlatOf(s, local), p))
    && (forall f, p :: f in {FlatOf(s, base), FlatOf(s, remote), FlatOf(s, local)} && p in f ==> f[p] != "")
  }

  lemma MirroredTryMerge(s: State, base: Hash, local: Hash, remote: Hash, m: FlatMap, merged: FlatMap,
                         overlapping: seq<string>)
    requires Mirrors(s, base, local, remote, m) && IsTryMerge(s, base, local, remote, merged, overlapping)
    ensures overlapping == [] && merged == m
  {
    MirrorMerge(FlatOf(s, base), FlatOf(s, remote), FlatOf(s, local), m, overlapping, merged);
  }

  lemma NotParked(s: State, r: Remote, base: Hash, local: Hash, m: FlatMap)
    requires Mirrors(s, base, local, r.tip, m)
    ensures !MustPark(s, r, base, local)
  {
    forall merged, overlapping: seq<string> | IsTryMerge(s, base, local, r.tip, merged, overlapping)
      ensures overlapping == []
    {
      MirroredTryMerge(s, base, local, r.tip, m, merged, overlapping);
    }
  }

  lemma MirroredTree(s: State, r: Remote, base: Hash, local: Hash, m: FlatMap, kept: seq<string>, m2: FlatMap)
    requires Mirrors(s, base, local, r.tip, m) && MergeTree(s, r, base, local, kept, m2)
    ensures kept == [] && m2 == m
  {
    var merged, keep, copies :| MergeTreeParts(s, r, base, local, kept, merged, keep, copies)
      && m2 == merged + keep + copies;
    MirroredTryMerge(s, base, local, r.tip, m, merged, kept);
    NothingBeside(s, r, base, local, m2);
    MirrorMerge(FlatOf(s, base), FlatOf(s, r.tip), FlatOf(s, local), m, [], m2);
  }

  /** A side that mirrors such a merge merges too, without overlap and to the same files. */
  lemma MirrorOutcome(o: SyncOutcome, s: State, r: Remote, local: Hash, branch: string, me: Site, s': State,
                      base: Hash, m: FlatMap)
    requires Mirrors(s, base, local, r.tip, m) && TrulyDiverged(s.commits, local, r.tip)
    requires Integrated(o, s, r, local, branch, me, s')
    ensures o.Merged? && o.kept == [] && FlatAt(s', o.h) == Some(m) && s'.head == s.head
      && s'.refs == s.refs[branch := o.h]
  {
    NotParked(s, r, base, local, m);
    if o.Failed? {
      var b, m2 :| BestBase(s.commits, local, r.tip, b) && MergeTree(s, r, b, local, [], m2)
        && !CleanTreePaths(m2.Keys);
      MirroredTree(s, r, base, local, m, [], m2);
      assert false;
    }
    var b, m2 :| MergedOver(s, r, local, branch, me, b, o.kept, m2, o.h, s');
    MirroredTree(s, r, base, local, m, o.kept, m2);
  }

  // ---------- The responder mirrors the dialer ----------

  /** The two sides before they integrate agree on commits and trees. */
  lemma MidsAgree(x: Record)
    requires Meet(x.a, x.sa, x.b, x.sb) && Ran(x) && x.end.dialer.Some? && x.end.responder.Some?
      && x.end.dialer.value.Merged?
    ensures Agree(x.ma.commits, x.mb.commits) && TreesAgree(x.ma.trees, x.mb.trees)
  {
    AddressedAgree(x.ma.commits, x.mb.commits, x.a.hash);
    var m := MergedTrees(x.ma, ForDialer(x), x.a, x.end.dialer.value, x.sa');
    forall t | t in x.ma.trees
      ensures x.sa'.trees[t] == x.ma.trees[t]
    {
      assert t == x.a.addr(m) ==> x.ma.trees[t] == m;
    }
  }

  lemma SameFiles(s: State, k: State, h: Hash)
    requires Sound(s) && Sound(k) && Agree(s.commits, k.commits) && TreesAgree(s.trees, k.trees) && h in s.commits
      && h in k.commits
    ensures FlatOf(s, h) == FlatOf(k, h)
  {
  }

  /** All commits of both sides, before the session. */
  ghost function Union(x: Record): Graph {
    x.sa.commits + x.sb.commits
  }

  lemma UnionClosed(x: Record)
    requires Meet(x.a, x.sa, x.b, x.sb)
    ensures ClosedStore(Union(x)) && SubGraph(x.sa.commits, Union(x)) && SubGraph(x.sb.commits, Union(x))
  {
    AddressedAgree(x.sa.commits, x.sb.commits, x.a.hash);
    forall h, p | p in Parents(Union(x), h)
      ensures p in Union(x)
    {
      assert p in Parents(x.sa.commits, h) || p in Parents(x.sb.commits, h);
    }
  }

  /** The two sides before they integrate are complete and hold both tips. */
  lemma BothHold(x: Record)
    requires Meet(x.a, x.sa, x.b, x.sb) && Ran(x) && x.end.dialer.Some? && x.end.responder.Some?
    ensures ClosedStore(x.ma.commits) && ClosedStore(x.mb.commits) && Agree(x.ma.commits, x.mb.commits)
    ensures {Tip(x.sa), Tip(x.sb)} <= x.ma.commits.Keys * x.mb.commits.Keys
    ensures Tip(x.ma) == Tip(x.sa) && x.ma.head == x.sa.head && Tip(x.mb) == Tip(x.sb) && x.mb.head == x.sb.head
  {
    DialerHolds(x);
    ResponderHolds(x);
    AddressedAgree(x.ma.commits, x.mb.commits, x.a.hash);
  }

  lemma DialerHolds(x: Record)
    requires Meet(x.a, x.sa, x.b, x.sb) && Ran(x) && x.end.dialer.Some? && x.end.responder.Some?
    ensures ClosedStore(x.ma.commits) && {Tip(x.sa), Tip(x.sb)} <= x.ma.commits.Keys
    ensures Tip(x.ma) == Tip(x.sa) && x.ma.head == x.sa.head
  {
    HalfHolds(x.a, x.sa, x.sb, x.ma, ForDialer(x), x.end.dialer.value, x.sa');
  }

  lemma ResponderHolds(x: Record)
    requires Meet(x.a, x.sa, x.b, x.sb) && Ran(x) && x.end.dialer.Some? && x.end.responder.Some?
    ensures ClosedStore(x.mb.commits) && {Tip(x.sa), Tip(x.sb)} <= x.mb.commits.Keys
    ensures Tip(x.mb) == Tip(x.sb) && x.mb.head == x.sb.head
  {
    HalfHolds(x.b, x.sb, x.sa', x.mb, ForResponder(x), x.end.responder.value, x.sb');
  }

  lemma HalfHolds(me: Site, s: State, peer: State, mid: State, r: Remote, o: SyncOutcome, s': State)
    requires Half(me, s, peer, mid, r, o, s') && Sound(s)
    ensures ClosedStore(mid.commits) && r.tip in mid.commits && Tip(mid) == Tip(s) && mid.head == s.head
    ensures Tip(s) != NIL ==> Tip(s) in mid.commits
  {
  }

  /** With a single merge base, it is the base of both sides' merges. */
  lemma OneBase(x: Record, base: Hash, b: Hash)
    requires Meet(x.a, x.sa, x.b, x.sb) && Ran(x) && x.end.dialer.Some? && x.end.responder.Some?
    requires SingleBase(Union(x), Tip(x.sa), Tip(x.sb))
    requires Lowest(x.ma.commits, Tip(x.sa), Tip(x.sb), base) && Lowest(x.mb.commits, Tip(x.sb), Tip(x.sa), b)
    ensures b == base
  {
    UnionClosed(x);
    AddressedUnion(x);
    BothHold(x);
    AddressedAgree(Union(x), x.ma.commits, x.a.hash);
    AddressedAgree(Union(x), x.mb.commits, x.a.hash);
    OneBaseIn(Union(x), x.ma.commits, x.mb.commits, Tip(x.sa), Tip(x.sb), base, b);
  }

  lemma OneBaseIn(u: Graph, g: Graph, k: Graph, a: Hash, b: Hash, x: Hash, y: Hash)
    requires ClosedStore(u) && ClosedStore(g) && ClosedStore(k) && Agree(u, g) && Agree(u, k)
    requires {a, b} <= u.Keys * g.Keys * k.Keys
    requires SingleBase(u, a, b) && Lowest(g, a, b, x) && Lowest(k, b, a, y)
    ensures y == x
  {
    LowestShared(u, g, b, a, x);
    SwapLowest(u, b, a, x);
    LowestShared(u, k, a, b, y);
  }

  lemma AddressedUnion(x: Record)
    requires Meet(x.a, x.sa, x.b, x.sb)
    ensures Addressed(Union(x), x.a.hash)
  {
  }

  /** The responder finds the tips diverged as the dialer did. */
  lemma StillDiverged(g: Graph, k: Graph, a: Hash, b: Hash)
    requires ClosedStore(g) && ClosedStore(k) && Agree(g, k) && {a, b} <= g.Keys * k.Keys
    requires TrulyDiverged(g, a, b) && b != NIL
    ensures TrulyDiverged(k, b, a)
  {
    AncestryEqual(g, k, a);
    AncestryEqual(g, k, b);
    assert Common(k, b, a) == Common(g, a, b);
  }

  lemma BlankFree(x: Record, h: Hash)
    requires Meet(x.a, x.sa, x.b, x.sb) && Ran(x) && x.end.dialer.Some? && NoBlanks(x.sa) && NoBlanks(x.sb)
    ensures forall p :: p in FlatOf(x.ma, h) ==> FlatOf(x.ma, h)[p] != ""
  {
  }

  lemma ResponderMirrors(x: Record, base: Hash, m: FlatMap)
    requires Meet(x.a, x.sa, x.b, x.sb) && Ran(x) && x.end.dialer.Some? && x.end.responder.Some?
    requires SingleBase(Union(x), Tip(x.sa), Tip(x.sb)) && NoBlanks(x.sa) && NoBlanks(x.sb)
    requires x.end.dialer.value.Merged? && x.end.dialer.value.kept == []
    requires MergedOver(x.ma, ForDialer(x), Tip(x.sa), x.sa.head, x.a, base, [], m, x.end.dialer.value.h, x.sa')
    ensures Mirrors(x.mb, base, Tip(x.sb), Tip(x.sa), m)
  {
    MidsAgree(x);
    BaseInBoth(x, base);
    SameFiles(x.ma, x.mb, base);
    SameFiles(x.ma, x.mb, Tip(x.sa));
    SameFiles(x.ma, x.mb, Tip(x.sb));
    BlankFree(x, base);
    BlankFree(x, Tip(x.sa));
    BlankFree(x, Tip(x.sb));
    NothingBeside(x.ma, ForDialer(x), base, Tip(x.sa), m);
    forall b | BestBase(x.mb.commits, Tip(x.sb), Tip(x.sa), b)
      ensures b == base
    {
      OneBase(x, base, b);
    }
  }

  lemma BaseInBoth(x: Record, base: Hash)
    requires Meet(x.a, x.sa, x.b, x.sb) && Ran(x) && x.end.dialer.Some? && x.end.responder.Some?
    requires Lowest(x.ma.commits, Tip(x.sa), Tip(x.sb), base)
    ensures base in x.ma.commits && base in x.mb.commits && base != NIL
  {
    AddressedAgree(x.ma.commits, x.mb.commits, x.a.hash);
    SwapLowest(x.ma.commits, Tip(x.sa), Tip(x.sb), base);
    AncestryShared(x.ma.commits, x.mb.commits, Tip(x.sa));
    ClosedComplete(x.ma.commits, Tip(x.sa));
    assert x.a.hash(x.ma.commits[base]) == base;
  }

  /**
    After a session in which the dialer merged without an overlap, over a single merge base
    and without empty hashes, the responder has merged without an overlap too, and both
    branches stand at commits with the same files.
   */
  lemma DivergedPeersAgree(x: Record)
    requires Meet(x.a, x.sa, x.b, x.sb) && Ran(x)
    requires SingleBase(Union(x), Tip(x.sa), Tip(x.sb)) && NoBlanks(x.sa) && NoBlanks(x.sb)
    requires x.end.dialer.Some? && x.end.dialer.value.Merged? && x.end.dialer.value.kept == []
    ensures x.end.done && x.end.responder.Some? && x.end.responder.value.Merged? && x.end.responder.value.kept == []
    ensures FlatAt(x.sa', Tip(x.sa')).Some? && FlatAt(x.sb', Tip(x.sb')) == FlatAt(x.sa', Tip(x.sa'))
  {
    DialerMerged(x);
    BothHold(x);
    var base, m :| MergedOver(x.ma, ForDialer(x), Tip(x.sa), x.sa.head, x.a, base, [], m, x.end.dialer.value.h, x.sa');
    StillDiverged(x.ma.commits, x.mb.commits, Tip(x.sa), Tip(x.sb));
    ResponderMirrors(x, base, m);
    ResponderMerges(x, base, m);
    MergedFiles(x.ma, ForDialer(x), Tip(x.sa), x.sa.head, x.a, base, [], m, x.end.dialer.value.h, x.sa');
  }

  /** What a merging integrate says of the dialer's side. */
  lemma DialerMerged(x: Record)
    requires Meet(x.a, x.sa, x.b, x.sb) && Ran(x) && x.end.dialer.Some? && x.end.dialer.value.Merged?
    ensures x.end.done && x.end.responder.Some? && Tip(x.sb) != NIL
    ensures TrulyDiverged(x.ma.commits, Tip(x.sa), Tip(x.sb))
    ensures exists base, m ::
      MergedOver(x.ma, ForDialer(x), Tip(x.sa), x.sa.head, x.a, base, x.end.dialer.value.kept, m,
          x.end.dialer.value.h, x.sa')
  {
    assert Tip(x.ma) == Tip(x.sa) && x.ma.head == x.sa.head;
  }

  lemma ResponderMerges(x: Record, base: Hash, m: FlatMap)
    requires Meet(x.a, x.sa, x.b, x.sb) && Ran(x) && x.end.dialer.Some? && x.end.responder.Some?
    requires Mirrors(x.mb, base, Tip(x.sb), Tip(x.sa), m) && TrulyDiverged(x.mb.commits, Tip(x.sb), Tip(x.sa))
    ensures x.end.responder.value.Merged? && x.end.responder.value.kept == [] && FlatAt(x.sb', Tip(x.sb')) == Some(m)
  {
    assert Tip(x.mb) == Tip(x.sb) && x.mb.head == x.sb.head;
    MirrorOutcome(x.end.responder.value, x.mb, ForResponder(x), Tip(x.sb), x.sb.head, x.b, x.sb', base, m);
  }

  lemma MergedFiles(s: State, r: Remote, local: Hash, branch: string, me: Site, base: Hash, kept: seq<string>,
                    m: FlatMap, h: Hash, s': State)
    requires MergedOver(s, r, local, branch, me, base, kept, m, h, s') && s.head == branch
    ensures FlatAt(s', Tip(s')) == Some(m)
  {
  }

  // ---------- A session is a run of the network ----------

  ghost predicate Linked(w: World, nets: seq<Net>) {
    nets != [] && forall i :: 0 <= i < |nets| - 1 ==> Next(w, nets[i], nets[i + 1])
  }

  /** A network after peer `p` has changed its state. */
  function Moved(n: Net, p: Peer, s: State): Net {
    Net(n.all + s.commits, n.peers[p := s])
  }

  lemma ReceiptStep(n: Net, p: Peer, peer: State, mid: State, tip: Hash) returns (add: Graph)
    requires p in n.peers && SubGraph(peer.commits, n.all) && SubGraph(n.peers[p].commits, n.all)
    requires Received(n.peers[p], peer, tip, mid)
    ensures ReceiveStep(n, n.(peers := n.peers[p := mid]), p, add, mid.trees) && tip in n.all
  {
    var s := n.peers[p];
    add := NewCommits(s.commits, peer.commits, mid.commits);
    assert State(s.commits + add, mid.trees, s.refs, s.head) == mid;
  }

  lemma NewCommits(s: Graph, peer: Graph, mid: Graph) returns (add: Graph)
    requires SubGraph(s, mid) && forall h :: h in mid ==> h in s || (h in peer && peer[h] == mid[h])
    ensures s + add == mid && SubGraph(add, peer)
  {
    add := map h | h in mid && h !in s :: mid[h];
  }

  lemma IntegrationStep(w: World, n: Net, p: Peer, r: Remote, o: SyncOutcome, s: State, s': State)
    requires p in n.peers && r.tip in n.all && r.tip != NIL && s.head != ConflictName(r.peer)
    requires Integrated(o, s, r, Tip(s), s.head, SiteOf(w, p), s')
    ensures IntegrateStep(w, n.(peers := n.peers[p := s]), Moved(n, p, s'), p, r, o, s')
  {
    assert n.peers[p := s][p := s'] == n.peers[p := s'];
  }

  lemma TwoSteps(w: World, n: Net, n1: Net, n2: Net, p: Peer, add: Graph, trees: map<Hash, FlatMap>, r: Remote,
                 o: SyncOutcome, s': State)
    requires ReceiveStep(n, n1, p, add, trees) && IntegrateStep(w, n1, n2, p, r, o, s')
    ensures Linked(w, [n, n1, n2])
  {
    var nets := [n, n1, n2];
    forall i | 0 <= i < |nets| - 1
      ensures Next(w, nets[i], nets[i + 1])
    {
      assert nets[0] == n && nets[1] == n1 && nets[2] == n2;
    }
  }

  /** One side's half: a receipt, and then the integration. */
  lemma HalfIsSteps(w: World, n: Net, p: Peer, peer: State, mid: State, r: Remote, o: SyncOutcome, s': State)
    requires p in n.peers && SubGraph(peer.commits, n.all) && SubGraph(n.peers[p].commits, n.all)
    requires Half(SiteOf(w, p), n.peers[p], peer, mid, r, o, s') && r.tip != NIL
      && n.peers[p].head != ConflictName(r.peer)
    ensures Linked(w, [n, n.(peers := n.peers[p := mid]), Moved(n, p, s')])
  {
    var add := ReceiptStep(n, p, peer, mid, r.tip);
    IntegrationStep(w, n, p, r, o, mid, s');
    TwoSteps(w, n, n.(peers := n.peers[p := mid]), Moved(n, p, s'), p, add, mid.trees, r, o, s');
  }

  /** A side with nothing to take makes no step. */
  lemma SideIsSteps(w: World, n: Net, p: Peer, peer: State, mid: State, r: Remote, o: Option<SyncOutcome>, s': State)
    returns (nets: seq<Net>)
    requires p in n.peers && SubGraph(peer.commits, n.all) && SubGraph(n.peers[p].commits, n.all)
    requires Side(SiteOf(w, p), n.peers[p], peer, mid, r, o, s')
    requires (o.Some? ==> r.tip != NIL) && n.peers[p].head != ConflictName(r.peer)
    ensures Linked(w, nets) && nets[0] == n && |nets| <= 3
    ensures nets[|nets| - 1] == Moved(n, p, s')
  {
    if o.None? {
      assert Moved(n, p, s') == n;
      nets := [n];
    } else {
      HalfIsSteps(w, n, p, peer, mid, r, o.value, s');
      nets := [n, n.(peers := n.peers[p := mid]), Moved(n, p, s')];
    }
  }

  lemma LinkedJoin(w: World, a: seq<Net>, b: seq<Net>)
    requires Linked(w, a) && Linked(w, b) && b[0] == a[|a| - 1]
    ensures Linked(w, a + b[1..]) && (a + b[1..])[0] == a[0] && (a + b[1..])[|a + b[1..]| - 1] == b[|b| - 1]
  {
    var c := a + b[1..];
    forall i | 0 <= i < |c| - 1
      ensures Next(w, c[i], c[i + 1])
    {
      if i < |a| - 1 {
        assert c[i] == a[i] && c[i + 1] == a[i + 1];
      } else {
        var j := i - (|a| - 1);
        assert c[i] == b[j] && c[i + 1] == b[j + 1];
      }
    }
  }

  /** Two peers of a network hold what a session starts from. */
  ghost predicate Between(w: World, n: Net, p: Peer, q: Peer, x: Record) {
    && p != q && p in n.peers && q in n.peers && n.peers[p] == x.sa && n.peers[q] == x.sb
    && x.a == SiteOf(w, p) && x.b == SiteOf(w, q)
  }

  /** What a session does to the two peers is at most four steps of the network. */
  lemma SessionIsSteps(w: World, n: Net, p: Peer, q: Peer, x: Record) returns (nets: seq<Net>)
    requires Between(w, n, p, q, x) && Meet(x.a, x.sa, x.b, x.sb) && Ran(x)
    requires SubGraph(x.sa.commits, n.all) && SubGraph(x.sb.commits, n.all)
    ensures Linked(w, nets) && nets[0] == n && |nets| <= 5
    ensures nets[|nets| - 1].peers == n.peers[p := x.sa'][q := x.sb']
  {
    var first := DialerSteps(w, n, p, q, x);
    var second := AfterDialer(w, n, p, q, x);
    LinkedJoin(w, first, second);
    nets := first + second[1..];
  }

  lemma AfterDialer(w: World, n: Net, p: Peer, q: Peer, x: Record) returns (nets: seq<Net>)
    requires Between(w, n, p, q, x) && Meet(x.a, x.sa, x.b, x.sb) && Ran(x)
    requires SubGraph(x.sa.commits, n.all) && SubGraph(x.sb.commits, n.all)
    ensures Linked(w, nets) && nets[0] == Moved(n, p, x.sa') && |nets| <= 3
    ensures nets[|nets| - 1].peers == n.peers[p := x.sa'][q := x.sb']
  {
    DialerWithin(x, n.all);
    nets := ResponderSteps(w, Moved(n, p, x.sa'), q, x);
  }

  lemma DialerSteps(w: World, n: Net, p: Peer, q: Peer, x: Record) returns (nets: seq<Net>)
    requires Between(w, n, p, q, x) && Meet(x.a, x.sa, x.b, x.sb) && Ran(x)
    requires SubGraph(x.sa.commits, n.all) && SubGraph(x.sb.commits, n.all)
    ensures Linked(w, nets) && nets[0] == n && |nets| <= 3
    ensures nets[|nets| - 1] == Moved(n, p, x.sa')
  {
    nets := SideIsSteps(w, n, p, x.sb, x.ma, ForDialer(x), x.end.dialer, x.sa');
  }

  lemma ResponderSteps(w: World, n: Net, q: Peer, x: Record) returns (nets: seq<Net>)
    requires q in n.peers && n.peers[q] == x.sb && x.b == SiteOf(w, q) && Meet(x.a, x.sa, x.b, x.sb) && Ran(x)
    requires SubGraph(x.sa'.commits, n.all) && SubGraph(x.sb.commits, n.all)
    ensures Linked(w, nets) && nets[0] == n && |nets| <= 3
    ensures nets[|nets| - 1] == Moved(n, q, x.sb')
  {
    nets := SideIsSteps(w, n, q, x.sa', x.mb, ForResponder(x), x.end.responder, x.sb');
  }

  lemma DialerWithin(x: Record, all: Graph)
    requires Meet(x.a, x.sa, x.b, x.sb) && Ran(x) && SubGraph(x.sa.commits, all) && SubGraph(x.sb.commits, all)
    ensures SubGraph(x.sb.commits, all + x.sa'.commits) && SubGraph(x.sa'.commits, all + x.sa'.commits)
  {
    AddressedAgree(x.sb.commits, x.sa'.commits, x.a.hash);
  }

  /** A session between two peers at the end of a run continues the run. */
  lemma SessionContinuesRun(w: World, run: seq<Net>, p: Peer, q: Peer, x: Record) returns (run': seq<Net>)
    requires IdealHash(w.hash) && Run(w, run) && Between(w, run[|run| - 1], p, q, x)
    requires Meet(x.a, x.sa, x.b, x.sb) && Ran(x)
    ensures Run(w, run') && run <= run' && run'[|run'| - 1].peers == run[|run| - 1].peers[p := x.sa'][q := x.sb']
  {
    StoreInRun(w, run, p);
    StoreInRun(w, run, q);
    var nets := SessionIsSteps(w, run[|run| - 1], p, q, x);
    LinkedJoin(w, run, nets);
    run' := run + nets[1..];
  }

  /**
    After the session clocks mirror ancestry in each side's own store: of two distinct
    stored commits one is a proper ancestor of the other exactly when its clock compares as
    before, and the clocks are concurrent exactly when neither reaches the other.
   */
  lemma SessionClocks(w: World, run: seq<Net>, p: Peer, q: Peer, x: Record, s: State, h: Hash, k: Hash)
    requires IdealHash(w.hash) && Run(w, run) && Between(w, run[|run| - 1], p, q, x)
    requires Meet(x.a, x.sa, x.b, x.sb) && Ran(x) && (s == x.sa' || s == x.sb')
    requires h in s.commits && k in s.commits && h != k
    ensures ProperReach(s.commits, k, h) <==> Before(s.commits[h].clock, s.commits[k].clock)
    ensures Parallel(s.commits[h].clock, s.commits[k].clock) <==> !Reach(s.commits, h, k) && !Reach(s.commits, k, h)
  {
    var run' := SessionLast(w, run, p, q, x, s);
    OwnStoreClocks(w, run', |run'| - 1, s.commits, h, k);
  }

  /** The run that the session continues, and where either side's store is in it. */
  lemma SessionLast(w: World, run: seq<Net>, p: Peer, q: Peer, x: Record, s: State) returns (run': seq<Net>)
    requires IdealHash(w.hash) && Run(w, run) && Between(w, run[|run| - 1], p, q, x)
    requires Meet(x.a, x.sa, x.b, x.sb) && Ran(x) && (s == x.sa' || s == x.sb')
    ensures Run(w, run') && ClosedStore(s.commits) && SubGraph(s.commits, run'[|run'| - 1].all)
  {
    SidesClosed(x);
    run' := SessionContinuesRun(w, run, p, q, x);
    StoreInRun(w, run', if s == x.sb' then q else p);
  }

  lemma StoreInRun(w: World, run: seq<Net>, p: Peer)
    requires IdealHash(w.hash) && Run(w, run) && p in run[|run| - 1].peers
    ensures SubGraph(run[|run| - 1].peers[p].commits, run[|run| - 1].all)
  {
    RunKeepsInv(w, run, |run| - 1);
  }

  lemma SidesClosed(x: Record)
    requires Meet(x.a, x.sa, x.b, x.sb) && Ran(x)
    ensures ClosedStore(x.sa'.commits) && ClosedStore(x.sb'.commits)
  {
    SessionSafe(x);
  }

  lemma OwnStoreClocks(w: World, run: seq<Net>, i: nat, g: Graph, h: Hash, k: Hash)
    requires IdealHash(w.hash) && Run(w, run) && i < |run| && SubGraph(g, run[i].all) && ClosedStore(g)
    requires h in g && k in g && h != k
    ensures ProperReach(g, k, h) <==> Before(g[h].clock, g[k].clock)
    ensures Parallel(g[h].clock, g[k].clock) <==> !Reach(g, h, k) && !Reach(g, k, h)
  {
    var all := run[i].all;
    ClocksMirrorAncestry(w, run, i, h, k);
    SameReach(g, all, k, h);
    SameReach(g, all, h, k);
    ProperIsReach(g, k, h);
    ProperIsReach(all, k, h);
  }

  lemma SameReach(g: Graph, all: Graph, a: Hash, b: Hash)
    requires ClosedStore(g) && SubGraph(g, all) && a in g
    ensures Reach(g, a, b) <==> Reach(all, a, b)
  {
    AncestryStable(g, all, a);
    AncIsReach(g, a, b);
    AncIsReach(all, a, b);
  }

  /** In every run the stores of two peers together are acyclic, as a session between them needs. */
  lemma ReachableStoresAcyclic(w: World, run: seq<Net>, i: nat, p: Peer, q: Peer)
    requires IdealHash(w.hash) && Run(w, run) && i < |run| && p in run[i].peers && q in run[i].peers
    ensures Acyclic(run[i].peers[p].commits + run[i].peers[q].commits)
  {
    RunKeepsInv(w, run, i);
    GroundedAcyclic(w, run[i].all);
    assert SubGraph(run[i].peers[p].commits, run[i].all) && SubGraph(run[i].peers[q].commits, run[i].all);
    SubGraphAcyclic(run[i].peers[p].commits + run[i].peers[q].commits, run[i].all);
  }
}
