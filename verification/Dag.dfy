/**
  The commit graph of internal/dag: commits addressed by hash, each naming its parents.
  A repository's commits are a finite map; a commit that is not in the map has no
  parents, which is how every walk of the program treats it.
*/
module Dag {

  /** A content address. Hex strings of one length compare as the numbers they spell. */
  type Hash = nat

  /** The all-zero address. */
  const NIL: Hash := 0

  type Peer = string
  type Clock = map<Peer, nat>

  datatype Commit = Commit(tree: Hash, parents: seq<Hash>, author: string, peer: Peer,
                           timestamp: int, message: string, clock: Clock)

  type Graph = map<Hash, Commit>

  datatype Result<+T> = Ok(value: T) | Err(error: string)
  datatype Option<+T> = None | Some(value: T)

  function Parents(g: Graph, h: Hash): seq<Hash> {
    if h in g then g[h].parents else []
  }

  /** Every commit of `a` is in `b`. */
  ghost predicate SubGraph(a: Graph, b: Graph) {
    forall h :: h in a ==> h in b && b[h] == a[h]
  }

  /** `to` is reached from `from` by exactly `n` parent links. */
  ghost predicate Steps(g: Graph, from: Hash, to: Hash, n: nat)
    decreases n
  {
    if n == 0 then from == to
    else exists p :: p in Parents(g, from) && Steps(g, p, to, n - 1)
  }

  ghost predicate Reach(g: Graph, from: Hash, to: Hash) {
    exists n: nat :: Steps(g, from, to, n)
  }

  /** `to` is an ancestor of `from` by at least one link. */
  ghost predicate ProperReach(g: Graph, from: Hash, to: Hash) {
    exists n: nat :: n > 0 && Steps(g, from, to, n)
  }

  ghost predicate Acyclic(g: Graph) {
    forall h :: !ProperReach(g, h, h)
  }

  /** Every hash that a walk starting at `tip` can meet. */
  ghost function Nodes(g: Graph, tip: Hash): set<Hash> {
    {tip} + g.Keys + (set h, p | h in g && p in g[h].parents :: p)
  }

  /** The tip and everything reachable from it, missing commits included. */
  ghost function Anc(g: Graph, tip: Hash): set<Hash> {
    set h | h in Nodes(g, tip) && Reach(g, tip, h)
  }

  ghost predicate Closed(g: Graph, s: set<Hash>) {
    forall h, p :: h in s && p in Parents(g, h) ==> p in s
  }

  /** No ancestor of `tip` is missing from the store. */
  ghost predicate Complete(g: Graph, tip: Hash) {
    Anc(g, tip) <= g.Keys
  }

  // ---------- Lemmas about reachability ----------

  lemma {:induction false} StepsTrans(g: Graph, a: Hash, b: Hash, c: Hash, m: nat, n: nat)
    requires Steps(g, a, b, m) && Steps(g, b, c, n)
    ensures Steps(g, a, c, m + n)
    decreases m
  {
    if m > 0 {
      var p :| p in Parents(g, a) && Steps(g, p, b, m - 1);
      StepsTrans(g, p, b, c, m - 1, n);
    }
  }

  lemma ReachTrans(g: Graph, a: Hash, b: Hash, c: Hash)
    requires Reach(g, a, b) && Reach(g, b, c)
    ensures Reach(g, a, c)
    ensures ProperReach(g, a, b) || ProperReach(g, b, c) ==> ProperReach(g, a, c)
  {
    var m: nat :| Steps(g, a, b, m) && (ProperReach(g, a, b) ==> m > 0);
    var n: nat :| Steps(g, b, c, n) && (ProperReach(g, b, c) ==> n > 0);
    StepsTrans(g, a, b, c, m, n);
  }

  lemma ReachSelf(g: Graph, a: Hash)
    ensures Reach(g, a, a)
  {
    assert Steps(g, a, a, 0);
  }

  lemma ReachParent(g: Graph, a: Hash, p: Hash)
    requires p in Parents(g, a)
    ensures ProperReach(g, a, p) && Reach(g, a, p)
  {
    assert Steps(g, p, p, 0);
    assert Steps(g, a, p, 1);
  }

  lemma ProperIsReach(g: Graph, a: Hash, b: Hash)
    ensures ProperReach(g, a, b) ==> Reach(g, a, b)
    ensures Reach(g, a, b) ==> a == b || ProperReach(g, a, b)
  {
    if Reach(g, a, b) && a != b {
      var n: nat :| Steps(g, a, b, n);
      assert n > 0;
    }
  }

  /** A set closed under parents holds everything reachable from its members. */
  lemma {:induction false} ClosedHolds(g: Graph, s: set<Hash>, from: Hash, to: Hash, n: nat)
    requires Closed(g, s) && from in s && Steps(g, from, to, n)
    ensures to in s
    decreases n
  {
    if n > 0 {
      var p :| p in Parents(g, from) && Steps(g, p, to, n - 1);
      ClosedHolds(g, s, p, to, n - 1);
    }
  }

  lemma NodesClosed(g: Graph, tip: Hash)
    ensures Closed(g, Nodes(g, tip))
  {
  }

  /** The finite set Anc is exactly reachability. */
  lemma AncIsReach(g: Graph, tip: Hash, h: Hash)
    ensures h in Anc(g, tip) <==> Reach(g, tip, h)
  {
    if Reach(g, tip, h) {
      var n: nat :| Steps(g, tip, h, n);
      NodesClosed(g, tip);
      ClosedHolds(g, Nodes(g, tip), tip, h, n);
    }
  }

  lemma AncSelf(g: Graph, tip: Hash)
    ensures tip in Anc(g, tip)
  {
    ReachSelf(g, tip);
  }

  lemma AncClosed(g: Graph, tip: Hash)
    ensures Closed(g, Anc(g, tip))
  {
    forall h, p | h in Anc(g, tip) && p in Parents(g, h)
      ensures p in Anc(g, tip)
    {
      ReachParent(g, h, p);
      ReachTrans(g, tip, h, p);
      AncIsReach(g, tip, p);
    }
  }

  /** Any closed set that holds the tip holds all its ancestors. */
  lemma AncLeast(g: Graph, tip: Hash, s: set<Hash>)
    requires Closed(g, s) && tip in s
    ensures Anc(g, tip) <= s
  {
    forall h | h in Anc(g, tip)
      ensures h in s
    {
      var n: nat :| Steps(g, tip, h, n);
      ClosedHolds(g, s, tip, h, n);
    }
  }

  lemma AncTrans(g: Graph, a: Hash, b: Hash)
    requires b in Anc(g, a)
    ensures Anc(g, b) <= Anc(g, a)
  {
    AncClosed(g, a);
    AncLeast(g, b, Anc(g, a));
  }

  /** In an acyclic graph two commits that reach each other are one commit. */
  lemma AncAntisym(g: Graph, a: Hash, b: Hash)
    requires Acyclic(g) && a in Anc(g, b) && b in Anc(g, a)
    ensures a == b
  {
    if a != b {
      ProperIsReach(g, a, b);
      ReachTrans(g, a, b, a);
    }
  }

  /** Every non-empty finite set has a member from which no member is properly reached. */
  lemma {:induction false} OldestMember(g: Graph, s: set<Hash>) returns (m: Hash)
    requires Acyclic(g) && s != {}
    ensures m in s && forall x :: x in s ==> !ProperReach(g, m, x)
    decreases |s|
  {
    var x :| x in s;
    var rest := s - {x};
    if rest == {} {
      assert s == {x};
      m := x;
    } else {
      m := OldestMember(g, rest);
      if ProperReach(g, m, x) {
        forall y | y in s
          ensures !ProperReach(g, x, y)
        {
          if ProperReach(g, x, y) {
            ProperIsReach(g, m, x);
            ProperIsReach(g, x, y);
            ReachTrans(g, m, x, y);
          }
        }
        m := x;
      }
    }
  }

  /** Dually, one that no member properly reaches. */
  lemma {:induction false} NewestMember(g: Graph, s: set<Hash>) returns (m: Hash)
    requires Acyclic(g) && s != {}
    ensures m in s && forall x :: x in s ==> !ProperReach(g, x, m)
    decreases |s|
  {
    var x :| x in s;
    var rest := s - {x};
    if rest == {} {
      assert s == {x};
      m := x;
    } else {
      m := NewestMember(g, rest);
      if ProperReach(g, x, m) {
        forall y | y in s
          ensures !ProperReach(g, y, x)
        {
          if ProperReach(g, y, x) {
            ProperIsReach(g, y, x);
            ProperIsReach(g, x, m);
            ReachTrans(g, y, x, m);
          }
        }
        m := x;
      }
    }
  }
}
