/**
  A repository (internal/store/store.go): its commits, the flattened trees it can read,
  its refs and the branch HEAD names. Hashing is an injective function; the working tree
  is the flattened tree last checked out.
*/
module Store {
  import opened Dag
  import opened Merge
  import opened Paths
  import opened VectorClock

  /** The part of a repository that history operations move. */
  datatype State = State(commits: Graph, trees: map<Hash, FlatMap>, refs: map<string, Hash>, head: string)

  /** Who commits here, under which user name, and how commits and map-built trees are addressed. */
  datatype Site = Site(id: Peer, user: string, hash: Commit -> Hash, addr: FlatMap -> Hash)

  /** Ideal content addresses: no two contents share one, and none is all zero. */
  ghost predicate IdealHash(hash: Commit -> Hash) {
    && (forall c, d :: hash(c) == hash(d) ==> c == d)
    && (forall c :: hash(c) != NIL)
  }

  ghost predicate IdealTreeHash(addr: FlatMap -> Hash) {
    forall m, n :: addr(m) == addr(n) ==> m == n
  }

  /** Every commit sits at its content address. */
  ghost predicate Addressed(g: Graph, hash: Commit -> Hash) {
    forall h :: h in g ==> hash(g[h]) == h
  }

  /** A tree built from a map sits at that map's address. */
  ghost predicate TreesAddressed(trees: map<Hash, FlatMap>, addr: FlatMap -> Hash) {
    forall m :: addr(m) in trees ==> trees[addr(m)] == m
  }

  /** The branch tip, NIL when the branch is unborn. */
  function TipOf(refs: map<string, Hash>, branch: string): Hash {
    if branch in refs then refs[branch] else NIL
  }

  /** The flattened tree of a commit, when the commit and its tree are stored. */
  function FlatAt(s: State, h: Hash): Option<FlatMap> {
    if h in s.commits && s.commits[h].tree in s.trees then Some(s.trees[s.commits[h].tree]) else None
  }

  /** The same where a tree that cannot be read flattens to nothing. */
  function FlatOf(s: State, h: Hash): FlatMap {
    if FlatAt(s, h).Some? then FlatAt(s, h).value else map[]
  }

  /** A commit that can be checked out: its tree is readable and holds clean paths only. */
  predicate Checkable(s: State, h: Hash) {
    FlatAt(s, h).Some? && CleanTreePaths(FlatAt(s, h).value.Keys)
  }

  /** The commit that Commit writes on top of `tip`. */
  function NewCommit(g: Graph, tip: Hash, root: Hash, me: Site, now: int, message: string): Commit
    requires tip != NIL ==> tip in g
  {
    Commit(root, if tip == NIL then [] else [tip], me.user, me.id, now, message,
           Bumped(if tip == NIL then map[] else g[tip].clock, me.id))
  }

  /** The merge commit of two tips: both as parents, their clocks joined and the peer's own counter bumped. */
  function MergeCommit(g: Graph, local: Hash, remote: Hash, root: Hash, me: Site, now: int, message: string): Commit
    requires local in g && remote in g
  {
    Commit(root, [local, remote], me.user, me.id, now, message,
           Bumped(Joined(g[local].clock, g[remote].clock), me.id))
  }

  class Repo {
    const me: Site
    var commits: Graph
    var trees: map<Hash, FlatMap>
    var refs: map<string, Hash>
    var head: string
    var work: FlatMap

    ghost predicate Valid()
      reads this
    {
      && IdealHash(me.hash) && IdealTreeHash(me.addr)
      && Addressed(commits, me.hash) && TreesAddressed(trees, me.addr)
    }

    function Now(): State
      reads this
    {
      State(commits, trees, refs, head)
    }

    /** A new repository. */
    constructor (me: Site, branch: string)
      requires IdealHash(me.hash) && IdealTreeHash(me.addr)
      ensures Valid() && Now() == State(map[], map[], map[], branch) && work == map[] && this.me == me
    {
      this.me := me;
      commits, trees, refs, head, work := map[], map[], map[], branch, map[];
    }

    function Tip(): Hash
      reads this
    {
      TipOf(refs, head)
    }

    /** DAG.Put: a commit already stored is left alone. */
    method Put(c: Commit) returns (h: Hash)
      requires Valid()
      modifies this`commits
      ensures Valid() && h == me.hash(c) && commits == old(commits)[h := c]
    {
      h := me.hash(c);
      if h !in commits {
        commits := commits[h := c];
      }
      assert commits == old(commits)[h := c];
    }

    /** BuildTreeFromMap, up to its path check: the tree of a flat map, stored. */
    method PutTree(m: FlatMap) returns (root: Hash)
      requires Valid()
      modifies this`trees
      ensures Valid() && root == me.addr(m) && trees == old(trees)[root := m]
    {
      root := me.addr(m);
      trees := trees[root := m];
    }

    /** Commit on the branch HEAD names: fails, changing nothing, when the tip is not stored. */
    method Commit(message: string, root: Hash, now: int) returns (r: Result<Hash>)
      requires Valid()
      modifies this`commits, this`refs
      ensures Valid()
      ensures r.Err? <==> old(Tip()) != NIL && old(Tip()) !in old(commits)
      ensures r.Err? ==> Now() == old(Now())
      ensures r.Ok? ==>
        var c := NewCommit(old(commits), old(Tip()), root, me, now, message);
        && r.value == me.hash(c)
        && commits == old(commits)[r.value := c]
        && refs == old(refs)[head := r.value]
    {
      var tip := Tip();
      if tip != NIL && tip !in commits { return Err("load tip"); }
      var clock := new VClock(if tip == NIL then map[] else commits[tip].clock);
      clock.Increment(me.id);
      var c := Dag.Commit.Commit(root, if tip == NIL then [] else [tip], me.user, me.id, now, message, clock.counts);
      var h := Put(c);
      refs := refs[head := h];
      return Ok(h);
    }

    /**
      Checkout: the working tree becomes the commit's. A commit that cannot be read and a
      tree with a path that no tree may hold are refused whole, changing nothing.
     */
    method Checkout(h: Hash) returns (ok: bool)
      modifies this`work
      ensures ok <==> Checkable(Now(), h)
      ensures work == if ok then FlatOf(Now(), h) else old(work)
    {
      var t := FlatAt(Now(), h);
      if t.None? { return false; }
      if p :| p in t.value.Keys && !CleanTreePath(p) { return false; }
      work := t.value;
      return true;
    }
  }
}
