/**
  Fetching the objects of commits (missingObjects, fetchObjects and the twelve rounds of
  fetchGraph and ensureTipObjects in internal/sync/sync.go).
*/
module Fetch {
  import opened Dag
  import opened DagWalk
  import opened Gc

  /** What an address stands for. References have to agree on it for a scan to be exact. */
  datatype Kind = Directory | Manifest | Plain

  const ROUNDS: nat := 12

  // ---------- Links between objects ----------

  function EntryKids(es: seq<Entry>): set<Hash> {
    set e | e in es && !(e.isDir && e.hash == NIL) :: e.hash
  }

  ghost function Kids(cx: Codec, kind: Hash -> Kind, o: Objects, h: Hash): set<Hash> {
    match kind(h)
    case Directory => EntryKids(Entries(cx, o, h))
    case Manifest => Elems(Chunks(cx, o, h))
    case Plain => {}
  }

  ghost function Links(cx: Codec, kind: Hash -> Kind, o: Objects): map<Hash, set<Hash>> {
    map h | h in o :: Kids(cx, kind, o, h)
  }

  ghost predicate EntrySound(kind: Hash -> Kind, e: Entry) {
    kind(e.hash) == if e.isDir then Directory else if e.chunked then Manifest else Plain
  }

  /** Flags are right: every reference to an address takes it for the same kind of object. */
  ghost predicate Sound(cx: Codec, kind: Hash -> Kind, o: Objects) {
    && (forall h, e :: h in o && kind(h) == Directory && e in Entries(cx, o, h) ==> EntrySound(kind, e))
    && (forall h, c :: h in o && kind(h) == Manifest && c in Chunks(cx, o, h) ==> kind(c) == Plain)
  }

  /** `h` stands `n` links below a root, with `c` objects outside `have` on the way, itself included. */
  ghost predicate Path(links: map<Hash, set<Hash>>, have: set<Hash>, roots: set<Hash>, h: Hash, n: nat, c: int)
    decreases n
  {
    if n == 0 then h in roots && c == Cost(have, h)
    else exists p :: p in links && h in links[p] && Path(links, have, roots, p, n - 1, c - Cost(have, h))
  }

  function Cost(have: set<Hash>, h: Hash): int {
    if h in have then 0 else 1
  }

  ghost predicate Reached(links: map<Hash, set<Hash>>, roots: set<Hash>, h: Hash) {
    exists n: nat, c: int :: Path(links, {}, roots, h, n, c)
  }

  /** Some way to `h` meets at most `k` objects outside `have`. */
  ghost predicate Cheap(links: map<Hash, set<Hash>>, have: set<Hash>, roots: set<Hash>, h: Hash, k: nat) {
    exists n: nat, c: int :: c <= k && Path(links, have, roots, h, n, c)
  }

  ghost function Universe(links: map<Hash, set<Hash>>, roots: set<Hash>): set<Hash> {
    roots + (set p, h | p in links && h in links[p] :: h)
  }

  /** Everything the roots lead to. */
  ghost function Closure(links: map<Hash, set<Hash>>, roots: set<Hash>): set<Hash> {
    set h | h in Universe(links, roots) && Reached(links, roots, h)
  }

  ghost predicate ClosedUnder(links: map<Hash, set<Hash>>, s: set<Hash>) {
    forall p, h :: p in s && p in links && h in links[p] ==> h in s
  }

  /** The cost of a way depends on what is held, its existence does not. */
  lemma {:induction false} PathCost(links: map<Hash, set<Hash>>, have: set<Hash>, have': set<Hash>, roots: set<Hash>,
                                    h: Hash, n: nat, c: int)
    returns (c': int)
    requires Path(links, have, roots, h, n, c)
    ensures Path(links, have', roots, h, n, c') && 0 <= c' <= n + 1
    decreases n
  {
    if n == 0 {
      c' := Cost(have', h);
    } else {
      var p :| p in links && h in links[p] && Path(links, have, roots, p, n - 1, c - Cost(have, h));
      c' := PathCost(links, have, have', roots, p, n - 1, c - Cost(have, h));
      c' := c' + Cost(have', h);
    }
  }

  lemma {:induction false} PathStays(links: map<Hash, set<Hash>>, have: set<Hash>, roots: set<Hash>, s: set<Hash>,
                                     h: Hash, n: nat, c: int)
    requires Path(links, have, roots, h, n, c) && ClosedUnder(links, s) && roots <= s
    ensures h in s
    decreases n
  {
    if n > 0 {
      var p :| p in links && h in links[p] && Path(links, have, roots, p, n - 1, c - Cost(have, h));
      PathStays(links, have, roots, s, p, n - 1, c - Cost(have, h));
    }
  }

  lemma PathStep(links: map<Hash, set<Hash>>, have: set<Hash>, roots: set<Hash>, p: Hash, h: Hash, n: nat, c: int)
    requires p in links && h in links[p] && Path(links, have, roots, p, n, c)
    ensures Path(links, have, roots, h, n + 1, c + Cost(have, h))
  {
    assert Path(links, have, roots, p, n + 1 - 1, c + Cost(have, h) - Cost(have, h));
  }

  lemma ClosureIsReached(links: map<Hash, set<Hash>>, roots: set<Hash>, h: Hash)
    ensures h in Closure(links, roots) <==> Reached(links, roots, h)
  {
    if Reached(links, roots, h) {
      var n: nat, c: int :| Path(links, {}, roots, h, n, c);
      PathStays(links, {}, roots, Universe(links, roots), h, n, c);
    }
  }

  lemma ClosureRoom(links: map<Hash, set<Hash>>, roots: set<Hash>)
    ensures ClosedUnder(links, Closure(links, roots)) && roots <= Closure(links, roots)
  {
    forall r | r in roots
      ensures r in Closure(links, roots)
    {
      assert Path(links, {}, roots, r, 0, 1);
    }
    forall p, h | p in Closure(links, roots) && p in links && h in links[p]
      ensures h in Closure(links, roots)
    {
      var n: nat, c: int :| Path(links, {}, roots, p, n, c);
      PathStep(links, {}, roots, p, h, n, c);
    }
  }

  lemma ClosureLeast(links: map<Hash, set<Hash>>, roots: set<Hash>, s: set<Hash>)
    requires ClosedUnder(links, s) && roots <= s
    ensures Closure(links, roots) <= s
  {
    forall h | h in Closure(links, roots)
      ensures h in s
    {
      var n: nat, c: int :| Path(links, {}, roots, h, n, c);
      PathStays(links, {}, roots, s, h, n, c);
    }
  }

  // ---------- One round ----------

  /**
    The state before round `k`: of what the roots lead to, exactly what was there or lies
    behind at most `k` missing objects.
   */
  ghost predicate AfterRounds(full: map<Hash, set<Hash>>, have: set<Hash>, now: map<Hash, set<Hash>>,
                              roots: set<Hash>, k: nat) {
    && Closure(full, roots) <= full.Keys
    && (forall h :: h in now && h in Closure(full, roots) ==> now[h] == full[h])
    && (forall h {:trigger h in now} :: h in Closure(full, roots) ==>
      (h in now <==> h in have || Cheap(full, have, roots, h, k)))
  }

  /** Whatever the local links reach, the full links reach. */
  lemma {:induction false} LocalIsFull(full: map<Hash, set<Hash>>, now: map<Hash, set<Hash>>, roots: set<Hash>,
                                       h: Hash, n: nat, c: int)
    requires Path(now, {}, roots, h, n, c)
    requires Closure(full, roots) <= full.Keys && forall h :: h in now && h in Closure(full, roots) ==>
      now[h] == full[h]
    ensures h in Closure(full, roots)
    decreases n
  {
    ClosureRoom(full, roots);
    if n > 0 {
      var p :| p in now && h in now[p] && Path(now, {}, roots, p, n - 1, c - Cost({}, h));
      LocalIsFull(full, now, roots, p, n - 1, c - Cost({}, h));
    }
  }

  /** An object that is there and reached locally is reached behind at most `k` missing ones. */
  lemma {:induction false} HeldIsCheap(full: map<Hash, set<Hash>>, have: set<Hash>, now: map<Hash, set<Hash>>,
                                       roots: set<Hash>, k: nat, h: Hash, n: nat, c: int)
    requires AfterRounds(full, have, now, roots, k) && Path(now, {}, roots, h, n, c) && h in now
    ensures Cheap(full, have, roots, h, k)
    decreases n
  {
    LocalIsFull(full, now, roots, h, n, c);
    if h in have {
      if n == 0 {
        assert Path(full, have, roots, h, 0, 0);
      } else {
        var p :| p in now && h in now[p] && Path(now, {}, roots, p, n - 1, c - Cost({}, h));
        HeldIsCheap(full, have, now, roots, k, p, n - 1, c - Cost({}, h));
        LocalIsFull(full, now, roots, p, n - 1, c - Cost({}, h));
        var n': nat, c': int :| c' <= k && Path(full, have, roots, p, n', c');
        PathStep(full, have, roots, p, h, n', c');
      }
    }
  }

  /** What a scan finds missing lies behind at most `k` others. */
  lemma MissingIsNext(full: map<Hash, set<Hash>>, have: set<Hash>, now: map<Hash, set<Hash>>, roots: set<Hash>,
                      k: nat, h: Hash)
    requires AfterRounds(full, have, now, roots, k) && have <= now.Keys && Reached(now, roots, h) && h !in now
    ensures h in Closure(full, roots) && Cheap(full, have, roots, h, k + 1)
  {
    var n: nat, c: int :| Path(now, {}, roots, h, n, c);
    LocalIsFull(full, now, roots, h, n, c);
    if n == 0 {
      assert Path(full, have, roots, h, 0, 1);
    } else {
      var p :| p in now && h in now[p] && Path(now, {}, roots, p, n - 1, c - Cost({}, h));
      HeldIsCheap(full, have, now, roots, k, p, n - 1, c - Cost({}, h));
      LocalIsFull(full, now, roots, p, n - 1, c - Cost({}, h));
      var n': nat, c': int :| c' <= k && Path(full, have, roots, p, n', c');
      PathStep(full, have, roots, p, h, n', c');
    }
  }

  /** And whatever lies behind at most `k` missing objects is found by the scan. */
  lemma {:induction false} NextIsFound(full: map<Hash, set<Hash>>, have: set<Hash>, now: map<Hash, set<Hash>>,
                                       roots: set<Hash>, k: nat, h: Hash, n: nat, c: int)
    requires AfterRounds(full, have, now, roots, k) && have <= now.Keys && Path(full, have, roots, h, n, c)
      && c <= k + Cost(have, h)
    ensures Reached(now, roots, h)
    decreases n
  {
    if n == 0 {
      assert Path(now, {}, roots, h, 0, 1);
    } else {
      var p :| p in full && h in full[p] && Path(full, have, roots, p, n - 1, c - Cost(have, h));
      var c1 := c - Cost(have, h);
      NextIsFound(full, have, now, roots, k, p, n - 1, c1);
      assert Cheap(full, have, roots, p, k);
      var c2 := PathCost(full, have, {}, roots, p, n - 1, c1);
      ClosureIsReached(full, roots, p);
      var n': nat, c': int :| Path(now, {}, roots, p, n', c');
      PathStep(now, {}, roots, p, h, n', c');
    }
  }

  /** A round adds the missing objects: the state before round `k + 1`. */
  lemma RoundAdvances(full: map<Hash, set<Hash>>, have: set<Hash>, now: map<Hash, set<Hash>>,
                      next: map<Hash, set<Hash>>, roots: set<Hash>, k: nat)
    requires AfterRounds(full, have, now, roots, k) && have <= now.Keys
    requires forall h :: h in next <==> h in now || (h !in now && Reached(now, roots, h))
    requires forall h :: h in next ==> next[h] == if h in now then now[h] else if h in full then full[h] else {}
    ensures AfterRounds(full, have, next, roots, k + 1)
  {
    forall h | h in Closure(full, roots)
      ensures h in next <==> h in have || Cheap(full, have, roots, h, k + 1)
    {
      if h in next && h !in now {
        MissingIsNext(full, have, now, roots, k, h);
      }
      if h !in now && h !in have && Cheap(full, have, roots, h, k + 1) {
        var n: nat, c: int :| c <= k + 1 && Path(full, have, roots, h, n, c);
        NextIsFound(full, have, now, roots, k, h, n, c);
      }
    }
  }

  /** When nothing is missing, everything is there; and the other way round. */
  lemma NothingMissing(now: map<Hash, set<Hash>>, roots: set<Hash>)
    ensures (forall h :: Reached(now, roots, h) ==> h in now) <==> Closure(now, roots) <= now.Keys
  {
    forall h
      ensures h in Closure(now, roots) <==> Reached(now, roots, h)
    {
      ClosureIsReached(now, roots, h);
    }
  }

  /** With nothing missing, the local closure is the full one. */
  lemma ClosureMatches(full: map<Hash, set<Hash>>, have: set<Hash>, now: map<Hash, set<Hash>>, roots: set<Hash>, k: nat)
    requires AfterRounds(full, have, now, roots, k)
    ensures Closure(now, roots) <= now.Keys <==> Closure(full, roots) <= now.Keys
  {
    ClosureRoom(full, roots);
    ClosureRoom(now, roots);
    if Closure(now, roots) <= now.Keys {
      var both := Closure(now, roots) * Closure(full, roots);
      ClosureLeast(full, roots, both);
    }
    if Closure(full, roots) <= now.Keys {
      ClosureLeast(now, roots, Closure(full, roots));
    }
  }

  /** Twelve rounds suffice for these roots: every object lies behind at most twelve that had to be fetched. */
  ghost predicate Shallow(full: map<Hash, set<Hash>>, have: set<Hash>, roots: set<Hash>) {
    forall h :: h in Closure(full, roots) ==> h in have || Cheap(full, have, roots, h, ROUNDS)
  }

  /** In particular when no chain of links holds more than twelve objects. */
  lemma ShortChainsSuffice(full: map<Hash, set<Hash>>, have: set<Hash>, roots: set<Hash>)
    requires forall h, n: nat, c: int :: Path(full, {}, roots, h, n, c) ==> n < ROUNDS
    ensures Shallow(full, have, roots)
  {
    forall h | h in Closure(full, roots)
      ensures Cheap(full, have, roots, h, ROUNDS)
    {
      var n: nat, c: int :| Path(full, {}, roots, h, n, c);
      var c' := PathCost(full, {}, have, roots, h, n, c);
    }
  }

  /** After `k` rounds every object less than `k` links below a root is present. */
  lemma DepthAfterRounds(full: map<Hash, set<Hash>>, have: set<Hash>, now: map<Hash, set<Hash>>, roots: set<Hash>,
                         k: nat, h: Hash, n: nat, c: int)
    requires AfterRounds(full, have, now, roots, k) && Path(full, {}, roots, h, n, c) && n < k
    ensures h in now
  {
    ClosureIsReached(full, roots, h);
    var c' := PathCost(full, {}, have, roots, h, n, c);
    assert Cheap(full, have, roots, h, k);
  }

  // ---------- The operations ----------

  /** A depth-first scan inside `all`: what it saw is closed, and `out` lists once each what is absent. */
  ghost predicate Scanned(links: map<Hash, set<Hash>>, all: set<Hash>, seen0: set<Hash>, out0: seq<Hash>,
                          seen: set<Hash>, out: seq<Hash>) {
    && seen0 <= seen <= all
    && (forall p, h :: p in seen - seen0 && p in links && h in links[p] ==> h in seen)
    && (NoDup(out0) && Elems(out0) <= seen0 ==> NoDup(out) && Elems(out) <= seen)
    && (forall h :: h in out <==> h in out0 || (h in seen - seen0 && h !in links))
  }

  lemma ScanChain(links: map<Hash, set<Hash>>, all: set<Hash>, s0: set<Hash>, o0: seq<Hash>, s1: set<Hash>,
                  o1: seq<Hash>, s2: set<Hash>, o2: seq<Hash>)
    requires Scanned(links, all, s0, o0, s1, o1) && Scanned(links, all, s1, o1, s2, o2)
    ensures Scanned(links, all, s0, o0, s2, o2)
  {
  }

  /** A node without links of its own, or an absent one. */
  lemma ScanLeaf(links: map<Hash, set<Hash>>, all: set<Hash>, s: set<Hash>, o: seq<Hash>, h: Hash)
    requires h in all && s <= all && h !in s && (h in links ==> links[h] == {})
    ensures Scanned(links, all, s, o, s + {h}, if h in links then o else o + [h])
  {
  }

  /** A present node whose links were all seen after it. */
  lemma ScanNode(links: map<Hash, set<Hash>>, all: set<Hash>, s: set<Hash>, o: seq<Hash>, h: Hash, seen: set<Hash>,
                 out: seq<Hash>)
    requires h in links && h !in s && h in all && Scanned(links, all, s + {h}, o, seen, out) && links[h] <= seen
    ensures Scanned(links, all, s, o, seen, out)
  {
  }

  lemma FileKeeps(cx: Codec, kind: Hash -> Kind, rank: Hash -> nat, o: Objects, peer: Objects, h: Hash)
    requires Grounded(cx, o, rank) && Sound(cx, kind, o) && Grounded(cx, peer, rank) && Sound(cx, kind, peer)
      && h in peer
    ensures Grounded(cx, o[h := peer[h]], rank) && Sound(cx, kind, o[h := peer[h]])
  {
    var o' := o[h := peer[h]];
    assert forall x :: x in o' ==>
      Entries(cx, o', x) == (if x == h then Entries(cx, peer, x) else Entries(cx, o, x)) &&
      Chunks(cx, o', x) == (if x == h then Chunks(cx, peer, x) else Chunks(cx, o, x));
  }

  ghost function Roots(trees: seq<Hash>): set<Hash> {
    Elems(trees) - {NIL}
  }

  class Fetcher {
    var objects: Objects
    const cx: Codec
    ghost const kind: Hash -> Kind
    ghost const rank: Hash -> nat

    ghost predicate Valid()
      reads this
    {
      Grounded(cx, objects, rank) && Sound(cx, kind, objects)
    }

    ghost function Now(): map<Hash, set<Hash>>
      reads this
    {
      Links(cx, kind, objects)
    }

    constructor (cx: Codec, ghost kind: Hash -> Kind, ghost rank: Hash -> nat)
      ensures Valid() && objects == map[] && this.cx == cx && this.kind == kind && this.rank == rank
    {
      this.cx, this.kind, this.rank, objects := cx, kind, rank, map[];
    }

    /** The chunks of a manifest. */
    method ScanChunks(h: Hash, ghost all: set<Hash>, seen0: set<Hash>, out0: seq<Hash>)
      returns (seen: set<Hash>, out: seq<Hash>)
      requires Valid() && kind(h) == Manifest && h in objects && h in all && ClosedUnder(Now(), all) && seen0 <= all
      ensures Scanned(Now(), all, seen0, out0, seen, out) && Now()[h] <= seen
    {
      seen, out := seen0, out0;
      var cs := Chunks(cx, objects, h);
      for i := 0 to |cs|
        invariant Scanned(Now(), all, seen0, out0, seen, out)
        invariant forall j :: 0 <= j < i ==> cs[j] in seen
      {
        var c := cs[i];
        if c in seen { continue; }
        assert c in Now()[h] && kind(c) == Plain;
        ScanLeaf(Now(), all, seen, out, c);
        ghost var s1, o1 := seen, out;
        seen := seen + {c};
        if c !in objects { out := out + [c]; }
        ScanChain(Now(), all, seen0, out0, s1, o1, seen, out);
      }
    }

    /** One file entry. */
    method ScanFile(e: Entry, ghost all: set<Hash>, seen0: set<Hash>, out0: seq<Hash>)
      returns (seen: set<Hash>, out: seq<Hash>)
      requires Valid() && !e.isDir && EntrySound(kind, e) && e.hash in all && ClosedUnder(Now(), all) && seen0 <= all
      ensures Scanned(Now(), all, seen0, out0, seen, out) && e.hash in seen
    {
      seen, out := seen0, out0;
      if e.hash in seen { return; }
      seen := seen + {e.hash};
      if e.hash !in objects {
        out := out + [e.hash];
        ScanLeaf(Now(), all, seen0, out0, e.hash);
      } else if e.chunked {
        seen, out := ScanChunks(e.hash, all, seen, out);
        ScanNode(Now(), all, seen0, out0, e.hash, seen, out);
      } else {
        ScanLeaf(Now(), all, seen0, out0, e.hash);
      }
    }

    /** walkTree: a tree and what hangs below it, as far as it is present. */
    method ScanTree(h: Hash, ghost all: set<Hash>, seen0: set<Hash>, out0: seq<Hash>)
      returns (seen: set<Hash>, out: seq<Hash>)
      requires Valid() && (h != NIL ==> kind(h) == Directory && h in all) && ClosedUnder(Now(), all) && seen0 <= all
      ensures Scanned(Now(), all, seen0, out0, seen, out) && (h != NIL ==> h in seen)
      decreases rank(h)
    {
      seen, out := seen0, out0;
      if h == NIL || h in seen { return; }
      seen := seen + {h};
      if h !in objects {
        ScanLeaf(Now(), all, seen0, out0, h);
        out := out + [h];
        return;
      }
      ghost var s1 := seen;
      var es := Entries(cx, objects, h);
      for i := 0 to |es|
        invariant Scanned(Now(), all, s1, out0, seen, out)
        invariant EntryKids(es[..i]) <= seen
      {
        var e := es[i];
        assert e in es && EntrySound(kind, e);
        assert !(e.isDir && e.hash == NIL) ==> e.hash in Now()[h];
        ghost var s2, o2 := seen, out;
        if e.isDir {
          seen, out := ScanTree(e.hash, all, seen, out);
        } else {
          seen, out := ScanFile(e, all, seen, out);
        }
        ScanChain(Now(), all, s1, out0, s2, o2, seen, out);
        assert es[..i + 1] == es[..i] + [e];
      }
      assert es[..|es|] == es;
      ScanNode(Now(), all, seen0, out0, h, seen, out);
    }

    /** missingObjects: once each, exactly what the trees lead to and the store lacks. */
    method MissingObjects(trees: seq<Hash>) returns (out: seq<Hash>)
      requires Valid() && forall t :: t in trees && t != NIL ==> kind(t) == Directory
      ensures NoDup(out)
      ensures forall h :: h in out <==> h !in objects && Reached(Now(), Roots(trees), h)
    {
      ghost var all := Closure(Now(), Roots(trees));
      ClosureRoom(Now(), Roots(trees));
      var seen: set<Hash> := {};
      out := [];
      for i := 0 to |trees|
        invariant Scanned(Now(), all, {}, [], seen, out)
        invariant forall j :: 0 <= j < i && trees[j] != NIL ==> trees[j] in seen
      {
        assert trees[i] != NIL ==> trees[i] in Roots(trees);
        ghost var s1, o1 := seen, out;
        seen, out := ScanTree(trees[i], all, seen, out);
        ScanChain(Now(), all, {}, [], s1, o1, seen, out);
      }
      ClosureLeast(Now(), Roots(trees), seen);
      forall h
        ensures h in out <==> h !in objects && Reached(Now(), Roots(trees), h)
      {
        ClosureIsReached(Now(), Roots(trees), h);
      }
    }

    /** fetchObjects: files what the peer sends, in order, and fails at the first object it lacks. */
    method FetchObjects(peer: Objects, want: seq<Hash>) returns (ok: bool)
      requires Valid() && Grounded(cx, peer, rank) && Sound(cx, kind, peer)
      requires NoDup(want) && forall h :: h in want ==> h !in objects
      modifies this
      ensures Valid() && (ok <==> forall h :: h in want ==> h in peer)
      ensures forall h :: h in old(objects) ==> h in objects && objects[h] == old(objects)[h]
      ensures forall h :: h in objects && h !in old(objects) ==> h in want && h in peer && objects[h] == peer[h]
      ensures ok ==> forall h :: h in want ==> h in objects
    {
      for i := 0 to |want|
        invariant Valid()
        invariant forall h :: h in old(objects) ==> h in objects && objects[h] == old(objects)[h]
        invariant forall h :: h in objects && h !in old(objects) ==>
          h in want[..i] && h in peer && objects[h] == peer[h]
        invariant forall j :: 0 <= j < i ==> want[j] in objects && want[j] in peer
      {
        if want[i] !in peer { return false; }
        FileKeeps(cx, kind, rank, objects, peer, want[i]);
        objects := objects[want[i] := peer[want[i]]];
        assert want[..i + 1] == want[..i] + [want[i]];
      }
      return true;
    }

    /** One round: scan, and fetch what is missing. */
    method Round(peer: Objects, trees: seq<Hash>, ghost have: set<Hash>, ghost k: nat) returns (ok: bool, done: bool)
      requires Valid() && Grounded(cx, peer, rank) && Sound(cx, kind, peer) && SameContent(objects, peer)
      requires (forall t :: t in trees && t != NIL ==> kind(t) == Directory) && have <= objects.Keys
      modifies this
      ensures Valid() && SameContent(objects, peer) && Fetched(old(objects), objects, peer)
      ensures done ==> ok && objects == old(objects) && Closure(Now(), Roots(trees)) <= objects.Keys
      ensures PeerComplete(peer, trees) && old(AfterRounds(Links(cx, kind, peer), have, Now(), Roots(trees), k)) ==>
        ok && (done || AfterRounds(Links(cx, kind, peer), have, Now(), Roots(trees), k + 1))
    {
      ghost var full, now, roots := Links(cx, kind, peer), Now(), Roots(trees);
      var objs := MissingObjects(trees);
      NothingMissing(now, roots);
      if objs == [] {
        assert forall h :: Reached(now, roots, h) ==> h in now;
        return true, true;
      }
      ghost var before := objects;
      ok := FetchObjects(peer, objs);
      done := false;
      if PeerComplete(peer, trees) && AfterRounds(full, have, now, roots, k) {
        forall h | h in objs
          ensures h in peer
        {
          MissingIsNext(full, have, now, roots, k, h);
        }
        RoundLinks(cx, kind, before, objects, peer, objs);
        RoundAdvances(full, have, now, Now(), roots, k);
      }
    }

    ghost predicate PeerComplete(peer: Objects, trees: seq<Hash>) {
      Closure(Links(cx, kind, peer), Roots(trees)) <= peer.Keys
    }

    /**
      The rounds of fetchGraph and ensureTipObjects. Success means that everything below the
      trees is present; from a peer that holds everything, it comes exactly when no object
      lies behind more than twelve that had to be fetched.
     */
    method FetchAll(peer: Objects, trees: seq<Hash>) returns (r: Result<nat>)
      requires Valid() && Grounded(cx, peer, rank) && Sound(cx, kind, peer) && SameContent(objects, peer)
      requires forall t :: t in trees && t != NIL ==> kind(t) == Directory
      modifies this
      ensures Valid() && Fetched(old(objects), objects, peer)
      ensures r.Ok? ==> Closure(Now(), Roots(trees)) <= objects.Keys
      ensures PeerComplete(peer, trees) ==> (r.Ok? <==> Shallow(Links(cx, kind, peer), old(objects).Keys, Roots(trees)))
    {
      ghost var full, roots, have := Links(cx, kind, peer), Roots(trees), objects.Keys;
      if PeerComplete(peer, trees) { BeforeRounds(cx, kind, objects, peer, roots); }
      var round, done := 0, false;
      while round < ROUNDS && !done
        invariant Valid() && SameContent(objects, peer) && Fetched(old(objects), objects, peer) && round <= ROUNDS
        invariant done ==> Closure(Now(), roots) <= objects.Keys
        invariant PeerComplete(peer, trees) ==> AfterRounds(full, have, Now(), roots, round)
        decreases ROUNDS - round, !done
      {
        ghost var before := objects;
        var ok;
        ok, done := Round(peer, trees, have, round);
        FetchedOn(old(objects), before, objects, peer);
        if !ok { return Err("peer missing object"); }
        if !done { round := round + 1; }
      }
      var objs := MissingObjects(trees);
      NothingMissing(Now(), roots);
      if PeerComplete(peer, trees) { RoundsDecide(full, have, Now(), roots, round); }
      if objs != [] {
        assert objs[0] in objs;
        return Err("objects still missing");
      }
      return Ok(round);
    }
  }

  /** Content addressing: two stores hold the same bytes at every address they share. */
  ghost predicate SameContent(o: Objects, peer: Objects) {
    forall h :: h in o && h in peer ==> o[h] == peer[h]
  }

  /** The store grew, by the peer's objects. */
  ghost predicate Fetched(before: Objects, after: Objects, peer: Objects) {
    && (forall h :: h in before ==> h in after && after[h] == before[h])
    && (forall h :: h in after && h !in before ==> h in peer && after[h] == peer[h])
  }

  lemma FetchedOn(a: Objects, b: Objects, c: Objects, peer: Objects)
    requires Fetched(a, b, peer) && Fetched(b, c, peer)
    ensures Fetched(a, c, peer)
  {
  }

  lemma {:induction false} CostCovers(links: map<Hash, set<Hash>>, have: set<Hash>, roots: set<Hash>, h: Hash, n: nat,
                                      c: int)
    requires Path(links, have, roots, h, n, c)
    ensures c >= Cost(have, h)
    decreases n
  {
    if n > 0 {
      var p :| p in links && h in links[p] && Path(links, have, roots, p, n - 1, c - Cost(have, h));
      CostCovers(links, have, roots, p, n - 1, c - Cost(have, h));
    }
  }

  lemma BeforeRounds(cx: Codec, kind: Hash -> Kind, o: Objects, peer: Objects, roots: set<Hash>)
    requires SameContent(o, peer) && Closure(Links(cx, kind, peer), roots) <= peer.Keys
    ensures AfterRounds(Links(cx, kind, peer), o.Keys, Links(cx, kind, o), roots, 0)
  {
    var full := Links(cx, kind, peer);
    forall h | h in Closure(full, roots) && Cheap(full, o.Keys, roots, h, 0)
      ensures h in o
    {
      var n: nat, c: int :| c <= 0 && Path(full, o.Keys, roots, h, n, c);
      CostCovers(full, o.Keys, roots, h, n, c);
    }
  }

  /** A round's links: those there were, and the peer's for what was fetched. */
  lemma RoundLinks(cx: Codec, kind: Hash -> Kind, before: Objects, after: Objects, peer: Objects, objs: seq<Hash>)
    requires forall h :: h in before ==> h in after && after[h] == before[h]
    requires forall h :: h in after && h !in before ==> h in objs && h in peer && after[h] == peer[h]
    requires forall h :: h in objs ==> h in after
    ensures var now, next, full := Links(cx, kind, before), Links(cx, kind, after), Links(cx, kind, peer);
      && (forall h :: h in next <==> h in now || h in objs)
      && (forall h :: h in next ==> next[h] == if h in now then now[h] else if h in full then full[h] else {})
  {
  }

  /** When the rounds end, whether something is still missing is settled by the depth of the links. */
  lemma RoundsDecide(full: map<Hash, set<Hash>>, have: set<Hash>, now: map<Hash, set<Hash>>, roots: set<Hash>, k: nat)
    requires AfterRounds(full, have, now, roots, k) && k <= ROUNDS && (k == ROUNDS || Closure(now, roots) <= now.Keys)
    ensures Closure(now, roots) <= now.Keys <==> Shallow(full, have, roots)
  {
    ClosureMatches(full, have, now, roots, k);
    if Closure(full, roots) <= now.Keys {
      forall h | h in Closure(full, roots)
        ensures h in have || Cheap(full, have, roots, h, ROUNDS)
      {
        assert h in now;
        if Cheap(full, have, roots, h, k) {
          var n: nat, c: int :| c <= k && Path(full, have, roots, h, n, c);
        }
      }
    } else {
      var h :| h in Closure(full, roots) && h !in now;
    }
  }
}
