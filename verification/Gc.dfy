/**
  Health check and collection of the object store (internal/gitcompat/gitcompat.go): Fsck
  visits everything reachable from the recorded tips, GC deletes everything else.
*/
module Gc {
  import opened Dag
  import opened DagWalk

  type Raw = string

  type Objects = map<Hash, Raw>

  /** An entry of a tree object. */
  datatype Entry = Entry(hash: Hash, isDir: bool, chunked: bool)

  /** How stored bytes read as commits, trees and chunk manifests, and where they are addressed. */
  datatype Codec = Codec(asCommit: Raw -> Option<Commit>, asTree: Raw -> Option<seq<Entry>>,
                         asManifest: Raw -> Option<seq<Hash>>,
                         blobAddr: Raw -> Hash, treeAddr: Raw -> Hash, commitAddr: Raw -> Hash)

  /** A whole-object read stops one byte after this size, without an error. */
  const READ_CAP: nat := 67_108_864

  /** What a capped read returns: all the bytes, or the front of a larger object. */
  function Front(r: Raw): (f: Raw)
    ensures |f| <= READ_CAP + 1 && (|r| <= READ_CAP + 1 <==> f == r)
  {
    if |r| > READ_CAP + 1 then r[..READ_CAP + 1] else r
  }

  // ---------- What is reachable ----------

  function GraphOf(cx: Codec, o: Objects): Graph {
    map h | h in o && cx.asCommit(o[h]).Some? :: cx.asCommit(o[h]).value
  }

  function Entries(cx: Codec, o: Objects, h: Hash): seq<Entry> {
    if h in o && cx.asTree(o[h]).Some? then cx.asTree(o[h]).value else []
  }

  function Chunks(cx: Codec, o: Objects, h: Hash): seq<Hash> {
    if h in o && cx.asManifest(o[h]).Some? then cx.asManifest(o[h]).value else []
  }

  /** Subdirectories rank below their directories: content addresses admit no cycles. */
  ghost predicate Grounded(cx: Codec, o: Objects, rank: Hash -> nat) {
    forall h, e :: h in o && e in Entries(cx, o, h) && e.isDir ==> rank(e.hash) < rank(h)
  }

  ghost function FileHashes(cx: Codec, o: Objects, e: Entry): set<Hash> {
    {e.hash} + if e.chunked then Elems(Chunks(cx, o, e.hash)) else {}
  }

  /** A tree and everything below it. */
  ghost function TreeHashes(cx: Codec, o: Objects, rank: Hash -> nat, h: Hash): set<Hash>
    requires Grounded(cx, o, rank)
    decreases rank(h), 1
  {
    {h} + (set e, x | e in Entries(cx, o, h) && x in EntryHashes(cx, o, rank, h, e) :: x)
  }

  ghost function EntryHashes(cx: Codec, o: Objects, rank: Hash -> nat, h: Hash, e: Entry): set<Hash>
    requires Grounded(cx, o, rank) && e in Entries(cx, o, h)
    decreases rank(h), 0
  {
    if e.isDir then TreeHashes(cx, o, rank, e.hash) else FileHashes(cx, o, e)
  }

  ghost function LiveCommits(g: Graph, roots: seq<Hash>): set<Hash> {
    set r, h | r in roots && h in Anc(g, r) :: h
  }

  /** A commit with everything below its tree. */
  ghost function CommitHashes(cx: Codec, o: Objects, rank: Hash -> nat, c: Hash): set<Hash>
    requires Grounded(cx, o, rank)
  {
    {c} + if c in GraphOf(cx, o) then TreeHashes(cx, o, rank, GraphOf(cx, o)[c].tree) else {}
  }

  ghost function AllHashes(cx: Codec, o: Objects, rank: Hash -> nat, commits: set<Hash>): set<Hash>
    requires Grounded(cx, o, rank)
  {
    set c, x | c in commits && x in CommitHashes(cx, o, rank, c) :: x
  }

  /** Everything reachable from the tips, missing objects included. */
  ghost function Live(cx: Codec, o: Objects, rank: Hash -> nat, roots: seq<Hash>): set<Hash>
    requires Grounded(cx, o, rank)
  {
    AllHashes(cx, o, rank, LiveCommits(GraphOf(cx, o), roots))
  }

  /**
    The content addresses of what is read of reachable objects: where labelled trees and
    commits are stored a second time, and, for an object above the cap, where its front is.
   */
  ghost function Twins(cx: Codec, o: Objects, s: set<Hash>): set<Hash> {
    set h | h in s && h in o :: cx.blobAddr(Front(o[h]))
  }

  ghost function Kept(cx: Codec, o: Objects, rank: Hash -> nat, roots: seq<Hash>): set<Hash>
    requires Grounded(cx, o, rank)
  {
    var live := Live(cx, o, rank, roots);
    live + Twins(cx, o, live)
  }

  function Restrict(o: Objects, s: set<Hash>): Objects {
    map h | h in o && h in s :: o[h]
  }

  // ---------- Agreement on what is reachable ----------

  /** Two stores agree at an address: both miss it or both hold the same bytes. */
  predicate SameAt(o: Objects, o': Objects, h: Hash) {
    (h in o <==> h in o') && (h in o ==> o[h] == o'[h])
  }

  ghost predicate Agree(o: Objects, o': Objects, s: set<Hash>) {
    forall h :: h in s ==> SameAt(o, o', h)
  }

  lemma {:induction false} TreeHashesAgree(cx: Codec, o: Objects, o': Objects, rank: Hash -> nat, h: Hash)
    requires Grounded(cx, o, rank) && Grounded(cx, o', rank) && Agree(o, o', TreeHashes(cx, o, rank, h))
    ensures TreeHashes(cx, o', rank, h) == TreeHashes(cx, o, rank, h)
    decreases rank(h)
  {
    assert SameAt(o, o', h);
    forall e | e in Entries(cx, o, h)
      ensures EntryHashes(cx, o', rank, h, e) == EntryHashes(cx, o, rank, h, e)
    {
      EntryWithin(cx, o, rank, h, e);
      if e.isDir {
        TreeHashesAgree(cx, o, o', rank, e.hash);
      } else {
        assert e.hash in FileHashes(cx, o, e) && SameAt(o, o', e.hash);
      }
    }
  }

  lemma EntryWithin(cx: Codec, o: Objects, rank: Hash -> nat, h: Hash, e: Entry)
    requires Grounded(cx, o, rank) && e in Entries(cx, o, h)
    ensures EntryHashes(cx, o, rank, h, e) <= TreeHashes(cx, o, rank, h)
  {
  }

  lemma AncAgree(g: Graph, g': Graph, tip: Hash)
    requires forall h :: h in Anc(g, tip) ==> Parents(g, h) == Parents(g', h)
    ensures Anc(g', tip) == Anc(g, tip)
  {
    var both := Anc(g, tip) * Anc(g', tip);
    AncRoom(g, tip);
    AncRoom(g', tip);
    AncLeast(g', tip, Anc(g, tip));
    AncLeast(g, tip, both);
  }

  /** A store that agrees on everything reachable has the same things reachable. */
  lemma LiveAgree(cx: Codec, o: Objects, o': Objects, rank: Hash -> nat, roots: seq<Hash>)
    requires Grounded(cx, o, rank) && Grounded(cx, o', rank) && Agree(o, o', Live(cx, o, rank, roots))
    ensures LiveCommits(GraphOf(cx, o'), roots) == LiveCommits(GraphOf(cx, o), roots)
    ensures Live(cx, o', rank, roots) == Live(cx, o, rank, roots)
  {
    var g, g' := GraphOf(cx, o), GraphOf(cx, o');
    var commits := LiveCommits(g, roots);
    forall c | c in commits
      ensures SameAt(o, o', c) && Parents(g, c) == Parents(g', c)
      ensures CommitHashes(cx, o', rank, c) == CommitHashes(cx, o, rank, c)
    {
      CommitAgrees(cx, o, o', rank, commits, c);
    }
    forall r | r in roots
      ensures Anc(g', r) == Anc(g, r)
    {
      AncAgree(g, g', r);
    }
  }

  lemma CommitAgrees(cx: Codec, o: Objects, o': Objects, rank: Hash -> nat, commits: set<Hash>, c: Hash)
    requires Grounded(cx, o, rank) && Grounded(cx, o', rank) && c in commits
      && Agree(o, o', AllHashes(cx, o, rank, commits))
    ensures SameAt(o, o', c) && Parents(GraphOf(cx, o), c) == Parents(GraphOf(cx, o'), c)
    ensures CommitHashes(cx, o', rank, c) == CommitHashes(cx, o, rank, c)
  {
    var all := CommitHashes(cx, o, rank, c);
    assert all <= AllHashes(cx, o, rank, commits);
    assert c in all;
    if c in GraphOf(cx, o) {
      TreeHashesAgree(cx, o, o', rank, GraphOf(cx, o)[c].tree);
    }
  }

  /** What is recorded: branch heads, tags, shelves and the old and new tips of every ref log. */
  datatype Refs = Refs(heads: seq<Hash>, tags: seq<Hash>, shelves: seq<Hash>, logs: seq<seq<(Hash, Hash)>>)

  ghost predicate Logged(logs: seq<seq<(Hash, Hash)>>, h: Hash) {
    exists log, entry :: log in logs && entry in log && (h == entry.0 || h == entry.1)
  }

  /** collectRoots: every recorded tip, the all-zero address of unborn branches aside. */
  method CollectRoots(refs: Refs) returns (tips: seq<Hash>)
    ensures forall h :: h in tips <==>
      h in refs.heads || h in refs.tags || h in refs.shelves || (h != NIL && Logged(refs.logs, h))
  {
    tips := refs.heads + refs.tags + refs.shelves;
    ghost var named := tips;
    for i := 0 to |refs.logs|
      invariant forall h :: h in tips <==> h in named || (h != NIL && Logged(refs.logs[..i], h))
    {
      var log := refs.logs[i];
      ghost var before := tips;
      for j := 0 to |log|
        invariant forall h :: h in tips <==> h in before || (h != NIL && Logged([log[..j]], h))
      {
        LoggedMore(log[..j], log[j]);
        assert log[..j + 1] == log[..j] + [log[j]];
        if log[j].0 != NIL { tips := tips + [log[j].0]; }
        if log[j].1 != NIL { tips := tips + [log[j].1]; }
      }
      assert log[..|log|] == log;
      assert refs.logs[..i + 1] == refs.logs[..i] + [log];
      LoggedJoin(refs.logs[..i], log);
    }
    assert refs.logs[..|refs.logs|] == refs.logs;
  }

  lemma LoggedMore(log: seq<(Hash, Hash)>, entry: (Hash, Hash))
    ensures forall h :: Logged([log + [entry]], h) <==> Logged([log], h) || h == entry.0 || h == entry.1
  {
    forall h
      ensures Logged([log + [entry]], h) <==> Logged([log], h) || h == entry.0 || h == entry.1
    {
      LoggedJoinAt([], log + [entry], h);
      LoggedJoinAt([], log, h);
      assert [] + [log + [entry]] == [log + [entry]] && [] + [log] == [log];
      assert forall e :: e in log + [entry] <==> e in log || e == entry;
    }
  }

  lemma LoggedJoin(logs: seq<seq<(Hash, Hash)>>, log: seq<(Hash, Hash)>)
    ensures forall h :: Logged(logs + [log], h) <==> Logged(logs, h) || Logged([log], h)
  {
    forall h
      ensures Logged(logs + [log], h) <==> Logged(logs, h) || Logged([log], h)
    {
      LoggedJoinAt(logs, log, h);
      LoggedJoinAt([], log, h);
      assert [] + [log] == [log];
    }
  }

  lemma LoggedJoinAt(logs: seq<seq<(Hash, Hash)>>, log: seq<(Hash, Hash)>, h: Hash)
    ensures Logged(logs + [log], h) <==>
      Logged(logs, h) || exists entry :: entry in log && (h == entry.0 || h == entry.1)
  {
    assert forall l :: l in logs + [log] <==> l in logs || l == log;
    if exists entry :: entry in log && (h == entry.0 || h == entry.1) {
      var entry :| entry in log && (h == entry.0 || h == entry.1);
      assert log in logs + [log];
    }
  }

  // ---------- What a collection leaves ----------

  /** What collection leaves holds everything reachable, and the same things are reachable afterwards. */
  lemma CollectionSafe(cx: Codec, o: Objects, rank: Hash -> nat, roots: seq<Hash>)
    requires Grounded(cx, o, rank)
    ensures var o' := Restrict(o, Kept(cx, o, rank, roots));
            Grounded(cx, o', rank) && Agree(o, o', Live(cx, o, rank, roots))
              && Live(cx, o', rank, roots) == Live(cx, o, rank, roots)
  {
    var o' := Restrict(o, Kept(cx, o, rank, roots));
    assert forall h :: h in o' ==> Entries(cx, o', h) == Entries(cx, o, h);
    LiveAgree(cx, o, o', rank, roots);
  }

  /** `h` is the content address of something reachable within the read cap. */
  ghost predicate IsTwin(cx: Codec, o: Objects, live: set<Hash>, h: Hash) {
    exists x :: x in live && x in o && |o[x]| <= READ_CAP + 1 && h == cx.blobAddr(o[x])
  }

  /** `h` holds the front of a reachable object above the cap, and the bytes of no reachable object. */
  ghost predicate IsStrayFront(o: Objects, live: set<Hash>, h: Hash) {
    && h in o && (exists x :: x in live && x in o && |o[x]| > READ_CAP + 1 && o[h] == o[x][..READ_CAP + 1])
    && (forall y :: y in live && y in o ==> o[y] != o[h])
  }

  /**
    What is left is reachable, or the content twin of something reachable, or the front of a
    reachable object above the read cap, and the third kind is left exactly where an
    unreachable blob holds such a front.
   */
  lemma LeftIsLiveOrTwin(cx: Codec, o: Objects, rank: Hash -> nat, roots: seq<Hash>, h: Hash)
    requires Grounded(cx, o, rank) && Addressed(cx, o)
    ensures var live := Live(cx, o, rank, roots);
      h in Restrict(o, Kept(cx, o, rank, roots)) <==>
        h in o && (h in live || IsTwin(cx, o, live, h) || (h == cx.blobAddr(o[h]) && IsStrayFront(o, live, h)))
    ensures var live := Live(cx, o, rank, roots);
      h in Restrict(o, Kept(cx, o, rank, roots)) && h !in live && !IsTwin(cx, o, live, h) <==>
        h in o && h !in live && h == cx.blobAddr(o[h]) && IsStrayFront(o, live, h)
  {
    if h in o {
      StoredTwins(cx, o, Live(cx, o, rank, roots), h);
      StrayIsNoTwin(cx, o, Live(cx, o, rank, roots), h);
    }
  }

  lemma StoredTwins(cx: Codec, o: Objects, live: set<Hash>, h: Hash)
    requires Addressed(cx, o) && h in o
    ensures h in Twins(cx, o, live) <==> IsTwin(cx, o, live, h) || (h == cx.blobAddr(o[h]) && IsStrayFront(o, live, h))
  {
    if h in Twins(cx, o, live) {
      var x :| x in live && x in o && h == cx.blobAddr(Front(o[x]));
      assert o[h] == Front(o[x]);
      if y :| y in live && y in o && o[y] == o[h] {
        assert IsTwin(cx, o, live, h);
      }
    }
    if h == cx.blobAddr(o[h]) && IsStrayFront(o, live, h) {
      var x :| x in live && x in o && |o[x]| > READ_CAP + 1 && o[h] == o[x][..READ_CAP + 1];
      assert Front(o[x]) == o[h];
    }
  }

  lemma StrayIsNoTwin(cx: Codec, o: Objects, live: set<Hash>, h: Hash)
    requires Addressed(cx, o) && h in o
    ensures IsTwin(cx, o, live, h) ==> !IsStrayFront(o, live, h)
  {
  }

  /** A second collection removes nothing. */
  lemma SecondCollection(cx: Codec, o: Objects, rank: Hash -> nat, roots: seq<Hash>)
    requires Grounded(cx, o, rank)
    ensures var o' := Restrict(o, Kept(cx, o, rank, roots));
            Grounded(cx, o', rank) && Kept(cx, o', rank, roots) == Kept(cx, o, rank, roots)
              && Restrict(o', Kept(cx, o', rank, roots)) == o'
  {
    SameKept(cx, o, rank, roots);
    assert Restrict(Restrict(o, Kept(cx, o, rank, roots)), Kept(cx, o, rank, roots)) ==
      Restrict(o, Kept(cx, o, rank, roots));
  }

  lemma SameKept(cx: Codec, o: Objects, rank: Hash -> nat, roots: seq<Hash>)
    requires Grounded(cx, o, rank)
    ensures Grounded(cx, Restrict(o, Kept(cx, o, rank, roots)), rank)
    ensures Kept(cx, Restrict(o, Kept(cx, o, rank, roots)), rank, roots) == Kept(cx, o, rank, roots)
  {
    CollectionSafe(cx, o, rank, roots);
    TwinsAgree(cx, o, Restrict(o, Kept(cx, o, rank, roots)), Live(cx, o, rank, roots));
  }

  lemma TwinsAgree(cx: Codec, o: Objects, o': Objects, live: set<Hash>)
    requires Agree(o, o', live)
    ensures Twins(cx, o', live) == Twins(cx, o, live)
  {
    assert forall h :: h in live ==> SameAt(o, o', h);
  }

  // ---------- A store in which a third kind is left ----------

  /** Distinct addresses for all texts, three domains apart. */
  function Spelled(s: string): nat {
    if s == "" then 0 else 1 + s[0] as int + 0x11_0000 * Spelled(s[1..])
  }

  lemma {:induction false} SpelledApart(s: string, t: string)
    requires Spelled(s) == Spelled(t)
    ensures s == t
  {
    if s != "" && t != "" {
      assert s[0] as int < 0x11_0000 && t[0] as int < 0x11_0000;
      SpelledApart(s[1..], t[1..]);
      assert s == [s[0]] + s[1..] && t == [t[0]] + t[1..];
    }
  }

  function BlobAt(r: Raw): Hash { 3 * Spelled(r) + 1 }
  function TreeIs(r: Raw): Hash { 3 * Spelled(r) + 2 }
  function CommitIs(r: Raw): Hash { 3 * Spelled(r) + 3 }

  function Fill(n: nat): (r: Raw)
    ensures |r| == n
  {
    seq(n, i => 'x')
  }

  /** One commit, whose tree lists one file of two bytes more than the cap. */
  function LargeCodec(c: Commit): Codec {
    Codec(r => if r == "c" then Some(c) else None,
          r => if r == "t" then Some([Entry(BlobAt(Fill(READ_CAP + 2)), false, false)]) else None,
          r => None, BlobAt, TreeIs, CommitIs)
  }

  /** Beside them, an unreachable blob with the first bytes of that file. */
  function LargeStore(): Objects {
    map[CommitIs("c") := "c", TreeIs("t") := "t", BlobAt(Fill(READ_CAP + 2)) := Fill(READ_CAP + 2),
        BlobAt(Fill(READ_CAP + 1)) := Fill(READ_CAP + 1)]
  }

  function Unranked(h: Hash): nat { 0 }

  lemma AddressesApart(r: Raw, q: Raw)
    ensures BlobAt(r) != TreeIs(q) && BlobAt(r) != CommitIs(q) && TreeIs(r) != CommitIs(q)
    ensures BlobAt(r) == BlobAt(q) ==> r == q
  {
    if BlobAt(r) == BlobAt(q) { SpelledApart(r, q); }
  }

  /** What a tip reaches whose tree lists one whole file. */
  lemma OneFileLive(cx: Codec, o: Objects, rank: Hash -> nat, tip: Hash, b: Hash)
    requires Grounded(cx, o, rank) && tip in GraphOf(cx, o) && GraphOf(cx, o)[tip].parents == []
    requires Entries(cx, o, GraphOf(cx, o)[tip].tree) == [Entry(b, false, false)]
    ensures Live(cx, o, rank, [tip]) == {tip, GraphOf(cx, o)[tip].tree, b}
  {
    var g, t, e := GraphOf(cx, o), GraphOf(cx, o)[tip].tree, Entry(b, false, false);
    AncLeast(g, tip, {tip});
    AncSelf(g, tip);
    assert LiveCommits(g, [tip]) == {tip};
    assert Entries(cx, o, t)[0] == e;
    assert EntryHashes(cx, o, rank, t, e) == {b};
    assert TreeHashes(cx, o, rank, t) == {t, b};
    assert CommitHashes(cx, o, rank, tip) == {tip, t, b};
  }

  lemma LargeAddressed(c: Commit)
    ensures Addressed(LargeCodec(c), LargeStore())
  {
    AllApart();
    LargeStoreHolds();
    LargeSelfAddressed(LargeStore());
  }

  lemma AllApart()
    ensures forall r, q :: BlobAt(r) == BlobAt(q) ==> r == q
    ensures forall r, q :: BlobAt(r) != TreeIs(q) && BlobAt(r) != CommitIs(q)
  {
    forall r, q
      ensures BlobAt(r) != TreeIs(q) && BlobAt(r) != CommitIs(q) && (BlobAt(r) == BlobAt(q) ==> r == q)
    {
      AddressesApart(r, q);
    }
  }

  lemma LargeSelfAddressed(o: Objects)
    requires var big, front := Fill(READ_CAP + 2), Fill(READ_CAP + 1);
      && o.Keys == {CommitIs("c"), TreeIs("t"), BlobAt(big), BlobAt(front)}
      && o[CommitIs("c")] == "c" && o[TreeIs("t")] == "t" && o[BlobAt(big)] == big && o[BlobAt(front)] == front
    ensures forall h :: h in o ==> h == BlobAt(o[h]) || h == TreeIs(o[h]) || h == CommitIs(o[h])
  {
  }

  lemma LargeReads(c: Commit)
    requires c.tree == TreeIs("t") && c.parents == []
    ensures Grounded(LargeCodec(c), LargeStore(), Unranked)
    ensures Entries(LargeCodec(c), LargeStore(), TreeIs("t")) == [Entry(BlobAt(Fill(READ_CAP + 2)), false, false)]
    ensures CommitIs("c") in GraphOf(LargeCodec(c), LargeStore())
      && GraphOf(LargeCodec(c), LargeStore())[CommitIs("c")] == c
  {
    LargeStoreHolds();
    assert forall r, e :: LargeCodec(c).asTree(r).Some? && e in LargeCodec(c).asTree(r).value ==> !e.isDir;
  }

  lemma LargeStoreHolds()
    ensures var o, big, front := LargeStore(), Fill(READ_CAP + 2), Fill(READ_CAP + 1);
      && CommitIs("c") in o && o[CommitIs("c")] == "c" && TreeIs("t") in o && o[TreeIs("t")] == "t"
      && BlobAt(big) in o && o[BlobAt(big)] == big && BlobAt(front) in o && o[BlobAt(front)] == front
      && BlobAt(front) !in {CommitIs("c"), TreeIs("t"), BlobAt(big)}
  {
    var big, front := Fill(READ_CAP + 2), Fill(READ_CAP + 1);
    AddressesApart(big, front);
    AddressesApart(big, "c");
    AddressesApart(front, "c");
    AddressesApart(big, "t");
    AddressesApart(front, "t");
    AddressesApart("t", "c");
  }

  /** After a collection the blob is still there, neither reachable nor the twin of anything reachable. */
  lemma StrayFrontIsLeft(c: Commit)
    requires c.tree == TreeIs("t") && c.parents == []
    ensures Grounded(LargeCodec(c), LargeStore(), Unranked) && Addressed(LargeCodec(c), LargeStore())
    ensures var h, live := BlobAt(Fill(READ_CAP + 1)), Live(LargeCodec(c), LargeStore(), Unranked, [CommitIs("c")]);
      && h in Restrict(LargeStore(), Kept(LargeCodec(c), LargeStore(), Unranked, [CommitIs("c")]))
      && h !in live && !IsTwin(LargeCodec(c), LargeStore(), live, h)
  {
    var cx, o, h := LargeCodec(c), LargeStore(), BlobAt(Fill(READ_CAP + 1));
    LargeAddressed(c);
    LargeReads(c);
    LargeStoreHolds();
    OneFileLive(cx, o, Unranked, CommitIs("c"), BlobAt(Fill(READ_CAP + 2)));
    StrayAmong(o, Live(cx, o, Unranked, [CommitIs("c")]));
    LeftIsLiveOrTwin(cx, o, Unranked, [CommitIs("c")], h);
  }

  lemma StrayAmong(o: Objects, live: set<Hash>)
    requires o == LargeStore() && live == {CommitIs("c"), TreeIs("t"), BlobAt(Fill(READ_CAP + 2))}
    ensures IsStrayFront(o, live, BlobAt(Fill(READ_CAP + 1)))
  {
    LargeStoreHolds();
    var big := Fill(READ_CAP + 2);
    assert BlobAt(big) in live && |o[BlobAt(big)]| > READ_CAP + 1;
    assert big[..READ_CAP + 1] == Fill(READ_CAP + 1);
  }

  // ---------- Fsck ----------

  datatype Problem = NoCommit(h: Hash) | BadCommit(h: Hash) | NoTree(h: Hash) | BadTree(h: Hash)
                   | NoBlob(h: Hash) | BadManifest(h: Hash) | NoChunk(h: Hash)

  /**
    The counters of a check, and what it has visited. The report lists problems sorted, so
    their order is immaterial.
   */
  datatype Health = Health(seen: set<Hash>, commits: nat, trees: nat, blobs: nat, chunks: nat, manifests: nat,
                           missing: multiset<Problem>, bytes: nat)

  function Visited(st: Health, h: Hash): Health {
    st.(seen := st.seen + {h})
  }

  function Lost(st: Health, p: Problem): Health {
    st.(missing := st.missing + multiset{p})
  }

  function CheckChunks(cx: Codec, o: Objects, cs: seq<Hash>, st: Health): (r: Health)
    ensures st.seen <= r.seen
  {
    if cs == [] then st
    else
      CheckChunks(cx, o, cs[1..], CheckChunk(o, cs[0], st))
  }

  function CheckChunk(o: Objects, c: Hash, st: Health): (r: Health)
    ensures st.seen <= r.seen
  {
    if c in st.seen then st
    else if c !in o then Lost(Visited(st, c), NoChunk(c))
    else Visited(st, c).(bytes := st.bytes + |o[c]|, chunks := st.chunks + 1)
  }

  /** How a file's own use is counted, before any chunks. */
  function FileOnly(cx: Codec, o: Objects, e: Entry, st: Health): Health {
    var h := e.hash;
    if h !in o then Lost(Visited(st, h), NoBlob(h))
    else
      var st1 := Visited(st, h).(bytes := st.bytes + |o[h]|);
      if !e.chunked then st1.(blobs := st1.blobs + 1)
      else
        var st2 := st1.(manifests := st1.manifests + 1);
        if cx.asManifest(o[h]).Some? then st2 else Lost(st2, BadManifest(h))
  }

  function CheckFile(cx: Codec, o: Objects, e: Entry, st: Health): (r: Health)
    ensures st.seen <= r.seen
  {
    if e.hash in st.seen then st
    else if e.chunked then CheckChunks(cx, o, Chunks(cx, o, e.hash), FileOnly(cx, o, e, st))
    else FileOnly(cx, o, e, st)
  }

  function TreeFound(st: Health, h: Hash, size: nat): Health {
    Visited(st, h).(bytes := st.bytes + size, trees := st.trees + 1)
  }

  ghost function CheckTree(cx: Codec, o: Objects, rank: Hash -> nat, h: Hash, st: Health): (r: Health)
    requires Grounded(cx, o, rank)
    ensures st.seen <= r.seen
    decreases rank(h), 1, 0
  {
    if h in st.seen then st
    else if h !in o then Lost(Visited(st, h), NoTree(h))
    else
      var st1 := TreeFound(st, h, |o[h]|);
      if cx.asTree(o[h]).Some? then CheckEntries(cx, o, rank, h, Entries(cx, o, h), st1) else Lost(st1, BadTree(h))
  }

  ghost function CheckEntries(cx: Codec, o: Objects, rank: Hash -> nat, h: Hash, es: seq<Entry>,
                              st: Health): (r: Health)
    requires Grounded(cx, o, rank) && forall e :: e in es ==> e in Entries(cx, o, h)
    ensures st.seen <= r.seen
    decreases rank(h), 0, |es|
  {
    if es == [] then st
    else
      CheckEntries(cx, o, rank, h, es[1..], CheckEntry(cx, o, rank, h, es[0], st))
  }

  ghost function CheckEntry(cx: Codec, o: Objects, rank: Hash -> nat, h: Hash, e: Entry, st: Health): (r: Health)
    requires Grounded(cx, o, rank) && e in Entries(cx, o, h)
    ensures st.seen <= r.seen
    decreases rank(h), 0, 0
  {
    if e.isDir then CheckTree(cx, o, rank, e.hash, st) else CheckFile(cx, o, e, st)
  }

  function CommitFound(st: Health, h: Hash, size: nat): Health {
    Visited(st, h).(bytes := st.bytes + size, commits := st.commits + 1)
  }

  /** One commit of the walk, not seen before. */
  ghost function CheckCommit(cx: Codec, o: Objects, rank: Hash -> nat, h: Hash, st: Health): (r: Health)
    requires Grounded(cx, o, rank)
    ensures st.seen + {h} <= r.seen
  {
    if h !in o then Lost(Visited(st, h), NoCommit(h))
    else
      var st1 := CommitFound(st, h, |o[h]|);
      if cx.asCommit(o[h]).Some? then CheckTree(cx, o, rank, cx.asCommit(o[h]).value.tree, st1)
        else Lost(st1, BadCommit(h))
  }

  /** The walk over commits, from a stack, inside a set closed under parents. */
  ghost function CheckWalk(cx: Codec, o: Objects, rank: Hash -> nat, all: set<Hash>, stack: seq<Hash>,
                           st: Health): Health
    requires Grounded(cx, o, rank) && Closed(GraphOf(cx, o), all) && Elems(stack) <= all
    decreases all - st.seen, |stack|
  {
    if stack == [] then st
    else
      var h, rest := stack[|stack| - 1], stack[..|stack| - 1];
      assert h in Elems(stack);
      if h in st.seen then CheckWalk(cx, o, rank, all, rest, st)
      else
        var more := Parents(GraphOf(cx, o), h);
        assert forall p :: p in more ==> p in all;
        CheckWalk(cx, o, rank, all, rest + more, CheckCommit(cx, o, rank, h, st))
  }

  const START: Health := Health({}, 0, 0, 0, 0, 0, multiset{}, 0)

  /** The report of Fsck. */
  ghost function Report(cx: Codec, o: Objects, rank: Hash -> nat, roots: seq<Hash>): Health
    requires Grounded(cx, o, rank)
  {
    RootsInside(GraphOf(cx, o), roots);
    CheckWalk(cx, o, rank, LiveCommits(GraphOf(cx, o), roots), roots, START)
  }

  lemma RootsInside(g: Graph, roots: seq<Hash>)
    ensures Closed(g, LiveCommits(g, roots)) && Elems(roots) <= LiveCommits(g, roots)
  {
    forall r | r in roots
      ensures Closed(g, Anc(g, r)) && r in Anc(g, r)
    {
      AncRoom(g, r);
    }
    forall h, p | h in LiveCommits(g, roots) && p in Parents(g, h)
      ensures p in LiveCommits(g, roots)
    {
      var r :| r in roots && h in Anc(g, r);
      assert p in Anc(g, r);
    }
  }

  lemma {:induction false} ChunksAgree(cx: Codec, o: Objects, o': Objects, cs: seq<Hash>, st: Health)
    requires Agree(o, o', Elems(cs))
    ensures CheckChunks(cx, o', cs, st) == CheckChunks(cx, o, cs, st)
    decreases |cs|
  {
    if cs != [] {
      ChunkAgrees(o, o', cs, st);
      ChunksAgree(cx, o, o', cs[1..], CheckChunk(o, cs[0], st));
    }
  }

  lemma ChunkAgrees(o: Objects, o': Objects, cs: seq<Hash>, st: Health)
    requires cs != [] && Agree(o, o', Elems(cs))
    ensures CheckChunk(o', cs[0], st) == CheckChunk(o, cs[0], st) && Agree(o, o', Elems(cs[1..]))
  {
    assert cs[0] in Elems(cs) && SameAt(o, o', cs[0]);
    assert Elems(cs[1..]) <= Elems(cs);
  }

  lemma FileAgrees(cx: Codec, o: Objects, o': Objects, e: Entry, st: Health)
    requires Agree(o, o', FileHashes(cx, o, e))
    ensures CheckFile(cx, o', e, st) == CheckFile(cx, o, e, st)
  {
    var h := e.hash;
    assert h in FileHashes(cx, o, e) && SameAt(o, o', h);
    if e.chunked {
      ChunksAgree(cx, o, o', Chunks(cx, o, h), FileOnly(cx, o, e, st));
    }
  }

  lemma {:induction false} TreeAgrees(cx: Codec, o: Objects, o': Objects, rank: Hash -> nat, h: Hash, st: Health)
    requires Grounded(cx, o, rank) && Grounded(cx, o', rank) && Agree(o, o', TreeHashes(cx, o, rank, h))
    ensures CheckTree(cx, o', rank, h, st) == CheckTree(cx, o, rank, h, st)
    decreases rank(h), 1, 0
  {
    assert SameAt(o, o', h);
    if h in o {
      assert Entries(cx, o', h) == Entries(cx, o, h);
      EntriesAgree(cx, o, o', rank, h, Entries(cx, o, h), TreeFound(st, h, |o[h]|));
    }
  }

  lemma {:induction false} EntriesAgree(cx: Codec, o: Objects, o': Objects, rank: Hash -> nat, h: Hash,
                                        es: seq<Entry>, st: Health)
    requires Grounded(cx, o, rank) && Grounded(cx, o', rank) && Agree(o, o', TreeHashes(cx, o, rank, h))
    requires forall e :: e in es ==> e in Entries(cx, o, h) && e in Entries(cx, o', h)
    ensures CheckEntries(cx, o', rank, h, es, st) == CheckEntries(cx, o, rank, h, es, st)
    decreases rank(h), 0, |es|
  {
    if es != [] {
      var e := es[0];
      EntryWithin(cx, o, rank, h, e);
      if e.isDir {
        TreeAgrees(cx, o, o', rank, e.hash, st);
      } else {
        FileAgrees(cx, o, o', e, st);
      }
      EntriesAgree(cx, o, o', rank, h, es[1..], CheckEntry(cx, o, rank, h, e, st));
    }
  }

  lemma {:induction false} WalkAgrees(cx: Codec, o: Objects, o': Objects, rank: Hash -> nat, all: set<Hash>,
                                      stack: seq<Hash>, st: Health)
    requires Grounded(cx, o, rank) && Grounded(cx, o', rank) && Agree(o, o', AllHashes(cx, o, rank, all))
    requires Closed(GraphOf(cx, o), all) && Closed(GraphOf(cx, o'), all) && Elems(stack) <= all
    ensures CheckWalk(cx, o', rank, all, stack, st) == CheckWalk(cx, o, rank, all, stack, st)
    decreases all - st.seen, |stack|
  {
    if stack != [] {
      var h, rest := stack[|stack| - 1], stack[..|stack| - 1];
      assert h in Elems(stack);
      CommitAgrees(cx, o, o', rank, all, h);
      if h in st.seen {
        WalkAgrees(cx, o, o', rank, all, rest, st);
      } else {
        CheckCommitAgrees(cx, o, o', rank, all, h, st);
        var more := Parents(GraphOf(cx, o), h);
        assert forall p :: p in more ==> p in all;
        WalkAgrees(cx, o, o', rank, all, rest + more, CheckCommit(cx, o, rank, h, st));
      }
    }
  }

  lemma CheckCommitAgrees(cx: Codec, o: Objects, o': Objects, rank: Hash -> nat, all: set<Hash>, h: Hash, st: Health)
    requires Grounded(cx, o, rank) && Grounded(cx, o', rank) && h in all && Agree(o, o', AllHashes(cx, o, rank, all))
    ensures CheckCommit(cx, o', rank, h, st) == CheckCommit(cx, o, rank, h, st)
  {
    CommitAgrees(cx, o, o', rank, all, h);
    if h in GraphOf(cx, o) {
      CommitTreeWithin(cx, o, o', rank, all, h);
      TreeAgrees(cx, o, o', rank, GraphOf(cx, o)[h].tree, CommitFound(st, h, |o[h]|));
    }
  }

  lemma CommitTreeWithin(cx: Codec, o: Objects, o': Objects, rank: Hash -> nat, all: set<Hash>, h: Hash)
    requires Grounded(cx, o, rank) && h in all && h in GraphOf(cx, o) && Agree(o, o', AllHashes(cx, o, rank, all))
    ensures Agree(o, o', TreeHashes(cx, o, rank, GraphOf(cx, o)[h].tree))
  {
    assert TreeHashes(cx, o, rank, GraphOf(cx, o)[h].tree) <= CommitHashes(cx, o, rank, h);
    assert CommitHashes(cx, o, rank, h) <= AllHashes(cx, o, rank, all);
  }

  /** Fsck gives the same report before and after a collection. */
  lemma FsckUnmoved(cx: Codec, o: Objects, rank: Hash -> nat, roots: seq<Hash>)
    requires Grounded(cx, o, rank)
    ensures var o' := Restrict(o, Kept(cx, o, rank, roots));
            Grounded(cx, o', rank) && Report(cx, o', rank, roots) == Report(cx, o, rank, roots)
  {
    var o' := Restrict(o, Kept(cx, o, rank, roots));
    CollectionSafe(cx, o, rank, roots);
    LiveAgree(cx, o, o', rank, roots);
    RootsInside(GraphOf(cx, o), roots);
    RootsInside(GraphOf(cx, o'), roots);
    WalkAgrees(cx, o, o', rank, LiveCommits(GraphOf(cx, o), roots), roots, START);
  }

  // ---------- What a report means ----------

  /** As what the check meets an address. */
  datatype Role = AsCommit | AsTree | AsManifest | AsData

  datatype Use = Use(h: Hash, role: Role)

  ghost function DataUses(cs: seq<Hash>): set<Use> {
    set c | c in cs :: Use(c, AsData)
  }

  ghost function FileUses(cx: Codec, o: Objects, e: Entry): set<Use> {
    if e.chunked then {Use(e.hash, AsManifest)} + DataUses(Chunks(cx, o, e.hash)) else {Use(e.hash, AsData)}
  }

  ghost function TreeUses(cx: Codec, o: Objects, rank: Hash -> nat, h: Hash): set<Use>
    requires Grounded(cx, o, rank)
    decreases rank(h), 1
  {
    {Use(h, AsTree)} + (set e, u | e in Entries(cx, o, h) && u in EntryUses(cx, o, rank, h, e) :: u)
  }

  ghost function EntryUses(cx: Codec, o: Objects, rank: Hash -> nat, h: Hash, e: Entry): set<Use>
    requires Grounded(cx, o, rank) && e in Entries(cx, o, h)
    decreases rank(h), 0
  {
    if e.isDir then TreeUses(cx, o, rank, e.hash) else FileUses(cx, o, e)
  }

  ghost function CommitUses(cx: Codec, o: Objects, rank: Hash -> nat, c: Hash): set<Use>
    requires Grounded(cx, o, rank)
  {
    {Use(c, AsCommit)} + if c in GraphOf(cx, o) then TreeUses(cx, o, rank, GraphOf(cx, o)[c].tree) else {}
  }

  ghost function Uses(cx: Codec, o: Objects, rank: Hash -> nat, commits: set<Hash>): set<Use>
    requires Grounded(cx, o, rank)
  {
    set c, u | c in commits && u in CommitUses(cx, o, rank, c) :: u
  }

  /** Everything that is reachable from the tips, and as what. */
  ghost function LiveUses(cx: Codec, o: Objects, rank: Hash -> nat, roots: seq<Hash>): set<Use>
    requires Grounded(cx, o, rank)
  {
    Uses(cx, o, rank, LiveCommits(GraphOf(cx, o), roots))
  }

  ghost function HashesOf(uses: set<Use>): set<Hash> {
    set u | u in uses :: u.h
  }

  /** The object is absent, or does not read as what it is used as. */
  ghost predicate Faulty(cx: Codec, o: Objects, u: Use) {
    u.h !in o || match u.role
                 case AsCommit => cx.asCommit(o[u.h]).None?
                 case AsTree => cx.asTree(o[u.h]).None?
                 case AsManifest => cx.asManifest(o[u.h]).None?
                 case AsData => false
  }

  /** `p` is what is wrong with a use. */
  ghost predicate Describes(cx: Codec, o: Objects, u: Use, p: Problem) {
    && Faulty(cx, o, u)
    && match u.role
       case AsCommit => p == if u.h in o then BadCommit(u.h) else NoCommit(u.h)
       case AsTree => p == if u.h in o then BadTree(u.h) else NoTree(u.h)
       case AsManifest => p == if u.h in o then BadManifest(u.h) else NoBlob(u.h)
       case AsData => p == NoBlob(u.h) || p == NoChunk(u.h)
  }

  /** Nothing reachable is absent or unreadable. */
  ghost predicate Whole(cx: Codec, o: Objects, uses: set<Use>) {
    forall u :: u in uses ==> !Faulty(cx, o, u)
  }

  /** The references agree on what an address is. */
  ghost predicate OneRole(uses: set<Use>) {
    forall u, v :: u in uses && v in uses && u.h == v.h ==> u == v
  }

  function Total(st: Health): nat {
    st.commits + st.trees + st.blobs + st.chunks + st.manifests
  }

  /**
    What is reported is so: the visited addresses are reachable ones; every problem is that
    of some use, once, and no address has two; and the counters are those of the stored
    objects that were visited, each counted once.
   */
  ghost predicate Fair(cx: Codec, o: Objects, uses: set<Use>, st: Health) {
    && st.seen <= HashesOf(uses)
    && (forall p :: p in st.missing ==> FairProblem(cx, o, uses, st, p))
    && (forall p, q :: p in st.missing && q in st.missing && p.h == q.h ==> p == q)
    && st.bytes == Bytes(Restrict(o, st.seen)) && Total(st) == |Restrict(o, st.seen)|
  }

  ghost predicate FairProblem(cx: Codec, o: Objects, uses: set<Use>, st: Health, p: Problem) {
    && st.missing[p] == 1 && p.h in st.seen
    && exists u :: u in uses && u.h == p.h && Describes(cx, o, u, p)
  }

  /** The check of one use at an address not visited before, as far as the report is concerned. */
  ghost predicate Visits(cx: Codec, o: Objects, u: Use, st: Health, st': Health) {
    && u.h !in st.seen && st'.seen == st.seen + {u.h}
    && st'.bytes == st.bytes + (if u.h in o then |o[u.h]| else 0)
    && Total(st') == Total(st) + (if u.h in o then 1 else 0)
    && if Faulty(cx, o, u) then
         exists p: Problem :: p.h == u.h && Describes(cx, o, u, p) && st'.missing == st.missing + multiset{p}
       else st'.missing == st.missing
  }

  lemma VisitFair(cx: Codec, o: Objects, uses: set<Use>, u: Use, st: Health, st': Health)
    requires Fair(cx, o, uses, st) && u in uses && Visits(cx, o, u, st, st')
    ensures Fair(cx, o, uses, st')
  {
    assert u.h in HashesOf(uses);
    VisitCounts(o, st.seen, u.h);
    forall p | p in st'.missing
      ensures FairProblem(cx, o, uses, st', p)
    {
      assert p in st.missing ==> FairProblem(cx, o, uses, st, p);
    }
  }

  lemma VisitCounts(o: Objects, seen: set<Hash>, h: Hash)
    requires h !in seen
    ensures Bytes(Restrict(o, seen + {h})) == Bytes(Restrict(o, seen)) + if h in o then |o[h]| else 0
    ensures |Restrict(o, seen + {h})| == |Restrict(o, seen)| + if h in o then 1 else 0
  {
    var r, r' := Restrict(o, seen), Restrict(o, seen + {h});
    if h in o {
      assert r' - {h} == r;
      BytesWithout(r', h);
      assert r'.Keys == r.Keys + {h};
      assert |r'.Keys| == |r'| && |r.Keys| == |r|;
    } else {
      assert r' == r;
    }
  }

  lemma ChunkVisits(cx: Codec, o: Objects, c: Hash, st: Health)
    requires c !in st.seen
    ensures Visits(cx, o, Use(c, AsData), st, CheckChunk(o, c, st))
  {
    assert c !in o ==> Describes(cx, o, Use(c, AsData), NoChunk(c));
  }

  lemma {:induction false} ChunksFair(cx: Codec, o: Objects, uses: set<Use>, cs: seq<Hash>, st: Health)
    requires Fair(cx, o, uses, st) && DataUses(cs) <= uses
    ensures Fair(cx, o, uses, CheckChunks(cx, o, cs, st))
    decreases |cs|
  {
    if cs != [] {
      var u := Use(cs[0], AsData);
      assert u in DataUses(cs);
      if cs[0] !in st.seen {
        ChunkVisits(cx, o, cs[0], st);
        VisitFair(cx, o, uses, u, st, CheckChunk(o, cs[0], st));
      }
      assert DataUses(cs[1..]) <= DataUses(cs);
      ChunksFair(cx, o, uses, cs[1..], CheckChunk(o, cs[0], st));
    }
  }

  ghost function FileUse(e: Entry): Use {
    Use(e.hash, if e.chunked then AsManifest else AsData)
  }

  lemma FileVisits(cx: Codec, o: Objects, e: Entry, st: Health)
    requires e.hash !in st.seen
    ensures Visits(cx, o, FileUse(e), st, FileOnly(cx, o, e, st)) && FileUse(e) in FileUses(cx, o, e)
  {
    var h := e.hash;
    assert h !in o ==> Describes(cx, o, FileUse(e), NoBlob(h));
    assert e.chunked && h in o && cx.asManifest(o[h]).None? ==> Describes(cx, o, FileUse(e), BadManifest(h));
  }

  lemma FileFair(cx: Codec, o: Objects, uses: set<Use>, e: Entry, st: Health)
    requires Fair(cx, o, uses, st) && FileUses(cx, o, e) <= uses
    ensures Fair(cx, o, uses, CheckFile(cx, o, e, st))
  {
    if e.hash !in st.seen {
      FileVisits(cx, o, e, st);
      VisitFair(cx, o, uses, FileUse(e), st, FileOnly(cx, o, e, st));
      if e.chunked {
        ChunksFair(cx, o, uses, Chunks(cx, o, e.hash), FileOnly(cx, o, e, st));
      }
    }
  }

  function TreeOnly(cx: Codec, o: Objects, h: Hash, st: Health): Health {
    if h !in o then Lost(Visited(st, h), NoTree(h))
    else if cx.asTree(o[h]).Some? then TreeFound(st, h, |o[h]|)
    else Lost(TreeFound(st, h, |o[h]|), BadTree(h))
  }

  lemma TreeVisits(cx: Codec, o: Objects, rank: Hash -> nat, h: Hash, st: Health)
    requires Grounded(cx, o, rank) && h !in st.seen
    ensures Visits(cx, o, Use(h, AsTree), st, TreeOnly(cx, o, h, st))
    ensures CheckTree(cx, o, rank, h, st) == CheckEntries(cx, o, rank, h, Entries(cx, o, h), TreeOnly(cx, o, h, st))
  {
    assert h !in o ==> Describes(cx, o, Use(h, AsTree), NoTree(h));
    assert h in o && cx.asTree(o[h]).None? ==> Describes(cx, o, Use(h, AsTree), BadTree(h));
  }

  lemma {:induction false} TreeFair(cx: Codec, o: Objects, rank: Hash -> nat, uses: set<Use>, h: Hash, st: Health)
    requires Grounded(cx, o, rank) && Fair(cx, o, uses, st) && TreeUses(cx, o, rank, h) <= uses
    ensures Fair(cx, o, uses, CheckTree(cx, o, rank, h, st))
    decreases rank(h), 1, 0
  {
    if h !in st.seen {
      TreeVisits(cx, o, rank, h, st);
      VisitFair(cx, o, uses, Use(h, AsTree), st, TreeOnly(cx, o, h, st));
      EntriesFair(cx, o, rank, uses, h, Entries(cx, o, h), TreeOnly(cx, o, h, st));
    }
  }

  lemma {:induction false} EntriesFair(cx: Codec, o: Objects, rank: Hash -> nat, uses: set<Use>, h: Hash,
                                       es: seq<Entry>, st: Health)
    requires Grounded(cx, o, rank) && Fair(cx, o, uses, st) && TreeUses(cx, o, rank, h) <= uses
    requires forall e :: e in es ==> e in Entries(cx, o, h)
    ensures Fair(cx, o, uses, CheckEntries(cx, o, rank, h, es, st))
    decreases rank(h), 0, |es|
  {
    if es != [] {
      var e := es[0];
      EntryUsesWithin(cx, o, rank, h, e);
      if e.isDir {
        TreeFair(cx, o, rank, uses, e.hash, st);
      } else {
        FileFair(cx, o, uses, e, st);
      }
      EntriesFair(cx, o, rank, uses, h, es[1..], CheckEntry(cx, o, rank, h, e, st));
    }
  }

  lemma EntryUsesWithin(cx: Codec, o: Objects, rank: Hash -> nat, h: Hash, e: Entry)
    requires Grounded(cx, o, rank) && e in Entries(cx, o, h)
    ensures EntryUses(cx, o, rank, h, e) <= TreeUses(cx, o, rank, h)
  {
  }

  function CommitOnly(cx: Codec, o: Objects, h: Hash, st: Health): Health {
    if h !in o then Lost(Visited(st, h), NoCommit(h))
    else if cx.asCommit(o[h]).Some? then CommitFound(st, h, |o[h]|)
    else Lost(CommitFound(st, h, |o[h]|), BadCommit(h))
  }

  lemma CommitVisits(cx: Codec, o: Objects, rank: Hash -> nat, h: Hash, st: Health)
    requires Grounded(cx, o, rank) && h !in st.seen
    ensures Visits(cx, o, Use(h, AsCommit), st, CommitOnly(cx, o, h, st))
    ensures CheckCommit(cx, o, rank, h, st) ==
      if h in GraphOf(cx, o) then CheckTree(cx, o, rank, GraphOf(cx, o)[h].tree, CommitOnly(cx, o, h, st))
        else CommitOnly(cx, o, h, st)
  {
    assert h !in o ==> Describes(cx, o, Use(h, AsCommit), NoCommit(h));
    assert h in o && cx.asCommit(o[h]).None? ==> Describes(cx, o, Use(h, AsCommit), BadCommit(h));
  }

  lemma CommitFair(cx: Codec, o: Objects, rank: Hash -> nat, uses: set<Use>, h: Hash, st: Health)
    requires Grounded(cx, o, rank) && Fair(cx, o, uses, st) && CommitUses(cx, o, rank, h) <= uses && h !in st.seen
    ensures Fair(cx, o, uses, CheckCommit(cx, o, rank, h, st))
  {
    CommitVisits(cx, o, rank, h, st);
    VisitFair(cx, o, uses, Use(h, AsCommit), st, CommitOnly(cx, o, h, st));
    if h in GraphOf(cx, o) {
      TreeFair(cx, o, rank, uses, GraphOf(cx, o)[h].tree, CommitOnly(cx, o, h, st));
    }
  }

  lemma {:induction false} WalkFair(cx: Codec, o: Objects, rank: Hash -> nat, all: set<Hash>, stack: seq<Hash>,
                                    st: Health)
    requires Grounded(cx, o, rank) && Closed(GraphOf(cx, o), all) && Elems(stack) <= all
    requires Fair(cx, o, Uses(cx, o, rank, all), st)
    ensures Fair(cx, o, Uses(cx, o, rank, all), CheckWalk(cx, o, rank, all, stack, st))
    decreases all - st.seen, |stack|
  {
    if stack != [] {
      var h, rest := stack[|stack| - 1], stack[..|stack| - 1];
      assert h in Elems(stack);
      if h in st.seen {
        WalkFair(cx, o, rank, all, rest, st);
      } else {
        CommitFair(cx, o, rank, Uses(cx, o, rank, all), h, st);
        var more := Parents(GraphOf(cx, o), h);
        assert forall p :: p in more ==> p in all;
        WalkFair(cx, o, rank, all, rest + more, CheckCommit(cx, o, rank, h, st));
      }
    }
  }

  // ---------- With one role to an address, nothing is overlooked ----------

  /** Exactly the uses in `done` have been visited, and each faulty one is reported. */
  ghost predicate Covers(cx: Codec, o: Objects, done: set<Use>, st: Health) {
    && st.seen == HashesOf(done)
    && forall u :: u in done && Faulty(cx, o, u) ==> Reported(st, u.h)
  }

  ghost predicate Reported(st: Health, h: Hash) {
    exists p :: p in st.missing && p.h == h
  }

  /** Visited files have had their chunks visited. */
  ghost predicate FilesDone(cx: Codec, o: Objects, done: set<Use>) {
    forall m, c :: Use(m, AsManifest) in done && c in Chunks(cx, o, m) ==> Use(c, AsData) in done
  }

  /** Visited trees ranked below `k` have had everything below them visited. */
  ghost predicate TreesDone(cx: Codec, o: Objects, rank: Hash -> nat, done: set<Use>, k: Option<nat>)
    requires Grounded(cx, o, rank)
  {
    forall t :: Use(t, AsTree) in done && (k.Some? ==> rank(t) < k.value) ==> TreeUses(cx, o, rank, t) <= done
  }

  ghost predicate Covered(cx: Codec, o: Objects, rank: Hash -> nat, all: set<Use>, done: set<Use>, k: Option<nat>,
                          st: Health)
    requires Grounded(cx, o, rank)
  {
    && OneRole(all) && done <= all
    && Covers(cx, o, done, st) && FilesDone(cx, o, done) && TreesDone(cx, o, rank, done, k)
  }

  lemma VisitCovers(cx: Codec, o: Objects, done: set<Use>, u: Use, st: Health, st': Health)
    requires Covers(cx, o, done, st) && Visits(cx, o, u, st, st')
    ensures Covers(cx, o, done + {u}, st')
  {
    assert HashesOf(done + {u}) == HashesOf(done) + {u.h};
    forall v | v in done + {u} && Faulty(cx, o, v)
      ensures Reported(st', v.h)
    {
      if v in done {
        var p :| p in st.missing && p.h == v.h;
        assert p in st'.missing;
      } else {
        var p: Problem :| p.h == u.h && Describes(cx, o, u, p) && st'.missing == st.missing + multiset{p};
        assert p in st'.missing;
      }
    }
  }

  /** A visited address was visited as what it is. */
  lemma SeenIsDone(all: set<Use>, done: set<Use>, u: Use)
    requires OneRole(all) && done <= all && u in all && u.h in HashesOf(done)
    ensures u in done
  {
  }

  lemma {:induction false} ChunksCovered(cx: Codec, o: Objects, all: set<Use>, done: set<Use>, cs: seq<Hash>,
                                         st: Health)
    requires OneRole(all) && done <= all && DataUses(cs) <= all && Covers(cx, o, done, st)
    ensures Covers(cx, o, done + DataUses(cs), CheckChunks(cx, o, cs, st))
    decreases |cs|
  {
    if cs == [] {
      assert done + DataUses(cs) == done;
    } else {
      var u := Use(cs[0], AsData);
      assert u in DataUses(cs);
      assert DataUses(cs) == {u} + DataUses(cs[1..]);
      if cs[0] in st.seen {
        SeenIsDone(all, done, u);
        assert done + {u} == done;
      } else {
        ChunkVisits(cx, o, cs[0], st);
        VisitCovers(cx, o, done, u, st, CheckChunk(o, cs[0], st));
      }
      ChunksCovered(cx, o, all, done + {u}, cs[1..], CheckChunk(o, cs[0], st));
      assert done + {u} + DataUses(cs[1..]) == done + DataUses(cs);
    }
  }

  lemma FileCovers(cx: Codec, o: Objects, all: set<Use>, done: set<Use>, e: Entry, st: Health)
    requires OneRole(all) && done <= all && Covers(cx, o, done, st) && FilesDone(cx, o, done)
      && FileUses(cx, o, e) <= all
    ensures Covers(cx, o, done + FileUses(cx, o, e), CheckFile(cx, o, e, st))
  {
    var u := FileUse(e);
    assert u in FileUses(cx, o, e);
    if e.hash in st.seen {
      SeenIsDone(all, done, u);
      assert done + FileUses(cx, o, e) == done;
    } else {
      FileVisits(cx, o, e, st);
      VisitCovers(cx, o, done, u, st, FileOnly(cx, o, e, st));
      if e.chunked {
        var cs := Chunks(cx, o, e.hash);
        ChunksCovered(cx, o, all, done + {u}, cs, FileOnly(cx, o, e, st));
        assert done + {u} + DataUses(cs) == done + FileUses(cx, o, e);
      }
    }
  }

  lemma FileCovered(cx: Codec, o: Objects, rank: Hash -> nat, all: set<Use>, done: set<Use>, k: Option<nat>, e: Entry,
                    st: Health)
    requires Grounded(cx, o, rank) && Covered(cx, o, rank, all, done, k, st) && FileUses(cx, o, e) <= all
    ensures Covered(cx, o, rank, all, done + FileUses(cx, o, e), k, CheckFile(cx, o, e, st))
  {
    FileCovers(cx, o, all, done, e, st);
    var done' := done + FileUses(cx, o, e);
    forall t | Use(t, AsTree) in done' && (k.Some? ==> rank(t) < k.value)
      ensures TreeUses(cx, o, rank, t) <= done'
    {
      assert Use(t, AsTree) in done;
    }
  }

  lemma {:induction false} TreeUsesTrans(cx: Codec, o: Objects, rank: Hash -> nat, h: Hash, t: Hash)
    requires Grounded(cx, o, rank) && Use(t, AsTree) in TreeUses(cx, o, rank, h)
    ensures TreeUses(cx, o, rank, t) <= TreeUses(cx, o, rank, h)
    decreases rank(h)
  {
    if t != h {
      var e :| e in Entries(cx, o, h) && Use(t, AsTree) in EntryUses(cx, o, rank, h, e);
      assert e.isDir;
      TreeUsesTrans(cx, o, rank, e.hash, t);
      EntryUsesWithin(cx, o, rank, h, e);
    }
  }

  lemma {:induction false} TreeFilesDone(cx: Codec, o: Objects, rank: Hash -> nat, h: Hash)
    requires Grounded(cx, o, rank)
    ensures FilesDone(cx, o, TreeUses(cx, o, rank, h))
    decreases rank(h)
  {
    forall m, c | Use(m, AsManifest) in TreeUses(cx, o, rank, h) && c in Chunks(cx, o, m)
      ensures Use(c, AsData) in TreeUses(cx, o, rank, h)
    {
      var e :| e in Entries(cx, o, h) && Use(m, AsManifest) in EntryUses(cx, o, rank, h, e);
      if e.isDir { TreeFilesDone(cx, o, rank, e.hash); }
      EntryUsesWithin(cx, o, rank, h, e);
    }
  }

  /** A tree visited on top of what is done leaves trees and files done. */
  lemma TreeStaysDone(cx: Codec, o: Objects, rank: Hash -> nat, done: set<Use>, k: Option<nat>, h: Hash)
    requires Grounded(cx, o, rank) && FilesDone(cx, o, done) && TreesDone(cx, o, rank, done, k)
    ensures var done' := done + TreeUses(cx, o, rank, h);
      FilesDone(cx, o, done') && TreesDone(cx, o, rank, done', k)
  {
    var done' := done + TreeUses(cx, o, rank, h);
    TreeFilesDone(cx, o, rank, h);
    forall t | Use(t, AsTree) in done' && (k.Some? ==> rank(t) < k.value)
      ensures TreeUses(cx, o, rank, t) <= done'
    {
      if Use(t, AsTree) !in done { TreeUsesTrans(cx, o, rank, h, t); }
    }
  }

  lemma {:induction false} TreeCovered(cx: Codec, o: Objects, rank: Hash -> nat, all: set<Use>, done: set<Use>,
                                       k: Option<nat>, h: Hash, st: Health)
    requires Grounded(cx, o, rank) && Covered(cx, o, rank, all, done, k, st) && TreeUses(cx, o, rank, h) <= all
    requires k.Some? ==> rank(h) < k.value
    ensures Covered(cx, o, rank, all, done + TreeUses(cx, o, rank, h), k, CheckTree(cx, o, rank, h, st))
    decreases rank(h), 1, 0
  {
    var u := Use(h, AsTree);
    TreeStaysDone(cx, o, rank, done, k, h);
    if h in st.seen {
      SeenIsDone(all, done, u);
      assert done + TreeUses(cx, o, rank, h) == done;
    } else {
      TreeVisits(cx, o, rank, h, st);
      VisitCovers(cx, o, done, u, st, TreeOnly(cx, o, h, st));
      var es := Entries(cx, o, h);
      InsideTree(cx, o, rank, all, done, k, h, TreeOnly(cx, o, h, st));
      EntriesCovered(cx, o, rank, all, done + {u}, h, es, TreeOnly(cx, o, h, st));
      assert done + {u} + UsesBelow(cx, o, rank, h, es) == done + TreeUses(cx, o, rank, h);
    }
  }

  /** On entering a tree, the trees ranked below it that were visited are done. */
  lemma InsideTree(cx: Codec, o: Objects, rank: Hash -> nat, all: set<Use>, done: set<Use>, k: Option<nat>, h: Hash,
                   st: Health)
    requires Grounded(cx, o, rank) && OneRole(all) && done <= all && Use(h, AsTree) in all
    requires FilesDone(cx, o, done) && TreesDone(cx, o, rank, done, k) && (k.Some? ==> rank(h) < k.value)
    requires Covers(cx, o, done + {Use(h, AsTree)}, st)
    ensures Covered(cx, o, rank, all, done + {Use(h, AsTree)}, Some(rank(h)), st)
  {
    var done' := done + {Use(h, AsTree)};
    forall t | Use(t, AsTree) in done' && rank(t) < rank(h)
      ensures TreeUses(cx, o, rank, t) <= done'
    {
      assert Use(t, AsTree) in done;
    }
  }

  ghost function UsesBelow(cx: Codec, o: Objects, rank: Hash -> nat, h: Hash, es: seq<Entry>): set<Use>
    requires Grounded(cx, o, rank) && forall e :: e in es ==> e in Entries(cx, o, h)
  {
    set e, u | e in es && u in EntryUses(cx, o, rank, h, e) :: u
  }

  lemma {:induction false} EntriesCovered(cx: Codec, o: Objects, rank: Hash -> nat, all: set<Use>, done: set<Use>,
                                          h: Hash, es: seq<Entry>, st: Health)
    requires Grounded(cx, o, rank) && Covered(cx, o, rank, all, done, Some(rank(h)), st)
      && TreeUses(cx, o, rank, h) <= all
    requires forall e :: e in es ==> e in Entries(cx, o, h)
    ensures Covered(cx, o, rank, all, done + UsesBelow(cx, o, rank, h, es), Some(rank(h)),
        CheckEntries(cx, o, rank, h, es, st))
    decreases rank(h), 0, |es|
  {
    if es == [] {
      assert done + UsesBelow(cx, o, rank, h, es) == done;
    } else {
      var e := es[0];
      EntryUsesWithin(cx, o, rank, h, e);
      if e.isDir {
        TreeCovered(cx, o, rank, all, done, Some(rank(h)), e.hash, st);
      } else {
        FileCovered(cx, o, rank, all, done, Some(rank(h)), e, st);
      }
      EntriesCovered(cx, o, rank, all, done + EntryUses(cx, o, rank, h, e), h, es[1..],
          CheckEntry(cx, o, rank, h, e, st));
      BelowFirst(cx, o, rank, h, es);
      assert done + EntryUses(cx, o, rank, h, e) + UsesBelow(cx, o, rank, h, es[1..]) ==
        done + UsesBelow(cx, o, rank, h, es);
    }
  }

  lemma BelowFirst(cx: Codec, o: Objects, rank: Hash -> nat, h: Hash, es: seq<Entry>)
    requires Grounded(cx, o, rank) && es != [] && forall e :: e in es ==> e in Entries(cx, o, h)
    ensures UsesBelow(cx, o, rank, h, es) == EntryUses(cx, o, rank, h, es[0]) + UsesBelow(cx, o, rank, h, es[1..])
  {
    assert forall e :: e in es <==> e == es[0] || e in es[1..];
  }

  lemma CommitCovered(cx: Codec, o: Objects, rank: Hash -> nat, all: set<Use>, done: set<Use>, h: Hash, st: Health)
    requires Grounded(cx, o, rank) && Covered(cx, o, rank, all, done, None, st)
      && CommitUses(cx, o, rank, h) <= all && h !in st.seen
    ensures Covered(cx, o, rank, all, done + CommitUses(cx, o, rank, h), None, CheckCommit(cx, o, rank, h, st))
  {
    var u := Use(h, AsCommit);
    CommitVisits(cx, o, rank, h, st);
    VisitCovers(cx, o, done, u, st, CommitOnly(cx, o, h, st));
    CommitAlone(cx, o, rank, done, h);
    if h in GraphOf(cx, o) {
      var t := GraphOf(cx, o)[h].tree;
      TreeCovered(cx, o, rank, all, done + {u}, None, t, CommitOnly(cx, o, h, st));
      assert done + {u} + TreeUses(cx, o, rank, t) == done + CommitUses(cx, o, rank, h);
    } else {
      assert done + {u} == done + CommitUses(cx, o, rank, h);
    }
  }

  lemma CommitAlone(cx: Codec, o: Objects, rank: Hash -> nat, done: set<Use>, h: Hash)
    requires Grounded(cx, o, rank) && FilesDone(cx, o, done) && TreesDone(cx, o, rank, done, None)
    ensures FilesDone(cx, o, done + {Use(h, AsCommit)}) && TreesDone(cx, o, rank, done + {Use(h, AsCommit)}, None)
  {
    forall t | Use(t, AsTree) in done + {Use(h, AsCommit)}
      ensures TreeUses(cx, o, rank, t) <= done
    {
      assert Use(t, AsTree) in done;
    }
  }

  /** The walk over commits, with `commits` visited: their uses are covered and no parent is lost. */
  ghost predicate Walked(cx: Codec, o: Objects, rank: Hash -> nat, roots: seq<Hash>, commits: set<Hash>,
                         stack: seq<Hash>, st: Health)
    requires Grounded(cx, o, rank)
  {
    var all := LiveCommits(GraphOf(cx, o), roots);
    && Elems(stack) <= all && commits <= all && Carries(GraphOf(cx, o), roots, commits, stack)
    && Covered(cx, o, rank, Uses(cx, o, rank, all), Uses(cx, o, rank, commits), None, st)
  }

  lemma WalkedSeen(cx: Codec, o: Objects, rank: Hash -> nat, roots: seq<Hash>, commits: set<Hash>, rest: seq<Hash>,
                   h: Hash, st: Health)
    requires Grounded(cx, o, rank) && Walked(cx, o, rank, roots, commits, rest + [h], st) && h in st.seen
    ensures Walked(cx, o, rank, roots, commits, rest, st)
  {
    var all := LiveCommits(GraphOf(cx, o), roots);
    assert (rest + [h])[|rest|] == h && h in Elems(rest + [h]);
    SeenCommit(cx, o, rank, all, commits, h);
    SkipSeen(GraphOf(cx, o), roots, all, commits, rest, h);
  }

  lemma WalkedNew(cx: Codec, o: Objects, rank: Hash -> nat, roots: seq<Hash>, commits: set<Hash>, rest: seq<Hash>,
                  h: Hash, st: Health)
    requires Grounded(cx, o, rank) && Walked(cx, o, rank, roots, commits, rest + [h], st) && h !in st.seen
    ensures Walked(cx, o, rank, roots, commits + {h}, rest + Parents(GraphOf(cx, o), h),
        CheckCommit(cx, o, rank, h, st))
  {
    var all := LiveCommits(GraphOf(cx, o), roots);
    assert (rest + [h])[|rest|] == h && h in Elems(rest + [h]);
    RootsInside(GraphOf(cx, o), roots);
    CommitCovered(cx, o, rank, Uses(cx, o, rank, all), Uses(cx, o, rank, commits), h, st);
    MoreUses(cx, o, rank, commits, h);
    CarryOn(GraphOf(cx, o), roots, all, commits, rest, h);
  }

  /** The walk covers the uses of every commit. */
  lemma {:induction false} WalkCovered(cx: Codec, o: Objects, rank: Hash -> nat, roots: seq<Hash>, commits: set<Hash>,
                                       stack: seq<Hash>, st: Health)
    requires Grounded(cx, o, rank) && Walked(cx, o, rank, roots, commits, stack, st)
    requires Closed(GraphOf(cx, o), LiveCommits(GraphOf(cx, o), roots))
    ensures Covers(cx, o, LiveUses(cx, o, rank, roots),
        CheckWalk(cx, o, rank, LiveCommits(GraphOf(cx, o), roots), stack, st))
    decreases LiveCommits(GraphOf(cx, o), roots) - st.seen, |stack|
  {
    if stack == [] {
      CarriedAll(GraphOf(cx, o), roots, commits);
    } else {
      var h, rest := stack[|stack| - 1], stack[..|stack| - 1];
      assert stack == rest + [h] && h in Elems(stack);
      if h in st.seen {
        WalkedSeen(cx, o, rank, roots, commits, rest, h, st);
        WalkCovered(cx, o, rank, roots, commits, rest, st);
      } else {
        WalkedNew(cx, o, rank, roots, commits, rest, h, st);
        WalkCovered(cx, o, rank, roots, commits + {h}, rest + Parents(GraphOf(cx, o), h),
            CheckCommit(cx, o, rank, h, st));
      }
    }
  }

  lemma SeenCommit(cx: Codec, o: Objects, rank: Hash -> nat, all: set<Hash>, commits: set<Hash>, h: Hash)
    requires Grounded(cx, o, rank) && OneRole(Uses(cx, o, rank, all)) && commits <= all && h in all
    requires h in HashesOf(Uses(cx, o, rank, commits))
    ensures h in commits
  {
    assert Use(h, AsCommit) in CommitUses(cx, o, rank, h);
    assert Uses(cx, o, rank, commits) <= Uses(cx, o, rank, all);
    SeenIsDone(Uses(cx, o, rank, all), Uses(cx, o, rank, commits), Use(h, AsCommit));
    var c :| c in commits && Use(h, AsCommit) in CommitUses(cx, o, rank, c);
    if c != h { NoCommitBelow(cx, o, rank, GraphOf(cx, o)[c].tree, h); }
  }

  lemma {:induction false} NoCommitBelow(cx: Codec, o: Objects, rank: Hash -> nat, t: Hash, h: Hash)
    requires Grounded(cx, o, rank)
    ensures Use(h, AsCommit) !in TreeUses(cx, o, rank, t)
    decreases rank(t)
  {
    if Use(h, AsCommit) in TreeUses(cx, o, rank, t) {
      var e :| e in Entries(cx, o, t) && Use(h, AsCommit) in EntryUses(cx, o, rank, t, e);
      if e.isDir { NoCommitBelow(cx, o, rank, e.hash, h); }
    }
  }

  lemma MoreUses(cx: Codec, o: Objects, rank: Hash -> nat, commits: set<Hash>, h: Hash)
    requires Grounded(cx, o, rank)
    ensures Uses(cx, o, rank, commits + {h}) == Uses(cx, o, rank, commits) + CommitUses(cx, o, rank, h)
  {
  }

  /** The reachable addresses are those of the uses. */
  lemma UsesAreLive(cx: Codec, o: Objects, rank: Hash -> nat, roots: seq<Hash>)
    requires Grounded(cx, o, rank)
    ensures HashesOf(LiveUses(cx, o, rank, roots)) == Live(cx, o, rank, roots)
  {
    var commits := LiveCommits(GraphOf(cx, o), roots);
    forall c | c in commits
      ensures HashesOf(CommitUses(cx, o, rank, c)) == CommitHashes(cx, o, rank, c)
    {
      if c in GraphOf(cx, o) { TreeUsesReach(cx, o, rank, GraphOf(cx, o)[c].tree); }
      assert Use(c, AsCommit) in CommitUses(cx, o, rank, c);
    }
    forall h
      ensures h in HashesOf(Uses(cx, o, rank, commits)) <==> h in AllHashes(cx, o, rank, commits)
    {
      UsedIsReached(cx, o, rank, commits, h);
    }
  }

  lemma UsedIsReached(cx: Codec, o: Objects, rank: Hash -> nat, commits: set<Hash>, h: Hash)
    requires Grounded(cx, o, rank)
    requires forall c :: c in commits ==> HashesOf(CommitUses(cx, o, rank, c)) == CommitHashes(cx, o, rank, c)
    ensures h in HashesOf(Uses(cx, o, rank, commits)) <==> h in AllHashes(cx, o, rank, commits)
  {
    if h in AllHashes(cx, o, rank, commits) {
      var c :| c in commits && h in CommitHashes(cx, o, rank, c);
      assert h in HashesOf(CommitUses(cx, o, rank, c));
      var u :| u in CommitUses(cx, o, rank, c) && u.h == h;
      assert u in Uses(cx, o, rank, commits);
    }
    if h in HashesOf(Uses(cx, o, rank, commits)) {
      var u :| u in Uses(cx, o, rank, commits) && u.h == h;
      var c :| c in commits && u in CommitUses(cx, o, rank, c);
      assert h in HashesOf(CommitUses(cx, o, rank, c));
    }
  }

  lemma {:induction false} TreeUsesReach(cx: Codec, o: Objects, rank: Hash -> nat, h: Hash)
    requires Grounded(cx, o, rank)
    ensures HashesOf(TreeUses(cx, o, rank, h)) == TreeHashes(cx, o, rank, h)
    decreases rank(h)
  {
    forall e | e in Entries(cx, o, h)
      ensures HashesOf(EntryUses(cx, o, rank, h, e)) == EntryHashes(cx, o, rank, h, e)
    {
      if e.isDir { TreeUsesReach(cx, o, rank, e.hash); } else { FileUsesReach(cx, o, e); }
    }
    assert Use(h, AsTree) in TreeUses(cx, o, rank, h);
    forall x
      ensures x in HashesOf(TreeUses(cx, o, rank, h)) <==> x in TreeHashes(cx, o, rank, h)
    {
      if x in TreeHashes(cx, o, rank, h) && x != h {
        var e :| e in Entries(cx, o, h) && x in EntryHashes(cx, o, rank, h, e);
        assert x in HashesOf(EntryUses(cx, o, rank, h, e));
        var u :| u in EntryUses(cx, o, rank, h, e) && u.h == x;
        assert u in TreeUses(cx, o, rank, h);
      }
      if x in HashesOf(TreeUses(cx, o, rank, h)) && x != h {
        var u :| u in TreeUses(cx, o, rank, h) && u.h == x;
        var e :| e in Entries(cx, o, h) && u in EntryUses(cx, o, rank, h, e);
        assert x in HashesOf(EntryUses(cx, o, rank, h, e));
      }
    }
  }

  lemma FileUsesReach(cx: Codec, o: Objects, e: Entry)
    ensures HashesOf(FileUses(cx, o, e)) == FileHashes(cx, o, e)
  {
    assert FileUse(e) in FileUses(cx, o, e);
    if e.chunked {
      forall c | c in Chunks(cx, o, e.hash)
        ensures c in HashesOf(FileUses(cx, o, e))
      {
        assert Use(c, AsData) in FileUses(cx, o, e);
      }
    }
  }

  /**
    What a report means. It is always fair, so a store with nothing amiss gets a clean one.
    When references agree on what each address is, everything reachable has been visited,
    every fault is reported, and a clean report means that nothing is absent or unreadable.
   */
  lemma ReportMeans(cx: Codec, o: Objects, rank: Hash -> nat, roots: seq<Hash>)
    requires Grounded(cx, o, rank)
    ensures Fair(cx, o, LiveUses(cx, o, rank, roots), Report(cx, o, rank, roots))
    ensures OneRole(LiveUses(cx, o, rank, roots)) ==>
      Thorough(cx, o, LiveUses(cx, o, rank, roots), Report(cx, o, rank, roots))
        && Report(cx, o, rank, roots).seen == Live(cx, o, rank, roots)
    ensures Whole(cx, o, LiveUses(cx, o, rank, roots)) ==> Report(cx, o, rank, roots).missing == multiset{}
  {
    var uses, st := LiveUses(cx, o, rank, roots), Report(cx, o, rank, roots);
    ReportFair(cx, o, rank, roots);
    if OneRole(uses) {
      ReportCovers(cx, o, rank, roots);
      FairIsThorough(cx, o, uses, st);
      UsesAreLive(cx, o, rank, roots);
    }
    if Whole(cx, o, uses) {
      NothingToReport(cx, o, uses, st);
    }
  }

  lemma ReportFair(cx: Codec, o: Objects, rank: Hash -> nat, roots: seq<Hash>)
    requires Grounded(cx, o, rank)
    ensures Fair(cx, o, LiveUses(cx, o, rank, roots), Report(cx, o, rank, roots))
  {
    RootsInside(GraphOf(cx, o), roots);
    assert Restrict(o, {}) == map[];
    WalkFair(cx, o, rank, LiveCommits(GraphOf(cx, o), roots), roots, START);
  }

  lemma ReportCovers(cx: Codec, o: Objects, rank: Hash -> nat, roots: seq<Hash>)
    requires Grounded(cx, o, rank) && OneRole(LiveUses(cx, o, rank, roots))
    ensures Covers(cx, o, LiveUses(cx, o, rank, roots), Report(cx, o, rank, roots))
  {
    RootsInside(GraphOf(cx, o), roots);
    assert Uses(cx, o, rank, {}) == {};
    WalkCovered(cx, o, rank, roots, {}, roots, START);
  }

  /** The report of a check that has overlooked nothing. */
  ghost predicate Thorough(cx: Codec, o: Objects, uses: set<Use>, st: Health) {
    && st.seen == HashesOf(uses)
    && (forall u :: u in uses && Faulty(cx, o, u) ==> exists p :: p in st.missing && Describes(cx, o, u, p))
    && (st.missing == multiset{} <==> Whole(cx, o, uses))
  }

  lemma NothingToReport(cx: Codec, o: Objects, uses: set<Use>, st: Health)
    requires Whole(cx, o, uses) && Fair(cx, o, uses, st)
    ensures st.missing == multiset{}
  {
    assert forall p :: p in st.missing ==> FairProblem(cx, o, uses, st, p);
  }

  lemma FairIsThorough(cx: Codec, o: Objects, uses: set<Use>, st: Health)
    requires OneRole(uses) && Fair(cx, o, uses, st) && Covers(cx, o, uses, st)
    ensures Thorough(cx, o, uses, st)
  {
    AllReported(cx, o, uses, st);
    if Whole(cx, o, uses) { NothingToReport(cx, o, uses, st); }
  }

  lemma AllReported(cx: Codec, o: Objects, uses: set<Use>, st: Health)
    requires OneRole(uses) && Fair(cx, o, uses, st) && Covers(cx, o, uses, st)
    ensures forall u :: u in uses && Faulty(cx, o, u) ==> exists p :: p in st.missing && Describes(cx, o, u, p)
  {
    forall u | u in uses && Faulty(cx, o, u)
      ensures exists p :: p in st.missing && Describes(cx, o, u, p)
    {
      var p := FaultReported(cx, o, uses, st, u);
    }
  }

  lemma FaultReported(cx: Codec, o: Objects, uses: set<Use>, st: Health, u: Use) returns (p: Problem)
    requires OneRole(uses) && Fair(cx, o, uses, st) && Covers(cx, o, uses, st) && u in uses && Faulty(cx, o, u)
    ensures p in st.missing && Describes(cx, o, u, p)
  {
    assert Reported(st, u.h);
    p :| p in st.missing && p.h == u.h;
    assert FairProblem(cx, o, uses, st, p);
    var v :| v in uses && v.h == p.h && Describes(cx, o, v, p);
  }

  /**
    Without that agreement a clean report can hide a loss: a tree that lists one address
    first as a file and then as a directory is reported clean although an object below the
    directory is absent, because the address counts as visited.
   */
  lemma SharedAddressHidesLoss(c: Commit)
    requires c.tree == 2 && c.parents == []
    ensures Grounded(HidingCodec(c), HIDING, HidingRank)
    ensures Report(HidingCodec(c), HIDING, HidingRank, [1]).missing == multiset{}
    ensures Use(4, AsData) in LiveUses(HidingCodec(c), HIDING, HidingRank, [1]) && 4 !in HIDING
  {
    var cx, g := HidingCodec(c), GraphOf(HidingCodec(c), HIDING);
    HiddenUse(c);
    HidingCheck(c, CommitFound(START, 1, 1));
    RootsInside(g, [1]);
    AncSelf(g, 1);
    assert Use(4, AsData) in CommitUses(cx, HIDING, HidingRank, 1);
    var st := CheckCommit(cx, HIDING, HidingRank, 1, START);
    var all := LiveCommits(g, [1]);
    assert [1][..0] == [] && [1][0] == 1 && Parents(g, 1) == [];
    assert CheckWalk(cx, HIDING, HidingRank, all, [] + [], st) == st;
  }

  lemma HidingEntries(c: Commit)
    ensures Entries(HidingCodec(c), HIDING, 2) == [Entry(3, false, false), Entry(3, true, false)]
    ensures Entries(HidingCodec(c), HIDING, 3) == [Entry(4, false, false)]
    ensures Grounded(HidingCodec(c), HIDING, HidingRank)
  {
    var cx := HidingCodec(c);
    forall h, e | h in HIDING && e in Entries(cx, HIDING, h) && e.isDir
      ensures HidingRank(e.hash) < HidingRank(h)
    {
      assert h == 1 || h == 2 || h == 3;
    }
  }

  /** The inner tree's only file is in use. */
  lemma HiddenUse(c: Commit)
    ensures Grounded(HidingCodec(c), HIDING, HidingRank)
    ensures Use(4, AsData) in TreeUses(HidingCodec(c), HIDING, HidingRank, 2)
  {
    var cx, inner, asDir := HidingCodec(c), Entry(4, false, false), Entry(3, true, false);
    HidingEntries(c);
    assert Entries(cx, HIDING, 3)[0] == inner && Entries(cx, HIDING, 2)[1] == asDir;
    assert Use(4, AsData) in EntryUses(cx, HIDING, HidingRank, 3, inner);
    EntryUsesWithin(cx, HIDING, HidingRank, 3, inner);
    EntryUsesWithin(cx, HIDING, HidingRank, 2, asDir);
  }

  /** The check of the outer tree stops at the address it has visited as a file. */
  lemma HidingCheck(c: Commit, st: Health)
    requires 2 !in st.seen && 3 !in st.seen
    ensures Grounded(HidingCodec(c), HIDING, HidingRank)
    ensures CheckTree(HidingCodec(c), HIDING, HidingRank, 2, st).missing == st.missing
  {
    var cx, asFile, asDir := HidingCodec(c), Entry(3, false, false), Entry(3, true, false);
    HidingEntries(c);
    var st2 := TreeFound(st, 2, 1);
    var st3 := CheckFile(cx, HIDING, asFile, st2);
    assert st3.missing == st.missing && 3 in st3.seen;
    assert [asFile, asDir][1..] == [asDir] && [asDir][1..] == [];
    assert CheckEntry(cx, HIDING, HidingRank, 2, asDir, st3) == st3;
    assert CheckEntries(cx, HIDING, HidingRank, 2, [asDir], st3) == st3;
    assert CheckEntries(cx, HIDING, HidingRank, 2, [asFile, asDir], st2) == st3;
  }

  const HIDING: Objects := map[1 := "c", 2 := "t", 3 := "d"]

  function HidingRank(h: Hash): nat {
    if h == 2 then 2 else if h == 3 then 1 else 0
  }

  function HidingCodec(c: Commit): Codec {
    Codec(r => if r == "c" then Some(c) else None,
          r => if r == "t" then Some([Entry(3, false, false), Entry(3, true, false)])
               else if r == "d" then Some([Entry(4, false, false)]) else None,
          r => None, r => 0, r => 0, r => 0)
  }

  // ---------- The operations ----------

  datatype Collected = Collected(examined: nat, removed: nat, freed: nat, kept: nat)

  ghost function Bytes(o: Objects): nat
    decreases |o|
  {
    if o == map[] then 0
    else
      var h :| h in o;
      |o[h]| + Bytes(o - {h})
  }

  class Vault {
    var objects: Objects
    const cx: Codec
    ghost const rank: Hash -> nat

    ghost predicate Valid()
      reads this
    {
      Grounded(cx, objects, rank)
    }

    constructor (cx: Codec, ghost rank: Hash -> nat)
      ensures Valid() && objects == map[] && this.cx == cx && this.rank == rank
    {
      this.cx, this.rank, objects := cx, rank, map[];
    }

    /** walkTree of GC: marks a tree and everything below it. */
    method MarkTree(h: Hash, marked0: set<Hash>) returns (marked: set<Hash>)
      requires Valid()
      ensures marked == marked0 + TreeHashes(cx, objects, rank, h)
      decreases rank(h)
    {
      marked := marked0 + {h};
      var es := Entries(cx, objects, h);
      for i := 0 to |es|
        invariant marked == marked0 + {h} + Below(cx, objects, rank, h, es[..i])
      {
        var e := es[i];
        BelowGrows(cx, objects, rank, h, i);
        if e.isDir {
          marked := MarkTree(e.hash, marked);
        } else {
          marked := marked + {e.hash};
          if e.chunked {
            marked := marked + (set c | c in Chunks(cx, objects, e.hash));
          }
        }
      }
      assert es[..|es|] == es;
    }

    method FsckChunks(cs: seq<Hash>, st0: Health) returns (st: Health)
      ensures st == CheckChunks(cx, objects, cs, st0)
    {
      st := st0;
      assert cs[0..] == cs;
      for i := 0 to |cs|
        invariant CheckChunks(cx, objects, cs[i..], st) == CheckChunks(cx, objects, cs, st0)
      {
        var c := cs[i];
        assert cs[i..][0] == c && cs[i..][1..] == cs[i + 1..];
        st := FsckChunk(c, st);
      }
      assert cs[|cs|..] == [];
    }

    method FsckChunk(c: Hash, st0: Health) returns (st: Health)
      ensures st == CheckChunk(objects, c, st0)
    {
      st := st0;
      if c in st.seen { return; }
      st := Visited(st, c);
      if c !in objects { return Lost(st, NoChunk(c)); }
      st := st.(bytes := st.bytes + |objects[c]|, chunks := st.chunks + 1);
    }

    method FsckFile(e: Entry, st0: Health) returns (st: Health)
      ensures st == CheckFile(cx, objects, e, st0)
    {
      st := st0;
      if e.hash in st.seen { return; }
      st := FsckFileOnly(e, st);
      if e.chunked && e.hash in objects && cx.asManifest(objects[e.hash]).Some? {
        st := FsckChunks(cx.asManifest(objects[e.hash]).value, st);
      }
    }

    /** The file's own object, before any chunks. */
    method FsckFileOnly(e: Entry, st0: Health) returns (st: Health)
      requires e.hash !in st0.seen
      ensures st == FileOnly(cx, objects, e, st0)
    {
      st := Visited(st0, e.hash);
      if e.hash !in objects { return Lost(st, NoBlob(e.hash)); }
      st := st.(bytes := st.bytes + |objects[e.hash]|);
      if !e.chunked { return st.(blobs := st.blobs + 1); }
      st := st.(manifests := st.manifests + 1);
      if cx.asManifest(objects[e.hash]).None? { return Lost(st, BadManifest(e.hash)); }
    }

    method FsckTree(h: Hash, st0: Health) returns (st: Health)
      requires Valid()
      ensures st == CheckTree(cx, objects, rank, h, st0)
      decreases rank(h)
    {
      st := st0;
      if h in st.seen { return; }
      if h !in objects { return Lost(Visited(st, h), NoTree(h)); }
      st := TreeFound(st, h, |objects[h]|);
      if cx.asTree(objects[h]).None? { return Lost(st, BadTree(h)); }
      var es := Entries(cx, objects, h);
      ghost var st1 := st;
      assert es[0..] == es;
      for i := 0 to |es|
        invariant forall e :: e in es[i..] ==> e in es
        invariant CheckEntries(cx, objects, rank, h, es[i..], st) == CheckEntries(cx, objects, rank, h, es, st1)
      {
        var e := es[i];
        assert es[i..][0] == e && es[i..][1..] == es[i + 1..];
        if e.isDir {
          st := FsckTree(e.hash, st);
        } else {
          st := FsckFile(e, st);
        }
      }
      assert es[|es|..] == [];
    }

    /**
      Fsck: a fair report over everything reachable from the tips, in which nothing is
      overlooked when references agree on what each address is.
     */
    method Fsck(roots: seq<Hash>) returns (st: Health)
      requires Valid()
      ensures st == Report(cx, objects, rank, roots)
      ensures Fair(cx, objects, LiveUses(cx, objects, rank, roots), st)
      ensures OneRole(LiveUses(cx, objects, rank, roots)) ==>
        Thorough(cx, objects, LiveUses(cx, objects, rank, roots), st) && st.seen == Live(cx, objects, rank, roots)
    {
      ReportMeans(cx, objects, rank, roots);
      ghost var all := LiveCommits(GraphOf(cx, objects), roots);
      RootsInside(GraphOf(cx, objects), roots);
      st := FsckWalk(roots, all);
    }

    method FsckWalk(roots: seq<Hash>, ghost all: set<Hash>) returns (st: Health)
      requires Valid() && Closed(GraphOf(cx, objects), all) && Elems(roots) <= all
      ensures st == CheckWalk(cx, objects, rank, all, roots, START)
    {
      var stack := roots;
      st := START;
      while stack != []
        invariant Elems(stack) <= all
        invariant CheckWalk(cx, objects, rank, all, stack, st) == CheckWalk(cx, objects, rank, all, roots, START)
        decreases all - st.seen, |stack|
      {
        var h := stack[|stack| - 1];
        assert h in Elems(stack);
        stack := stack[..|stack| - 1];
        if h in st.seen { continue; }
        assert forall p :: p in Parents(GraphOf(cx, objects), h) ==> p in all;
        var parents;
        st, parents := FsckCommit(h, st);
        stack := stack + parents;
      }
    }

    /** One commit, with everything below its tree; the walk goes on at its parents. */
    method FsckCommit(h: Hash, st0: Health) returns (st: Health, parents: seq<Hash>)
      requires Valid()
      ensures st == CheckCommit(cx, objects, rank, h, st0) && parents == Parents(GraphOf(cx, objects), h)
    {
      if h !in objects { return Lost(Visited(st0, h), NoCommit(h)), []; }
      st := CommitFound(st0, h, |objects[h]|);
      match cx.asCommit(objects[h]) {
        case None => return Lost(st, BadCommit(h)), [];
        case Some(c) =>
          st := FsckTree(c.tree, st);
          return st, c.parents;
      }
    }

    /** The loop of GC's walk, inside a set closed under parents. */
    method MarkFrom(roots: seq<Hash>, ghost all: set<Hash>) returns (marked: set<Hash>, ghost seen: set<Hash>)
      requires Valid() && Closed(GraphOf(cx, objects), all) && Elems(roots) <= all
      ensures seen <= all && Carries(GraphOf(cx, objects), roots, seen, [])
      ensures marked == AllHashes(cx, objects, rank, seen)
    {
      var stack, seenCommit: set<Hash> := roots, {};
      marked := {};
      while stack != []
        invariant seenCommit <= all && Elems(stack) <= all && Carries(GraphOf(cx, objects), roots, seenCommit, stack)
        invariant marked == AllHashes(cx, objects, rank, seenCommit)
        decreases all - seenCommit, |stack|
      {
        var h := stack[|stack| - 1];
        ghost var stack0 := stack;
        stack := stack[..|stack| - 1];
        assert stack0 == stack + [h] && h in Elems(stack0);
        if h in seenCommit {
          SkipSeen(GraphOf(cx, objects), roots, all, seenCommit, stack, h);
          continue;
        }
        CarryOn(GraphOf(cx, objects), roots, all, seenCommit, stack, h);
        OneMore(cx, objects, rank, seenCommit, h);
        seenCommit := seenCommit + {h};
        marked := MarkCommit(h, marked);
        stack := stack + Parents(GraphOf(cx, objects), h);
      }
      seen := seenCommit;
    }

    /** A commit with everything below its tree, if it can be read. */
    method MarkCommit(h: Hash, marked0: set<Hash>) returns (marked: set<Hash>)
      requires Valid()
      ensures marked == marked0 + CommitHashes(cx, objects, rank, h)
    {
      marked := marked0 + {h};
      if h in objects && cx.asCommit(objects[h]).Some? {
        marked := MarkTree(cx.asCommit(objects[h]).value.tree, marked);
      }
    }

    /** GC's walk: marks every reachable commit with everything below its tree. */
    method MarkLive(roots: seq<Hash>) returns (marked: set<Hash>)
      requires Valid()
      ensures marked == Live(cx, objects, rank, roots)
    {
      ghost var all := LiveCommits(GraphOf(cx, objects), roots);
      RootsInside(GraphOf(cx, objects), roots);
      ghost var seen;
      marked, seen := MarkFrom(roots, all);
      CarriedAll(GraphOf(cx, objects), roots, seen);
    }

    /**
      Adds the content address of every marked object; a key added on the way may be visited
      too, which adds nothing.
     */
    method MarkTwins(live: set<Hash>) returns (marked: set<Hash>)
      requires Valid() && Addressed(cx, objects)
      ensures marked == live + Twins(cx, objects, live)
    {
      marked := live;
      var left := live;
      ghost var visited, whole := {}, live + Twins(cx, objects, live);
      while left != {}
        invariant left !! visited && live <= marked == left + visited <= whole
        invariant Twins(cx, objects, live - left) <= marked
        decreases whole - visited
      {
        var h :| h in left;
        left := left - {h};
        visited := visited + {h};
        if h in objects {
          var t := cx.blobAddr(Front(objects[h]));
          TwinStays(cx, objects, live, h);
          if t !in marked {
            var again: bool := *;
            if again { left := left + {t}; } else { visited := visited + {t}; }
          }
          marked := marked + {t};
        }
      }
    }

    /** GC from the recorded tips. With `dryRun` it only counts. */
    method Collect(roots: seq<Hash>, dryRun: bool) returns (res: Collected)
      requires Valid() && Addressed(cx, objects)
      modifies this
      ensures Valid()
      ensures var left := Restrict(old(objects), Kept(cx, old(objects), rank, roots));
        && objects == (if dryRun then old(objects) else left)
        && res.examined == |old(objects)| && res.kept == |left| && res.removed == |old(objects)| - |left|
        && res.freed == Bytes(old(objects)) - Bytes(left)
    {
      var live := MarkLive(roots);
      var marked := MarkTwins(live);
      ghost var before := objects;
      res := Sweep(marked, dryRun);
      SweepEnd(before, marked, dryRun, objects, res);
    }

    /** Deletes what is not marked. */
    method Sweep(marked: set<Hash>, dryRun: bool) returns (res: Collected)
      requires Valid()
      modifies this
      ensures Valid()
      ensures Swept(old(objects), marked, {}, dryRun, objects, res)
    {
      ghost var before := objects;
      var left := objects.Keys;
      res := Collected(0, 0, 0, 0);
      SweepStart(before, marked, dryRun);
      while left != {}
        invariant left <= before.Keys && Swept(before, marked, left, dryRun, objects, res)
        decreases left
      {
        var h :| h in left;
        SweepTurn(before, marked, left, h, dryRun, objects, res);
        left := left - {h};
        res := res.(examined := res.examined + 1);
        if h in marked {
          res := res.(kept := res.kept + 1);
          continue;
        }
        res := res.(removed := res.removed + 1, freed := res.freed + |objects[h]|);
        if !dryRun {
          objects := objects - {h};
        }
      }
      assert forall h :: h in objects ==> Entries(cx, objects, h) == Entries(cx, before, h);
    }
  }

  /** The sweep with `left` still to visit. */
  ghost predicate Swept(before: Objects, marked: set<Hash>, left: set<Hash>, dryRun: bool, now: Objects,
                        res: Collected) {
    var rest := Restrict(before, marked + left);
    && now == (if dryRun then before else rest)
    && res.examined + |left| == |before| && res.examined == res.kept + res.removed
    && res.removed + |rest| == |before| && res.freed + Bytes(rest) == Bytes(before)
  }

  lemma SweepEnd(before: Objects, marked: set<Hash>, dryRun: bool, now: Objects, res: Collected)
    requires Swept(before, marked, {}, dryRun, now, res)
    ensures var rest := Restrict(before, marked);
      && now == (if dryRun then before else rest)
      && res.examined == |before| && res.kept == |rest| && res.removed == |before| - |rest|
        && res.freed == Bytes(before) - Bytes(rest)
  {
    assert marked + {} == marked;
  }

  lemma SweepStart(before: Objects, marked: set<Hash>, dryRun: bool)
    ensures Swept(before, marked, before.Keys, dryRun, before, Collected(0, 0, 0, 0))
  {
    assert Restrict(before, marked + before.Keys) == before;
    assert |before.Keys| == |before|;
  }

  lemma SweepTurn(before: Objects, marked: set<Hash>, left: set<Hash>, h: Hash, dryRun: bool, now: Objects,
                  res: Collected)
    requires h in left && left <= before.Keys && Swept(before, marked, left, dryRun, now, res)
    ensures h in marked ==> Swept(before, marked, left - {h}, dryRun, now,
        res.(examined := res.examined + 1, kept := res.kept + 1))
    ensures h !in marked ==>
      h in now && Swept(before, marked, left - {h}, dryRun, if dryRun then now else now - {h},
        res.(examined := res.examined + 1, removed := res.removed + 1, freed := res.freed + |now[h]|))
  {
    SweepOne(before, marked, left, h);
    assert |left - {h}| == |left| - 1;
  }

  /** Every address is that of its bytes, in one of the three domains, and no two domains or contents share one. */
  ghost predicate Addressed(cx: Codec, o: Objects) {
    && (forall h :: h in o ==> h == cx.blobAddr(o[h]) || h == cx.treeAddr(o[h]) || h == cx.commitAddr(o[h]))
    && (forall x, y :: cx.blobAddr(x) == cx.blobAddr(y) ==> x == y)
    && (forall x, y :: cx.blobAddr(x) != cx.treeAddr(y) && cx.blobAddr(x) != cx.commitAddr(y))
  }

  /** A stored twin holds the bytes that were read, so it is its own twin. */
  lemma TwinStays(cx: Codec, o: Objects, live: set<Hash>, h: Hash)
    requires Addressed(cx, o) && h in live + Twins(cx, o, live) && h in o
    ensures cx.blobAddr(Front(o[h])) in Twins(cx, o, live)
  {
    if h !in live {
      var x :| x in live && x in o && h == cx.blobAddr(Front(o[x]));
      assert o[h] == Front(o[x]);
    }
  }

  /** A work list over several tips that loses no parent. */
  ghost predicate Carries(g: Graph, roots: seq<Hash>, seen: set<Hash>, stack: seq<Hash>) {
    && (forall r :: r in roots ==> r in seen || r in stack)
    && (forall h, p :: h in seen && p in Parents(g, h) ==> p in seen || p in stack)
  }

  lemma CarryOn(g: Graph, roots: seq<Hash>, all: set<Hash>, seen: set<Hash>, stack: seq<Hash>, h: Hash)
    requires Carries(g, roots, seen, stack + [h]) && Closed(g, all) && Elems(stack + [h]) <= all
    ensures Carries(g, roots, seen + {h}, stack + Parents(g, h)) && Elems(stack + Parents(g, h)) <= all
  {
    assert h in stack + [h] && h in all;
    assert forall x :: x in stack ==> x in Elems(stack + [h]);
    assert forall x :: x in stack + [h] <==> x in stack || x == h;
  }

  lemma SkipSeen(g: Graph, roots: seq<Hash>, all: set<Hash>, seen: set<Hash>, stack: seq<Hash>, h: Hash)
    requires Carries(g, roots, seen, stack + [h]) && h in seen && Elems(stack + [h]) <= all
    ensures Carries(g, roots, seen, stack) && Elems(stack) <= all
  {
    assert forall x :: x in stack + [h] <==> x in stack || x == h;
    assert forall x :: x in stack ==> x in Elems(stack + [h]);
  }

  lemma CarriedAll(g: Graph, roots: seq<Hash>, seen: set<Hash>)
    requires Carries(g, roots, seen, []) && seen <= LiveCommits(g, roots)
    ensures seen == LiveCommits(g, roots)
  {
    forall r | r in roots
      ensures Anc(g, r) <= seen
    {
      AncLeast(g, r, seen);
    }
  }

  lemma OneMore(cx: Codec, o: Objects, rank: Hash -> nat, commits: set<Hash>, c: Hash)
    requires Grounded(cx, o, rank)
    ensures AllHashes(cx, o, rank, commits + {c}) == AllHashes(cx, o, rank, commits) + CommitHashes(cx, o, rank, c)
  {
  }

  // ---------- Counting ----------

  lemma {:induction false} BytesWithout(o: Objects, h: Hash)
    requires h in o
    ensures Bytes(o) == |o[h]| + Bytes(o - {h})
    decreases |o|
  {
    var x :| x in o && Bytes(o) == |o[x]| + Bytes(o - {x});
    if x != h {
      BytesWithout(o - {x}, h);
      BytesWithout(o - {h}, x);
      assert o - {x} - {h} == o - {h} - {x};
    }
  }

  lemma SweepOne(o: Objects, s: set<Hash>, left: set<Hash>, h: Hash)
    requires h in left && left <= o.Keys
    ensures h in s ==> Restrict(o, s + (left - {h})) == Restrict(o, s + left)
    ensures h !in s ==>
      var r, r' := Restrict(o, s + left), Restrict(o, s + (left - {h}));
      r' == r - {h} && |r'| == |r| - 1 && Bytes(r) == Bytes(r') + |o[h]| && h in r && r[h] == o[h]
  {
    if h in s {
      assert s + (left - {h}) == s + left;
    } else {
      var r, r' := Restrict(o, s + left), Restrict(o, s + (left - {h}));
      assert r' == r - {h};
      assert r'.Keys == r.Keys - {h};
      assert |r'.Keys| == |r'| && |r.Keys| == |r|;
      BytesWithout(r, h);
    }
  }

  ghost function Below(cx: Codec, o: Objects, rank: Hash -> nat, h: Hash, es: seq<Entry>): set<Hash>
    requires Grounded(cx, o, rank) && forall e :: e in es ==> e in Entries(cx, o, h)
  {
    set e, x | e in es && x in EntryHashes(cx, o, rank, h, e) :: x
  }

  lemma BelowGrows(cx: Codec, o: Objects, rank: Hash -> nat, h: Hash, i: nat)
    requires Grounded(cx, o, rank) && i < |Entries(cx, o, h)|
    ensures var es := Entries(cx, o, h);
            Below(cx, o, rank, h, es[..i + 1]) == Below(cx, o, rank, h, es[..i]) + EntryHashes(cx, o, rank, h, es[i])
  {
    var es := Entries(cx, o, h);
    assert es[..i + 1] == es[..i] + [es[i]];
  }
}
