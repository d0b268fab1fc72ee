/**
  Merkle trees from flat maps and back (internal/sync/tree.go, internal/merkle/merkle.go):
  BuildTreeFromMap writes one tree object for each directory, Flatten reads them back.
*/
module Tree {
  import opened Dag
  import opened DagWalk
  import opened Merge
  import opened Paths
  import opened Text

  /** An entry of a tree object: a file with its content hash, or a directory with its tree's address. */
  datatype Entry = File(name: string, hash: string) | Dir(name: string, tree: Hash)

  type Objects = map<Hash, seq<Entry>>

  // ---------- Paths under a directory ----------

  function JoinPath(prefix: string, p: string): string {
    if prefix == "" then p else prefix + "/" + p
  }

  predicate HasPrefix(s: string, t: string) {
    |t| <= |s| && s[..|t|] == t
  }

  /** The paths of `m` below a directory, relative to it. */
  function Below(m: FlatMap, prefix: string): (below: set<string>)
    ensures forall p :: p in below <==> JoinPath(prefix, p) in m
  {
    if prefix == "" then m.Keys
    else
      var cut := set p | p in m && HasPrefix(p, prefix + "/") :: p[|prefix| + 1..];
      assert forall p {:trigger p in cut} :: prefix + "/" + p in m ==>
        HasPrefix(prefix + "/" + p, prefix + "/") && (prefix + "/" + p)[|prefix| + 1..] == p;
      set p | p in cut && JoinPath(prefix, p) in m
  }

  /** What a flat map holds below a directory, with paths relative to it. */
  function Under(m: FlatMap, prefix: string): FlatMap {
    map p | p in Below(m, prefix) :: m[JoinPath(prefix, p)]
  }

  /** The first segment of a path with a slash. */
  function Top(p: string): string {
    var i := Index(p, '/');
    if i < 0 then p else p[..i]
  }

  /** The directories that the paths of `m` start with. */
  function Tops(m: FlatMap): set<string> {
    TopsOf(m.Keys)
  }

  function TopsOf(paths: set<string>): set<string> {
    set p | p in paths && '/' in p :: Top(p)
  }

  lemma TopsGrow(paths: set<string>, p: string)
    ensures TopsOf(paths + {p}) == if '/' in p then TopsOf(paths) + {Top(p)} else TopsOf(paths)
  {
    forall s
      ensures s in TopsOf(paths + {p}) <==> s in TopsOf(paths) || ('/' in p && s == Top(p))
    {
      if s in TopsOf(paths) {
        var q :| q in paths && '/' in q && Top(q) == s;
        assert q in paths + {p};
      }
      if '/' in p && s == Top(p) { assert p in paths + {p}; }
    }
  }

  lemma UnderHolds(m: FlatMap, prefix: string, p: string)
    ensures p in Under(m, prefix) <==> JoinPath(prefix, p) in m
    ensures p in Under(m, prefix) ==> Under(m, prefix)[p] == m[JoinPath(prefix, p)]
  {
  }

  lemma JoinDown(prefix: string, s: string, p: string)
    requires s != ""
    ensures JoinPath(JoinPath(prefix, s), p) == JoinPath(prefix, JoinPath(s, p))
  {
    assert prefix + "/" + s + "/" + p == prefix + "/" + (s + "/" + p);
  }

  lemma UnderUnder(m: FlatMap, prefix: string, s: string)
    requires s != ""
    ensures Under(m, JoinPath(prefix, s)) == Under(Under(m, prefix), s)
  {
    forall p
      ensures JoinPath(JoinPath(prefix, s), p) == JoinPath(prefix, JoinPath(s, p))
    {
      JoinDown(prefix, s, p);
    }
  }

  /** A path with a slash is its first segment and a path below that directory. */
  lemma TopSplits(m: FlatMap, p: string)
    requires p in m && '/' in p && CleanTreePath(p)
    ensures Top(p) in Tops(m) && Segment(Top(p)) && '/' !in Top(p)
    ensures var q := p[|Top(p)| + 1..]; p == Top(p) + "/" + q && q in Under(m, Top(p)) && Under(m, Top(p))[q] == m[p]
  {
    CleanCut(p);
    var i := Index(p, '/');
    assert p == p[..i] + "/" + p[i + 1..];
    UnderHolds(m, Top(p), p[i + 1..]);
  }

  lemma TopOfJoined(s: string, q: string)
    requires '/' !in s
    ensures '/' in s + "/" + q && Top(s + "/" + q) == s
  {
    var p := s + "/" + q;
    assert p[|s|] == '/' && forall k :: 0 <= k < |s| ==> p[k] == s[k] && s[k] in s;
    assert p[..|s|] == s;
  }

  lemma UnderClean(m: FlatMap, s: string)
    requires CleanTreePaths(m.Keys) && s in Tops(m)
    ensures s != "" && '/' !in s && CleanTreePaths(Under(m, s).Keys) && Under(m, s) != map[]
  {
    var p :| p in m && '/' in p && Top(p) == s;
    TopSplits(m, p);
    forall q | q in Under(m, s)
      ensures CleanTreePath(q)
    {
      UnderHolds(m, s, q);
      TopOfJoined(s, q);
      var j := s + "/" + q;
      CleanCut(j);
      assert j[|s| + 1..] == q && Index(j, '/') == |s|;
    }
  }

  predicate AllShort(m: FlatMap, d: nat) {
    forall p :: p in m ==> |p| <= d
  }

  lemma UnderShort(m: FlatMap, s: string, d: nat)
    requires AllShort(m, d) && s in Tops(m) && s != ""
    ensures d > 0 && AllShort(Under(m, s), d - 1)
  {
    var p :| p in m && '/' in p && Top(p) == s;
    forall q | q in Under(m, s)
      ensures |q| <= d - 1
    {
      UnderHolds(m, s, q);
    }
  }

  // ---------- Trees of a map ----------

  /**
    The entries at one level: exactly the files of `m`, and directories, all of `dirs`
    among them, with the trees below.
   */
  ghost predicate Level(trees: Objects, es: seq<Entry>, m: FlatMap, dirs: set<string>, d: nat)
    decreases d, 2
  {
    && (forall e {:trigger Fits(trees, e, m, d)} :: e in es ==> Fits(trees, e, m, d))
    && (forall p {:trigger m[p]} :: p in m && '/' !in p ==> File(p, m[p]) in es)
    && (forall s {:trigger HasDir(es, s)} :: s in dirs ==> HasDir(es, s))
    && Distinct(es)
  }

  ghost predicate HasDir(es: seq<Entry>, s: string) {
    exists t :: Dir(s, t) in es
  }

  ghost predicate Fits(trees: Objects, e: Entry, m: FlatMap, d: nat)
    decreases d, 1
  {
    match e
    case File(n, x) => '/' !in n && n in m && m[n] == x
    case Dir(n, t) => n != "" && n in Tops(m) && d > 0 && IsTree(trees, t, Under(m, n), d - 1)
  }

  /** No two entries of one kind share a name. */
  ghost predicate Distinct(es: seq<Entry>) {
    forall i, j :: 0 <= i < j < |es| && es[i].name == es[j].name ==> es[i].File? != es[j].File?
  }

  ghost predicate Sorted(es: seq<Entry>) {
    forall i, j :: 0 <= i < j < |es| ==> !Less(es[j].name, es[i].name)
  }

  /** The tree stored at `h` spells the map `m`, whose paths are at most `d` long. */
  ghost predicate IsTree(trees: Objects, h: Hash, m: FlatMap, d: nat)
    decreases d, 3
  {
    && h != NIL && h in trees && AllShort(m, d)
    && Level(trees, trees[h], m, Tops(m), d) && Sorted(trees[h])
  }

  /** Below a directory entry stands the tree of the map below that directory. */
  lemma SubTree(trees: Objects, e: Entry, m: FlatMap, d: nat) returns (sub: FlatMap)
    requires e.Dir? && Fits(trees, e, m, d) && CleanTreePaths(m.Keys)
    ensures d > 0 && IsTree(trees, e.tree, sub, d - 1)
    ensures sub == Under(m, e.name) && CleanTreePaths(sub.Keys)
  {
    sub := Under(m, e.name);
    UnderClean(m, e.name);
  }

  ghost predicate Extends(before: Objects, after: Objects) {
    forall h :: h in before ==> h in after && after[h] == before[h]
  }

  /** The tree stored at `h` spells `m`. */
  ghost predicate Spells(trees: Objects, h: Hash, m: FlatMap) {
    exists d: nat :: IsTree(trees, h, m, d)
  }

  /** The nesting is bounded by the length of the paths. */
  lemma {:induction false} SpellsShort(trees: Objects, h: Hash, m: FlatMap, d: nat)
    requires Spells(trees, h, m) && AllShort(m, d)
    ensures IsTree(trees, h, m, d)
    decreases d, 3
  {
    var d': nat :| IsTree(trees, h, m, d');
    IsTreeShort(trees, h, m, d', d);
  }

  lemma {:induction false} IsTreeShort(trees: Objects, h: Hash, m: FlatMap, d': nat, d: nat)
    requires IsTree(trees, h, m, d') && AllShort(m, d)
    ensures IsTree(trees, h, m, d)
    decreases d, 2
  {
    forall e | e in trees[h]
      ensures Fits(trees, e, m, d)
    {
      FitsShort(trees, e, m, d', d);
    }
  }

  lemma DirFits(trees: Objects, e: Entry, m: FlatMap, sub: FlatMap, d: nat)
    requires e.Dir? && sub == Under(m, e.name)
    ensures Fits(trees, e, m, d) <==> e.name != "" && e.name in Tops(m) && d > 0 && IsTree(trees, e.tree, sub, d - 1)
    ensures Fits(trees, e, m, d) ==> Spells(trees, e.tree, sub)
  {
  }

  lemma {:induction false} FitsShort(trees: Objects, e: Entry, m: FlatMap, d': nat, d: nat)
    requires Fits(trees, e, m, d') && AllShort(m, d)
    ensures Fits(trees, e, m, d)
    decreases d, 1
  {
    if e.Dir? {
      var sub := Under(m, e.name);
      DirFits(trees, e, m, sub, d');
      SpelledFits(trees, e, m, sub, d);
    }
  }

  lemma {:induction false} SpelledFits(trees: Objects, e: Entry, m: FlatMap, sub: FlatMap, d: nat)
    requires e.Dir? && e.name != "" && e.name in Tops(m) && sub == Under(m, e.name) && Spells(trees, e.tree, sub)
      && AllShort(m, d)
    ensures Fits(trees, e, m, d)
    decreases d, 0
  {
    UnderShort(m, e.name, d);
    SpellsShort(trees, e.tree, sub, d - 1);
    DirFits(trees, e, m, sub, d);
  }

  lemma {:induction false} IsTreeStays(trees: Objects, trees': Objects, h: Hash, m: FlatMap, d: nat)
    requires Extends(trees, trees') && IsTree(trees, h, m, d)
    ensures IsTree(trees', h, m, d)
    decreases d
  {
    forall e | e in trees[h]
      ensures Fits(trees', e, m, d)
    {
      FitsStays(trees, trees', e, m, d);
    }
  }

  lemma {:induction false} FitsStays(trees: Objects, trees': Objects, e: Entry, m: FlatMap, d: nat)
    requires Extends(trees, trees') && Fits(trees, e, m, d)
    ensures Fits(trees', e, m, d)
    decreases d, 0
  {
    if e.Dir? {
      IsTreeStays(trees, trees', e.tree, Under(m, e.name), d - 1);
    }
  }

  // ---------- Flatten ----------

  /** The directories below `h` nest at most `d` deep; content addresses admit no cycles. */
  ghost predicate Nested(trees: Objects, h: Hash, d: nat)
    decreases d
  {
    h != NIL && h in trees ==>
      forall e :: e in trees[h] && e.Dir? ==> d > 0 && Nested(trees, e.tree, d - 1)
  }

  /** Flatten over a whole tree, adding to `out`. */
  ghost function Flat(trees: Objects, h: Hash, prefix: string, out: FlatMap, d: nat): Result<FlatMap>
    requires Nested(trees, h, d)
    decreases d, 1, 0
  {
    if h == NIL then Ok(out)
    else if h !in trees then Err("no such tree")
    else FlatEntries(trees, trees[h], prefix, out, d)
  }

  ghost function FlatEntries(trees: Objects, es: seq<Entry>, prefix: string, out: FlatMap, d: nat): Result<FlatMap>
    requires forall e :: e in es && e.Dir? ==> d > 0 && Nested(trees, e.tree, d - 1)
    decreases d, 0, |es|
  {
    if es == [] then Ok(out)
    else
      match FlatEntry(trees, es[0], prefix, out, d)
      case Ok(out1) => FlatEntries(trees, es[1..], prefix, out1, d)
      case Err(x) => Err(x)
  }

  ghost function FlatEntry(trees: Objects, e: Entry, prefix: string, out: FlatMap, d: nat): Result<FlatMap>
    requires e.Dir? ==> d > 0 && Nested(trees, e.tree, d - 1)
    decreases d, 0, 0
  {
    match e
    case File(n, x) => Ok(out[JoinPath(prefix, n) := x])
    case Dir(n, t) => Flat(trees, t, JoinPath(prefix, n), out, d - 1)
  }

  // ---------- Flattening a built tree gives the map back ----------

  lemma JoinInjective(prefix: string, p: string, q: string)
    requires JoinPath(prefix, p) == JoinPath(prefix, q)
    ensures p == q
  {
    if prefix != "" {
      assert p == JoinPath(prefix, p)[|prefix| + 1..];
      assert q == JoinPath(prefix, q)[|prefix| + 1..];
    }
  }

  ghost predicate Covers(es: seq<Entry>, p: string) {
    exists e :: e in es && e.name == Top(p) && (e.Dir? <==> '/' in p)
  }

  ghost predicate Written(m: FlatMap, prefix: string, k: string, v: string) {
    exists p :: p in m && k == JoinPath(prefix, p) && v == m[p]
  }

  /** `out` grew by paths of `m` with their hashes, at least those that `es` covers. */
  ghost predicate Filled(es: seq<Entry>, m: FlatMap, prefix: string, before: FlatMap, after: FlatMap) {
    && (forall p :: p in m && Covers(es, p) ==> JoinPath(prefix, p) in after && after[JoinPath(prefix, p)] == m[p])
    && (forall k :: k in before ==> k in after)
    && (forall k :: k in after ==> (k in before && after[k] == before[k]) || Written(m, prefix, k, after[k]))
  }

  lemma FilledTrans(es: seq<Entry>, m: FlatMap, prefix: string, before: FlatMap, mid: FlatMap, after: FlatMap)
    requires es != [] && Filled([es[0]], m, prefix, before, mid) && Filled(es[1..], m, prefix, mid, after)
    ensures Filled(es, m, prefix, before, after)
  {
    forall p | p in m && Covers(es, p)
      ensures JoinPath(prefix, p) in after && after[JoinPath(prefix, p)] == m[p]
    {
      var k := JoinPath(prefix, p);
      var e :| e in es && e.name == Top(p) && (e.Dir? <==> '/' in p);
      if e == es[0] {
        assert e in [es[0]] && Covers([es[0]], p);
        if after[k] != mid[k] {
          var q :| q in m && k == JoinPath(prefix, q) && after[k] == m[q];
          JoinInjective(prefix, p, q);
        }
      } else {
        assert e in es[1..] && Covers(es[1..], p);
      }
    }
  }

  lemma {:induction false} FlatTree(trees: Objects, h: Hash, m: FlatMap, prefix: string, before: FlatMap, d: nat)
    requires IsTree(trees, h, m, d) && CleanTreePaths(m.Keys)
    ensures Nested(trees, h, d) && Flat(trees, h, prefix, before, d).Ok?
    ensures Filled(trees[h], m, prefix, before, Flat(trees, h, prefix, before, d).value)
    decreases d, 2, 0
  {
    var es := trees[h];
    FlatLevel(trees, es, m, prefix, before, d);
  }

  lemma {:induction false} FlatLevel(trees: Objects, es: seq<Entry>, m: FlatMap, prefix: string, before: FlatMap,
                                     d: nat)
    requires forall e :: e in es ==> Fits(trees, e, m, d)
    requires CleanTreePaths(m.Keys)
    ensures forall e :: e in es && e.Dir? ==> d > 0 && Nested(trees, e.tree, d - 1)
    ensures FlatEntries(trees, es, prefix, before, d).Ok?
    ensures Filled(es, m, prefix, before, FlatEntries(trees, es, prefix, before, d).value)
    decreases d, 1, |es|
  {
    if es != [] {
      FlatOne(trees, es[0], m, prefix, before, d);
      var mid := FlatEntry(trees, es[0], prefix, before, d).value;
      FlatLevel(trees, es[1..], m, prefix, mid, d);
      FilledTrans(es, m, prefix, before, mid, FlatEntries(trees, es[1..], prefix, mid, d).value);
    }
  }

  lemma {:induction false} FlatOne(trees: Objects, e: Entry, m: FlatMap, prefix: string, before: FlatMap, d: nat)
    requires Fits(trees, e, m, d) && CleanTreePaths(m.Keys)
    ensures e.Dir? ==> d > 0 && Nested(trees, e.tree, d - 1)
    ensures FlatEntry(trees, e, prefix, before, d).Ok?
    ensures Filled([e], m, prefix, before, FlatEntry(trees, e, prefix, before, d).value)
    decreases d, 0, 0
  {
    match e
    case File(n, x) =>
      FilledByFile(m, n, prefix, before);
    case Dir(n, t) =>
      var sub := SubTree(trees, e, m, d);
      FlatTree(trees, t, sub, JoinPath(prefix, n), before, d - 1);
      TreeCovers(trees, t, sub, d - 1);
      FilledUp(trees[t], e, m, prefix, before, Flat(trees, t, JoinPath(prefix, n), before, d - 1).value);
  }

  lemma TreeCovers(trees: Objects, h: Hash, m: FlatMap, d: nat)
    requires IsTree(trees, h, m, d) && CleanTreePaths(m.Keys)
    ensures forall p :: p in m ==> Covers(trees[h], p)
  {
    forall p | p in m
      ensures Covers(trees[h], p)
    {
      AllCovered(trees, h, m, d, p);
    }
  }

  lemma FilledByFile(m: FlatMap, n: string, prefix: string, before: FlatMap)
    requires n in m
    ensures Filled([File(n, m[n])], m, prefix, before, before[JoinPath(prefix, n) := m[n]])
  {
    assert Written(m, prefix, JoinPath(prefix, n), m[n]);
    assert forall p :: Covers([File(n, m[n])], p) ==> p == n;
  }

  /** What a directory's tree filled, seen from the level above. */
  lemma FilledUp(es: seq<Entry>, e: Entry, m: FlatMap, prefix: string, before: FlatMap, after: FlatMap)
    requires e.Dir? && e.name in Tops(m) && CleanTreePaths(m.Keys)
    requires forall q :: q in Under(m, e.name) ==> Covers(es, q)
    requires Filled(es, Under(m, e.name), JoinPath(prefix, e.name), before, after)
    ensures Filled([e], m, prefix, before, after)
  {
    var n, sub := e.name, Under(m, e.name);
    UnderClean(m, n);
    forall p | p in m && Covers([e], p)
      ensures JoinPath(prefix, p) in after && after[JoinPath(prefix, p)] == m[p]
    {
      TopSplits(m, p);
      JoinDown(prefix, n, p[|n| + 1..]);
    }
    forall k | k in after && !(k in before && after[k] == before[k])
      ensures Written(m, prefix, k, after[k])
    {
      WrittenUp(m, n, prefix, k, after[k]);
    }
  }

  lemma WrittenUp(m: FlatMap, n: string, prefix: string, k: string, v: string)
    requires n != "" && Written(Under(m, n), JoinPath(prefix, n), k, v)
    ensures Written(m, prefix, k, v)
  {
    var q :| q in Under(m, n) && k == JoinPath(JoinPath(prefix, n), q) && v == Under(m, n)[q];
    UnderHolds(m, n, q);
    JoinDown(prefix, n, q);
  }

  lemma AllCovered(trees: Objects, h: Hash, m: FlatMap, d: nat, p: string)
    requires IsTree(trees, h, m, d) && p in m && CleanTreePath(p)
    ensures Covers(trees[h], p)
  {
    if '/' in p {
      TopSplits(m, p);
      assert HasDir(trees[h], Top(p));
      var t :| Dir(Top(p), t) in trees[h];
    } else {
      assert File(p, m[p]) in trees[h];
    }
  }

  /** How deep a walk is known to end does not change what it finds. */
  lemma {:induction false} FlatDepth(trees: Objects, h: Hash, prefix: string, before: FlatMap, d1: nat, d2: nat)
    requires Nested(trees, h, d1) && Nested(trees, h, d2)
    ensures Flat(trees, h, prefix, before, d1) == Flat(trees, h, prefix, before, d2)
    decreases d1, 1, 0
  {
    if h != NIL && h in trees {
      FlatEntriesDepth(trees, trees[h], prefix, before, d1, d2);
    }
  }

  lemma {:induction false} FlatEntriesDepth(trees: Objects, es: seq<Entry>, prefix: string, before: FlatMap, d1: nat,
                                            d2: nat)
    requires forall e :: e in es && e.Dir? ==>
      d1 > 0 && Nested(trees, e.tree, d1 - 1) && d2 > 0 && Nested(trees, e.tree, d2 - 1)
    ensures FlatEntries(trees, es, prefix, before, d1) == FlatEntries(trees, es, prefix, before, d2)
    decreases d1, 0, |es|
  {
    if es != [] {
      assert es[0] in es;
      if es[0].Dir? {
        FlatDepth(trees, es[0].tree, JoinPath(prefix, es[0].name), before, d1 - 1, d2 - 1);
      }
      match FlatEntry(trees, es[0], prefix, before, d1)
      case Ok(mid) => FlatEntriesDepth(trees, es[1..], prefix, mid, d1, d2);
      case Err(_) =>
    }
  }

  /** Flatten of a tree that spells `m` is `m`, a file "a" beside a directory "a" included. */
  lemma FlattenBuilt(trees: Objects, h: Hash, m: FlatMap, d: nat)
    requires Spells(trees, h, m) && CleanTreePaths(m.Keys) && Nested(trees, h, d)
    ensures Flat(trees, h, "", map[], d) == Ok(m)
  {
    var d': nat :| IsTree(trees, h, m, d');
    FlattenAt(trees, h, m, d');
    FlatDepth(trees, h, "", map[], d, d');
  }

  lemma FlattenAt(trees: Objects, h: Hash, m: FlatMap, d: nat)
    requires IsTree(trees, h, m, d) && CleanTreePaths(m.Keys)
    ensures Nested(trees, h, d) && Flat(trees, h, "", map[], d) == Ok(m)
  {
    FlatTree(trees, h, m, "", map[], d);
    var r := Flat(trees, h, "", map[], d).value;
    forall p
      ensures p in r <==> p in m
      ensures p in m ==> r[p] == m[p]
    {
      if p in m { AllCovered(trees, h, m, d, p); assert JoinPath("", p) == p; }
      if p in r { assert Written(m, "", p, r[p]); }
    }
    assert r == m;
  }

  // ---------- Roots and maps ----------

  ghost predicate IdealAddress(addr: seq<Entry> -> Hash) {
    && (forall x, y :: addr(x) == addr(y) ==> x == y)
    && (forall x :: addr(x) != NIL)
  }

  ghost predicate Addressed(trees: Objects, addr: seq<Entry> -> Hash) {
    forall h :: h in trees ==> addr(trees[h]) == h
  }

  /** Two stores hold the same object at every address they share. */
  ghost predicate Agree(trees1: Objects, trees2: Objects) {
    forall h :: h in trees1 && h in trees2 ==> trees1[h] == trees2[h]
  }

  /** Equal roots mean equal maps, also between stores. */
  lemma RootIsMap(addr: seq<Entry> -> Hash, trees1: Objects, trees2: Objects, h: Hash, m1: FlatMap, m2: FlatMap)
    requires IdealAddress(addr) && Addressed(trees1, addr) && Addressed(trees2, addr)
    requires Spells(trees1, h, m1) && Spells(trees2, h, m2)
    requires CleanTreePaths(m1.Keys) && CleanTreePaths(m2.Keys)
    ensures m1 == m2
  {
    var d: nat :| IsTree(trees1, h, m1, d);
    SameRootSameMap(trees1, trees2, h, m1, m2, d);
  }

  /**
    Whatever order equal names are left in, equal maps mean equal roots: exactly when no path
    is also a directory.
   */
  lemma MapIsRoot(addr: seq<Entry> -> Hash, trees: Objects, h: Hash, m: FlatMap)
    requires IdealAddress(addr) && Addressed(trees, addr) && Spells(trees, h, m) && CleanTreePaths(m.Keys)
    ensures NoClash(m) <==> forall trees', h' :: Addressed(trees', addr) && Spells(trees', h', m) ==> h' == h
  {
    if NoClash(m) {
      forall trees', h' | Addressed(trees', addr) && Spells(trees', h', m)
        ensures h' == h
      {
        var d: nat :| IsTree(trees, h, m, d);
        SameMapSameRoot(addr, trees', trees, h', h, m, d);
      }
    } else {
      var p, q :| p in m && q in m && HasPrefix(q, p + "/");
      var trees', h' := ClashTwoRoots(addr, trees, h, m, p, q);
    }
  }

  lemma {:induction false} SameRootSameMap(trees1: Objects, trees2: Objects, h: Hash, m1: FlatMap, m2: FlatMap, d: nat)
    requires Agree(trees1, trees2) && Spells(trees1, h, m1) && Spells(trees2, h, m2) && AllShort(m1, d)
    requires CleanTreePaths(m1.Keys) && CleanTreePaths(m2.Keys)
    ensures m1 == m2
    decreases d
  {
    assert trees2[h] == trees1[h];
    forall e | e in trees1[h] && e.Dir?
      ensures Under(m1, e.name) == Under(m2, e.name)
    {
      DirSpells(trees1, h, m1, e);
      DirSpells(trees2, h, m2, e);
      UnderClean(m1, e.name);
      UnderClean(m2, e.name);
      UnderShort(m1, e.name, d);
      SameRootSameMap(trees1, trees2, e.tree, Under(m1, e.name), Under(m2, e.name), d - 1);
    }
    RootHolds(trees1, trees2, h, m1, m2);
    RootHolds(trees2, trees1, h, m2, m1);
  }

  /** Below a directory entry stands a tree that spells what is below that directory. */
  lemma DirSpells(trees: Objects, h: Hash, m: FlatMap, e: Entry)
    requires Spells(trees, h, m) && e in trees[h] && e.Dir?
    ensures e.name in Tops(m) && Spells(trees, e.tree, Under(m, e.name))
  {
    var d: nat :| IsTree(trees, h, m, d);
    DirStands(trees, h, m, d, e);
  }

  lemma DirStands(trees: Objects, h: Hash, m: FlatMap, d: nat, e: Entry)
    requires IsTree(trees, h, m, d) && e in trees[h] && e.Dir?
    ensures e.name in Tops(m) && d > 0 && IsTree(trees, e.tree, Under(m, e.name), d - 1)
  {
    assert Fits(trees, e, m, d);
  }

  lemma RootHolds(trees1: Objects, trees2: Objects, h: Hash, m1: FlatMap, m2: FlatMap)
    requires Spells(trees1, h, m1) && Spells(trees2, h, m2) && trees1[h] == trees2[h]
    requires CleanTreePaths(m1.Keys)
    requires forall e :: e in trees1[h] && e.Dir? ==> Under(m1, e.name) == Under(m2, e.name)
    ensures forall p :: p in m1 ==> p in m2 && m1[p] == m2[p]
  {
    var d1: nat :| IsTree(trees1, h, m1, d1);
    var d2: nat :| IsTree(trees2, h, m2, d2);
    forall p | p in m1
      ensures p in m2 && m1[p] == m2[p]
    {
      PathHolds(trees1, trees2, h, m1, m2, d1, d2, p);
    }
  }

  lemma PathHolds(trees1: Objects, trees2: Objects, h: Hash, m1: FlatMap, m2: FlatMap, d1: nat, d2: nat, p: string)
    requires IsTree(trees1, h, m1, d1) && IsTree(trees2, h, m2, d2) && trees1[h] == trees2[h]
    requires CleanTreePaths(m1.Keys) && p in m1
    requires forall e :: e in trees1[h] && e.Dir? ==> Under(m1, e.name) == Under(m2, e.name)
    ensures p in m2 && m1[p] == m2[p]
  {
    AllCovered(trees1, h, m1, d1, p);
    var e :| e in trees1[h] && e.name == Top(p) && (e.Dir? <==> '/' in p);
    if '/' in p {
      TopSplits(m1, p);
      UnderSame(m1, m2, e.name, p);
    } else {
      assert Fits(trees1, e, m1, d1) && Fits(trees2, e, m2, d2);
    }
  }

  lemma UnderSame(m1: FlatMap, m2: FlatMap, n: string, p: string)
    requires n != "" && Under(m1, n) == Under(m2, n) && |p| > |n| && p == n + "/" + p[|n| + 1..]
    ensures p in m1 <==> p in m2
    ensures p in m1 ==> m1[p] == m2[p]
  {
    UnderHolds(m1, n, p[|n| + 1..]);
    UnderHolds(m2, n, p[|n| + 1..]);
  }

  /** No path is also a directory of another path. */
  ghost predicate NoClash(m: FlatMap) {
    forall p, q :: p in m && q in m ==> !HasPrefix(q, p + "/")
  }

  lemma NoClashUnder(m: FlatMap, n: string)
    requires NoClash(m) && n != ""
    ensures NoClash(Under(m, n))
  {
    forall p, q | p in Under(m, n) && q in Under(m, n)
      ensures !HasPrefix(q, p + "/")
    {
      UnderHolds(m, n, p);
      UnderHolds(m, n, q);
      PrefixBelow(n, p, q);
    }
  }

  lemma PrefixBelow(n: string, p: string, q: string)
    ensures HasPrefix(q, p + "/") ==> HasPrefix(JoinPath(n, q), JoinPath(n, p) + "/")
  {
    if HasPrefix(q, p + "/") && n != "" {
      assert n + "/" + q == n + "/" + p + "/" + q[|p| + 1..];
    }
  }

  lemma FileAndDirectory(m: FlatMap, n: string)
    requires CleanTreePaths(m.Keys) && n in m && n in Tops(m)
    ensures !NoClash(m)
  {
    var q :| q in m && '/' in q && Top(q) == n;
    TopSplits(m, q);
    assert HasPrefix(q, n + "/");
  }

  /** Without clashes, every name stands once. */
  lemma NamesOnce(trees: Objects, h: Hash, m: FlatMap, d: nat)
    requires IsTree(trees, h, m, d) && CleanTreePaths(m.Keys) && NoClash(m)
    ensures forall i, j :: 0 <= i < j < |trees[h]| ==> Less(trees[h][i].name, trees[h][j].name)
  {
    var es := trees[h];
    forall i, j | 0 <= i < j < |es|
      ensures Less(es[i].name, es[j].name)
    {
      LessTotal(es[i].name, es[j].name);
      if es[i].name == es[j].name {
        var n := es[i].name;
        assert Fits(trees, es[i], m, d) && Fits(trees, es[j], m, d);
        FileAndDirectory(m, n);
      }
    }
  }

  /** Strictly ordered entries are determined by which they are. */
  lemma {:induction false} EntriesUnique(x: seq<Entry>, y: seq<Entry>)
    requires forall i, j :: 0 <= i < j < |x| ==> Less(x[i].name, x[j].name)
    requires forall i, j :: 0 <= i < j < |y| ==> Less(y[i].name, y[j].name)
    requires forall e :: e in x <==> e in y
    ensures x == y
    decreases |x|
  {
    assert x != [] ==> x[0] in y;
    assert y != [] ==> y[0] in x;
    if x != [] {
      FirstEntry(x, y);
      LessTotal(x[0].name, x[0].name);
      assert forall k :: 1 <= k < |x| ==> x[k] != x[0];
      assert forall k :: 1 <= k < |y| ==> y[k] != y[0];
      assert forall e :: e in x <==> e == x[0] || e in x[1..];
      assert forall e :: e in y <==> e == y[0] || e in y[1..];
      EntriesUnique(x[1..], y[1..]);
      assert x == [x[0]] + x[1..] && y == [y[0]] + y[1..];
    }
  }

  lemma FirstEntry(x: seq<Entry>, y: seq<Entry>)
    requires x != [] && y != [] && x[0] in y && y[0] in x
    requires forall i, j :: 0 <= i < j < |x| ==> Less(x[i].name, x[j].name)
    requires forall i, j :: 0 <= i < j < |y| ==> Less(y[i].name, y[j].name)
    ensures x[0] == y[0]
  {
    var i :| 0 <= i < |y| && y[i] == x[0];
    var j :| 0 <= j < |x| && x[j] == y[0];
    LessTotal(x[0].name, y[0].name);
  }

  /** Without clashes, equal maps mean equal roots. */
  lemma {:induction false} SameMapSameRoot(addr: seq<Entry> -> Hash, trees1: Objects, trees2: Objects, h1: Hash,
                                           h2: Hash,
                                           m: FlatMap, d: nat)
    requires Addressed(trees1, addr) && Addressed(trees2, addr) && AllShort(m, d)
    requires Spells(trees1, h1, m) && Spells(trees2, h2, m)
    requires CleanTreePaths(m.Keys) && NoClash(m)
    ensures h1 == h2
    decreases d, 1
  {
    var x, y := trees1[h1], trees2[h2];
    SpelledOnce(trees1, h1, m);
    SpelledOnce(trees2, h2, m);
    forall e
      ensures e in x <==> e in y
    {
      if e.Dir? {
        SameDir(addr, trees1, trees2, h1, h2, m, d, e);
      }
    }
    EntriesUnique(x, y);
  }

  /** Without clashes a tree's entries have distinct names in order, and its files are the map's top level. */
  lemma SpelledOnce(trees: Objects, h: Hash, m: FlatMap)
    requires Spells(trees, h, m) && CleanTreePaths(m.Keys) && NoClash(m)
    ensures forall i, j :: 0 <= i < j < |trees[h]| ==> Less(trees[h][i].name, trees[h][j].name)
    ensures forall e :: e in trees[h] && e.Dir? ==> e.name in Tops(m)
    ensures forall n, x :: File(n, x) in trees[h] <==> '/' !in n && n in m && m[n] == x
  {
    var d: nat :| IsTree(trees, h, m, d);
    NamesOnce(trees, h, m, d);
    EntriesFit(trees, h, m, d);
  }

  lemma EntriesFit(trees: Objects, h: Hash, m: FlatMap, d: nat)
    requires IsTree(trees, h, m, d)
    ensures forall e :: e in trees[h] && e.Dir? ==> e.name in Tops(m)
    ensures forall n, x :: File(n, x) in trees[h] <==> '/' !in n && n in m && m[n] == x
  {
    assert forall e :: e in trees[h] ==> Fits(trees, e, m, d);
  }

  /** A directory listed by one of two trees of one map is listed by the other, as the same tree. */
  lemma {:induction false} SameDir(addr: seq<Entry> -> Hash, trees1: Objects, trees2: Objects, h1: Hash, h2: Hash,
                                   m: FlatMap, d: nat, e: Entry)
    requires Addressed(trees1, addr) && Addressed(trees2, addr) && AllShort(m, d)
    requires Spells(trees1, h1, m) && Spells(trees2, h2, m)
    requires CleanTreePaths(m.Keys) && NoClash(m) && e.Dir?
    requires forall e :: e in trees1[h1] && e.Dir? ==> e.name in Tops(m)
    requires forall e :: e in trees2[h2] && e.Dir? ==> e.name in Tops(m)
    ensures e in trees1[h1] <==> e in trees2[h2]
    decreases d, 0
  {
    if e in trees1[h1] || e in trees2[h2] {
      var t1 := DirOf(trees1, h1, m, e.name);
      var t2 := DirOf(trees2, h2, m, e.name);
      UnderClean(m, e.name);
      UnderShort(m, e.name, d);
      NoClashUnder(m, e.name);
      SameMapSameRoot(addr, trees1, trees2, t1, t2, Under(m, e.name), d - 1);
    }
  }

  /** The one directory entry of a name. */
  lemma DirOf(trees: Objects, h: Hash, m: FlatMap, name: string) returns (t: Hash)
    requires Spells(trees, h, m) && name in Tops(m)
    ensures Dir(name, t) in trees[h] && Spells(trees, t, Under(m, name))
    ensures forall u :: Dir(name, u) in trees[h] ==> u == t
  {
    var d: nat :| IsTree(trees, h, m, d);
    t := DirAt(trees, h, m, d, name);
  }

  lemma DirAt(trees: Objects, h: Hash, m: FlatMap, d: nat, name: string) returns (t: Hash)
    requires IsTree(trees, h, m, d) && name in Tops(m)
    ensures Dir(name, t) in trees[h] && d > 0 && IsTree(trees, t, Under(m, name), d - 1)
    ensures forall u :: Dir(name, u) in trees[h] ==> u == t
  {
    assert HasDir(trees[h], name);
    t :| Dir(name, t) in trees[h];
    assert Fits(trees, Dir(name, t), m, d);
    OneDir(trees[h], name, t);
  }

  lemma OneDir(es: seq<Entry>, name: string, t: Hash)
    requires Distinct(es) && Dir(name, t) in es
    ensures forall u :: Dir(name, u) in es ==> u == t
  {
    forall u | Dir(name, u) in es
      ensures u == t
    {
      var i :| 0 <= i < |es| && es[i] == Dir(name, t);
      var j :| 0 <= j < |es| && es[j] == Dir(name, u);
    }
  }

  /** Filing a finished level at its address. */
  lemma AddTree(addr: seq<Entry> -> Hash, trees: Objects, es: seq<Entry>, m: FlatMap, d: nat)
    requires IdealAddress(addr) && Addressed(trees, addr)
    requires Level(trees, es, m, Tops(m), d) && Sorted(es) && AllShort(m, d)
    ensures var trees' := trees[addr(es) := es];
            Extends(trees, trees') && Addressed(trees', addr) && IsTree(trees', addr(es), m, d)
  {
    var trees' := trees[addr(es) := es];
    forall e | e in es
      ensures Fits(trees', e, m, d)
    {
      assert Fits(trees, e, m, d);
      FitsStays(trees, trees', e, m, d);
    }
  }

  /** Two entries of one name change places. */
  lemma SwapEntries(trees: Objects, es: seq<Entry>, m: FlatMap, d: nat, i: nat, j: nat) returns (es': seq<Entry>)
    requires Level(trees, es, m, Tops(m), d) && Sorted(es)
    requires i < |es| && j < |es| && i != j && es[i].name == es[j].name
    ensures Level(trees, es', m, Tops(m), d) && Sorted(es') && es' != es
  {
    es' := es[i := es[j]][j := es[i]];
    assert es'[i] == es[j] && es'[j] == es[i] && forall k :: 0 <= k < |es| && k != i && k != j ==> es'[k] == es[k];
    assert forall e :: e in es <==> e in es';
    assert forall n :: HasDir(es', n) <==> HasDir(es, n);
    assert forall k :: 0 <= k < |es| ==> es'[k].name == es[k].name;
  }

  /** A directory entry gets another tree of the same map. */
  lemma ReplaceTree(trees: Objects, es: seq<Entry>, m: FlatMap, d: nat, i: nat, t: Hash) returns (es': seq<Entry>)
    requires Level(trees, es, m, Tops(m), d) && Sorted(es)
    requires i < |es| && es[i].Dir? && es[i].tree != t && Fits(trees, Dir(es[i].name, t), m, d)
    ensures Level(trees, es', m, Tops(m), d) && Sorted(es') && es' != es
  {
    es' := es[i := Dir(es[i].name, t)];
    assert forall k :: 0 <= k < |es| ==> es'[k].name == es[k].name && es'[k].File? == es[k].File?;
    forall n
      ensures HasDir(es', n) <==> HasDir(es, n)
    {
      if HasDir(es, n) {
        var x :| Dir(n, x) in es;
        var k :| 0 <= k < |es| && es[k] == Dir(n, x);
        assert es'[k] in es';
      }
      if HasDir(es', n) {
        var x :| Dir(n, x) in es';
        var k :| 0 <= k < |es| && es'[k] == Dir(n, x);
        assert es[k] in es && es[k] == Dir(n, es[k].tree);
      }
    }
    forall p | p in m && '/' !in p
      ensures File(p, m[p]) in es'
    {
      assert File(p, m[p]) in es;
      var k :| 0 <= k < |es| && es[k] == File(p, m[p]);
      assert es'[k] == es[k];
    }
  }

  lemma LevelStays(trees: Objects, trees': Objects, es: seq<Entry>, m: FlatMap, dirs: set<string>, d: nat)
    requires Extends(trees, trees') && Level(trees, es, m, dirs, d)
    ensures Level(trees', es, m, dirs, d)
  {
    forall e | e in es
      ensures Fits(trees', e, m, d)
    {
      assert Fits(trees, e, m, d);
      FitsStays(trees, trees', e, m, d);
    }
  }

  /**
    With a clash, the root is not determined by the map: entries of one name may be sorted
    either way, and both results are trees of the map under different addresses.
   */
  lemma {:induction false} ClashTwoRoots(addr: seq<Entry> -> Hash, trees: Objects, h: Hash, m: FlatMap, p: string,
                                         q: string)
    returns (trees': Objects, h': Hash)
    requires IdealAddress(addr) && Addressed(trees, addr)
    requires Spells(trees, h, m) && CleanTreePaths(m.Keys)
    requires p in m && q in m && HasPrefix(q, p + "/")
    ensures Extends(trees, trees') && Addressed(trees', addr) && Spells(trees', h', m) && h' != h
    decreases |p|
  {
    if '/' !in p {
      var d: nat :| IsTree(trees, h, m, d);
      var es := ClashHere(trees, h, m, d, p, q);
      trees', h' := FileTree(addr, trees, es, m, d);
    } else {
      TopSplits(m, p);
      ClashBelow(m, Top(p), p, q);
      var t, sub := TreeBelow(trees, h, m, Top(p));
      var p1, q1 := p[|Top(p)| + 1..], q[|Top(p)| + 1..];
      var t';
      trees', t' := ClashTwoRoots(addr, trees, t, sub, p1, q1);
      var es, d := OtherTree(trees, trees', h, m, Top(p), t, t', sub);
      trees', h' := FileTree(addr, trees', es, m, d);
    }
  }

  lemma FileTree(addr: seq<Entry> -> Hash, trees: Objects, es: seq<Entry>, m: FlatMap, d: nat)
    returns (trees': Objects, h: Hash)
    requires IdealAddress(addr) && Addressed(trees, addr)
    requires Level(trees, es, m, Tops(m), d) && Sorted(es) && AllShort(m, d)
    ensures Extends(trees, trees') && Addressed(trees', addr) && Spells(trees', h, m)
    ensures forall x :: x in trees && trees[x] != es ==> h != x
  {
    AddTree(addr, trees, es, m, d);
    trees', h := trees[addr(es) := es], addr(es);
  }

  lemma TreeBelow(trees: Objects, h: Hash, m: FlatMap, n: string) returns (t: Hash, sub: FlatMap)
    requires Spells(trees, h, m) && n in Tops(m) && CleanTreePaths(m.Keys)
    ensures h in trees && Dir(n, t) in trees[h] && sub == Under(m, n) && CleanTreePaths(sub.Keys)
      && Spells(trees, t, sub)
  {
    var d: nat :| IsTree(trees, h, m, d);
    t, sub := TreeBelowAt(trees, h, m, n, d);
  }

  lemma TreeBelowAt(trees: Objects, h: Hash, m: FlatMap, n: string, d: nat) returns (t: Hash, sub: FlatMap)
    requires IsTree(trees, h, m, d) && n in Tops(m) && CleanTreePaths(m.Keys)
    ensures Dir(n, t) in trees[h] && sub == Under(m, n) && CleanTreePaths(sub.Keys) && Spells(trees, t, sub)
  {
    assert HasDir(trees[h], n);
    t :| Dir(n, t) in trees[h];
    assert Fits(trees, Dir(n, t), m, d);
    sub := SubTree(trees, Dir(n, t), m, d);
  }

  lemma ClashHere(trees: Objects, h: Hash, m: FlatMap, d: nat, p: string, q: string) returns (es': seq<Entry>)
    requires IsTree(trees, h, m, d) && p in m && q in m && HasPrefix(q, p + "/") && '/' !in p
    ensures Level(trees, es', m, Tops(m), d) && Sorted(es') && es' != trees[h]
  {
    var es := trees[h];
    assert q == p + "/" + q[|p| + 1..];
    TopOfJoined(p, q[|p| + 1..]);
    assert File(p, m[p]) in es && HasDir(es, p);
    var t :| Dir(p, t) in es;
    var i :| 0 <= i < |es| && es[i] == File(p, m[p]);
    var j :| 0 <= j < |es| && es[j] == Dir(p, t);
    es' := SwapEntries(trees, es, m, d, i, j);
  }

  lemma DepthOf(trees: Objects, h: Hash, m: FlatMap) returns (d: nat)
    requires Spells(trees, h, m)
    ensures IsTree(trees, h, m, d) && AllShort(m, d)
  {
    d :| IsTree(trees, h, m, d);
  }

  lemma OtherTree(trees: Objects, trees': Objects, h: Hash, m: FlatMap, n: string, t: Hash, t': Hash, sub: FlatMap)
    returns (es: seq<Entry>, d: nat)
    requires Spells(trees, h, m) && Extends(trees, trees') && Dir(n, t) in trees[h] && t' != t
    requires n != "" && n in Tops(m) && sub == Under(m, n) && Spells(trees', t', sub)
    ensures Level(trees', es, m, Tops(m), d) && Sorted(es) && AllShort(m, d) && es != trees[h]
  {
    d := DepthOf(trees, h, m);
    es := OtherTreeAt(trees, trees', h, m, d, n, t, t', sub);
  }

  lemma OtherTreeAt(trees: Objects, trees': Objects, h: Hash, m: FlatMap, d: nat, n: string, t: Hash, t': Hash,
                    sub: FlatMap)
    returns (es: seq<Entry>)
    requires IsTree(trees, h, m, d) && Extends(trees, trees') && Dir(n, t) in trees[h] && t' != t
    requires n != "" && n in Tops(m) && sub == Under(m, n) && Spells(trees', t', sub)
    ensures Level(trees', es, m, Tops(m), d) && Sorted(es) && es != trees[h]
  {
    LevelStays(trees, trees', trees[h], m, Tops(m), d);
    var i :| 0 <= i < |trees[h]| && trees[h][i] == Dir(n, t);
    SpelledFits(trees', Dir(n, t'), m, sub, d);
    es := ReplaceTree(trees', trees[h], m, d, i, t');
  }

  lemma ClashBelow(m: FlatMap, n: string, p: string, q: string)
    requires p in m && q in m && HasPrefix(q, p + "/") && n != "" && HasPrefix(p, n + "/")
    ensures p[|n| + 1..] in Under(m, n) && q[|n| + 1..] in Under(m, n)
    ensures HasPrefix(q[|n| + 1..], p[|n| + 1..] + "/")
  {
    assert p == n + "/" + p[|n| + 1..];
    assert q[..|n| + 1] == p[..|n| + 1] && q == n + "/" + q[|n| + 1..];
    UnderHolds(m, n, p[|n| + 1..]);
    UnderHolds(m, n, q[|n| + 1..]);
    assert q[|n| + 1..][..|p| - |n|] == q[..|p| + 1][|n| + 1..] == (p + "/")[|n| + 1..] == p[|n| + 1..] + "/";
  }

  // ---------- The operations ----------

  /** The subdirectories of a level by name. */
  method SortSet(names: set<string>) returns (r: seq<string>)
    ensures Ascending(r) && Elems(r) == names
  {
    r := [];
    var left := names;
    while left != {}
      invariant left <= names && Ascending(r)
      invariant forall y :: y in r <==> y in names - left
      decreases left
    {
      var x :| x in left;
      left := left - {x};
      r := Insert(r, x);
    }
  }

  lemma FilesLevel(trees: Objects, es: seq<Entry>, m: FlatMap, files: FlatMap, d: nat)
    requires forall p :: p in files <==> p in m && '/' !in p
    requires forall p :: p in files ==> files[p] == m[p]
    requires Distinct(es) && forall e :: e in es <==> e.File? && e.name in files && files[e.name] == e.hash
    requires AllShort(m, d)
    ensures Underway(trees, es, m, [])
  {
    assert Level(trees, es, m, {}, d);
  }

  /** A level whose files, and whose directories of these names, are in place. */
  ghost predicate Underway(trees: Objects, es: seq<Entry>, m: FlatMap, names: seq<string>) {
    && (exists d: nat :: AllShort(m, d) && Level(trees, es, m, Elems(names), d))
    && (forall s :: HasDir(es, s) ==> s in names)
  }

  lemma Grow(trees: Objects, trees': Objects, es: seq<Entry>, m: FlatMap, names: seq<string>, i: nat, t: Hash,
             sub: FlatMap)
    requires Extends(trees, trees') && i < |names| && Ascending(names) && Underway(trees, es, m, names[..i])
    requires names[i] != "" && names[i] in Tops(m) && sub == Under(m, names[i]) && Spells(trees', t, sub)
    ensures Underway(trees', es + [Dir(names[i], t)], m, names[..i + 1])
  {
    var d: nat :| AllShort(m, d) && Level(trees, es, m, Elems(names[..i]), d);
    LevelGrows(trees, trees', es, m, names, i, t, sub, d);
  }

  lemma SameLevel(trees: Objects, es: seq<Entry>, es': seq<Entry>, m: FlatMap, d: nat)
    requires Level(trees, es, m, Tops(m), d) && Distinct(es') && forall x :: x in es' <==> x in es
    ensures Level(trees, es', m, Tops(m), d)
  {
    forall s | HasDir(es, s)
      ensures HasDir(es', s)
    {
      var t :| Dir(s, t) in es;
      assert Dir(s, t) in es';
    }
  }

  lemma SubReady(flat: FlatMap, prefix: string, m: FlatMap, s: string, d: nat) returns (sub: FlatMap)
    requires m == Under(flat, prefix) && CleanTreePaths(m.Keys) && AllShort(m, d) && s in Tops(m)
    ensures sub == Under(m, s) == Under(flat, JoinPath(prefix, s))
    ensures s != "" && d > 0 && CleanTreePaths(sub.Keys) && AllShort(sub, d - 1)
  {
    sub := Under(m, s);
    UnderClean(m, s);
    UnderShort(m, s, d);
    UnderUnder(flat, prefix, s);
  }

  lemma LevelGrows(trees: Objects, trees': Objects, es: seq<Entry>, m: FlatMap, names: seq<string>, i: nat, t: Hash,
                   sub: FlatMap, d: nat)
    requires Extends(trees, trees') && i < |names| && Ascending(names) && Level(trees, es, m, Elems(names[..i]), d)
    requires names[i] != "" && names[i] in Tops(m) && sub == Under(m, names[i]) && AllShort(m, d)
      && Spells(trees', t, sub)
    requires forall s :: HasDir(es, s) ==> s in names[..i]
    ensures var es' := es + [Dir(names[i], t)];
            Level(trees', es', m, Elems(names[..i + 1]), d) && forall s :: HasDir(es', s) ==> s in names[..i + 1]
  {
    var es' := es + [Dir(names[i], t)];
    LevelStays(trees, trees', es, m, Elems(names[..i]), d);
    assert names[..i + 1] == names[..i] + [names[i]];
    SpelledFits(trees', Dir(names[i], t), m, sub, d);
    assert forall e :: e in es' <==> e in es || e == Dir(names[i], t);
    assert HasDir(es', names[i]);
    forall s | HasDir(es, s)
      ensures HasDir(es', s)
    {
      var x :| Dir(s, x) in es;
      assert Dir(s, x) in es';
    }
    LessTotal(names[i], names[i]);
    forall k | 0 <= k < |es|
      ensures es[k].name == names[i] ==> es[k].File?
    {
      if es[k].Dir? {
        assert es[k] in es && Dir(es[k].name, es[k].tree) == es[k] && HasDir(es, es[k].name);
      }
    }
  }

  /** Insertion into entries sorted by name. */
  method InsertEntry(es: seq<Entry>, e: Entry) returns (r: seq<Entry>)
    requires Sorted(es) && Distinct(es)
    requires forall k :: 0 <= k < |es| && es[k].name == e.name ==> es[k].File? != e.File?
    ensures Sorted(r) && Distinct(r)
    ensures forall x :: x in r <==> x in es || x == e
  {
    var i := 0;
    while i < |es| && Less(es[i].name, e.name)
      invariant i <= |es| && forall k :: 0 <= k < i ==> Less(es[k].name, e.name)
    {
      i := i + 1;
    }
    r := es[..i] + [e] + es[i..];
    InsertedSorted(es, e, i);
    InsertedDistinct(es, e, i);
  }

  lemma InsertedDistinct(es: seq<Entry>, e: Entry, i: nat)
    requires Distinct(es) && i <= |es|
    requires forall k :: 0 <= k < |es| && es[k].name == e.name ==> es[k].File? != e.File?
    ensures var r := es[..i] + [e] + es[i..]; Distinct(r) && forall x :: x in r <==> x in es || x == e
  {
    assert es == es[..i] + es[i..];
  }

  lemma InsertedSorted(es: seq<Entry>, e: Entry, i: nat)
    requires Sorted(es) && i <= |es| && forall k :: 0 <= k < i ==> Less(es[k].name, e.name)
    requires i < |es| ==> !Less(es[i].name, e.name)
    ensures Sorted(es[..i] + [e] + es[i..])
  {
    var r := es[..i] + [e] + es[i..];
    forall a, b | 0 <= a < b < |r|
      ensures !Less(r[b].name, r[a].name)
    {
      LessTotal(r[a].name, r[b].name);
      if a == i {
        LessTotal(es[i].name, e.name);
        LessTotal(es[i].name, es[b - 1].name);
        if Less(r[b].name, e.name) {
          if es[i].name != es[b - 1].name { LessTrans(es[i].name, es[b - 1].name, e.name); }
        }
      }
    }
  }

  /** sort.Slice by name: the same entries, in some order that the names allow. */
  method SortEntries(es: seq<Entry>) returns (r: seq<Entry>)
    requires Distinct(es)
    ensures Sorted(r) && Distinct(r)
    ensures forall x :: x in r <==> x in es
  {
    r := [];
    for i := 0 to |es|
      invariant Sorted(r) && Distinct(r)
      invariant forall x :: x in r <==> x in es[..i]
    {
      forall k | 0 <= k < |r| && r[k].name == es[i].name
        ensures r[k].File? != es[i].File?
      {
        assert r[k] in r;
        var j :| 0 <= j < i && es[..i][j] == r[k];
        assert es[j] == r[k];
      }
      assert es[..i + 1] == es[..i] + [es[i]];
      r := InsertEntry(r, es[i]);
    }
    assert es[..|es|] == es;
  }

  lemma {:induction false} LongestPath(m: FlatMap) returns (d: nat)
    ensures AllShort(m, d)
    decreases |m|
  {
    d := 0;
    var left := m.Keys;
    while left != {}
      invariant left <= m.Keys && forall p :: p in m && p !in left ==> |p| <= d
      decreases left
    {
      var p :| p in left;
      left := left - {p};
      d := if |p| > d then |p| else d;
    }
  }

  // ---------- Diff ----------

  datatype Change =
    | Added(path: string, newHash: string)
    | Modified(path: string, oldHash: string, newHash: string)
    | Deleted(path: string, oldHash: string)

  ghost predicate IsChange(before: FlatMap, after: FlatMap, c: Change) {
    match c
    case Added(p, n) => p !in before && At(after, p) == Some(n)
    case Modified(p, o, n) => At(before, p) == Some(o) && At(after, p) == Some(n) && o != n
    case Deleted(p, o) => At(before, p) == Some(o) && p !in after
  }

  ghost predicate Touches(changes: seq<Change>, p: string) {
    exists c :: c in changes && c.path == p
  }

  /** One change for each path that differs, ordered by path. */
  ghost predicate IsDiff(before: FlatMap, after: FlatMap, changes: seq<Change>) {
    && (forall c :: c in changes ==> IsChange(before, after, c))
    && (forall p {:trigger Touches(changes, p)} :: Touches(changes, p) <==> At(before, p) != At(after, p))
    && (forall i, j :: 0 <= i < j < |changes| ==> Less(changes[i].path, changes[j].path))
  }

  /** The changes between two flat maps; collected in any order, then sorted. */
  method Changes(before: FlatMap, after: FlatMap) returns (changes: seq<Change>)
    ensures IsDiff(before, after, changes)
  {
    var paths := SortSet(before.Keys + after.Keys);
    changes := [];
    for i := 0 to |paths|
      invariant forall c :: c in changes ==> IsChange(before, after, c)
      invariant forall p {:trigger Touches(changes, p)} :: Touches(changes, p) <==>
        p in paths[..i] && At(before, p) != At(after, p)
      invariant forall a, b :: 0 <= a < b < |changes| ==> Less(changes[a].path, changes[b].path)
      invariant forall a :: 0 <= a < |changes| ==> changes[a].path in paths[..i]
    {
      var p := paths[i];
      assert paths[..i + 1] == paths[..i] + [p];
      assert forall q :: q in paths[..i] ==> Less(q, p);
      assert p in Elems(paths);
      if p !in before || p !in after || before[p] != after[p] {
        var c := if p !in before then Added(p, after[p])
          else if p in after then Modified(p, before[p], after[p]) else Deleted(p, before[p]);
        TouchOne(changes, c);
        changes := changes + [c];
      }
    }
    assert paths[..|paths|] == paths;
    assert forall p :: p in Elems(paths) <==> p in paths;
  }

  lemma TouchOne(changes: seq<Change>, c: Change)
    ensures forall p {:trigger Touches(changes + [c], p)} :: Touches(changes + [c], p) <==>
      Touches(changes, p) || p == c.path
  {
    forall p
      ensures Touches(changes + [c], p) <==> Touches(changes, p) || p == c.path
    {
      assert c in changes + [c];
      if Touches(changes, p) {
        var x :| x in changes && x.path == p;
        assert x in changes + [c];
      }
    }
  }

  function Patched(m: FlatMap, changes: seq<Change>): FlatMap {
    if changes == [] then m
    else
      var rest := Patched(m, changes[..|changes| - 1]);
      match changes[|changes| - 1]
      case Added(p, n) => rest[p := n]
      case Modified(p, _, n) => rest[p := n]
      case Deleted(p, _) => rest - {p}
  }

  /** Carrying out a diff on the old map gives the new one. */
  lemma DiffPatches(before: FlatMap, after: FlatMap, changes: seq<Change>)
    requires IsDiff(before, after, changes)
    ensures Patched(before, changes) == after
  {
    forall p
      ensures At(Patched(before, changes), p) == At(after, p)
    {
      PatchedAt(before, after, changes, p);
      assert Touches(changes, p) <==> At(before, p) != At(after, p);
    }
    assert forall p :: p in after <==> At(after, p) != None;
    assert forall p :: p in Patched(before, changes) <==> At(Patched(before, changes), p) != None;
    SameAt(Patched(before, changes), after);
  }

  lemma SameAt(m: FlatMap, n: FlatMap)
    requires forall p :: At(m, p) == At(n, p)
    ensures m == n
  {
    assert forall p :: p in m <==> At(m, p) != None;
    assert forall p :: p in n <==> At(n, p) != None;
    assert forall p :: p in m ==> At(m, p) == Some(m[p]) && At(n, p) == Some(n[p]);
  }

  lemma {:induction false} PatchedAt(before: FlatMap, after: FlatMap, changes: seq<Change>, p: string)
    requires forall c :: c in changes ==> IsChange(before, after, c)
    ensures At(Patched(before, changes), p) == if Touches(changes, p) then At(after, p) else At(before, p)
    decreases |changes|
  {
    if changes != [] {
      var n := |changes| - 1;
      PatchedAt(before, after, changes[..n], p);
      assert changes == changes[..n] + [changes[n]];
      TouchOne(changes[..n], changes[n]);
      assert Touches(changes[..n] + [changes[n]], p) <==> Touches(changes[..n], p) || p == changes[n].path;
      assert IsChange(before, after, changes[n]);
    }
  }

  class TreeStore {
    var trees: Objects
    const addr: seq<Entry> -> Hash

    ghost predicate Valid()
      reads this
    {
      IdealAddress(addr) && Addressed(trees, addr)
    }

    constructor (addr: seq<Entry> -> Hash)
      requires IdealAddress(addr)
      ensures Valid() && trees == map[] && this.addr == addr
    {
      this.addr, trees := addr, map[];
    }

    /** putRawAt: an object already there is left alone. */
    method PutRawAt(h: Hash, es: seq<Entry>)
      requires Valid() && h == addr(es)
      modifies this
      ensures Valid() && trees == old(trees)[h := es]
    {
      if h in trees {
        assert addr(trees[h]) == addr(es);
        return;
      }
      trees := trees[h := es];
    }

    /** Files directly in the directory, and the names of its subdirectories. */
    method Partition(flat: FlatMap, prefix: string) returns (files: FlatMap, subs: set<string>)
      ensures forall p :: p in files <==> p in Under(flat, prefix) && '/' !in p
      ensures forall p :: p in files ==> files[p] == Under(flat, prefix)[p]
      ensures subs == Tops(Under(flat, prefix))
    {
      ghost var seen := {};
      files, subs := map[], {};
      var left := flat.Keys;
      while left != {}
        invariant left <= flat.Keys
        invariant forall r :: r in seen <==> JoinPath(prefix, r) in flat.Keys - left
        invariant forall r :: r in files <==> r in seen && '/' !in r
        invariant forall r :: r in files ==> files[r] == flat[JoinPath(prefix, r)]
        invariant subs == TopsOf(seen)
        decreases left
      {
        var p :| p in left;
        left := left - {p};
        if prefix != "" && !HasPrefix(p, prefix + "/") { continue; }
        var rel := if prefix == "" then p else p[|prefix| + 1..];
        assert forall r :: JoinPath(prefix, r) == p <==> r == rel;
        TopsGrow(seen, rel);
        seen := seen + {rel};
        if '/' in rel {
          subs := subs + {Top(rel)};
        } else {
          files := files[rel := flat[p]];
        }
      }
      assert seen == Under(flat, prefix).Keys;
    }

    /** The entries of the files, in any order. */
    method FileEntries(files: FlatMap) returns (es: seq<Entry>)
      ensures forall e :: e in es <==> e.File? && e.name in files && files[e.name] == e.hash
      ensures Distinct(es)
    {
      es := [];
      var left := files.Keys;
      while left != {}
        invariant left <= files.Keys
        invariant forall e :: e in es <==> e.File? && e.name in files.Keys - left && files[e.name] == e.hash
        invariant forall i, j :: 0 <= i < j < |es| ==> es[i].name != es[j].name
        decreases left
      {
        var n :| n in left;
        left := left - {n};
        assert forall i :: 0 <= i < |es| ==> es[i] in es && es[i].name != n;
        es := es + [File(n, files[n])];
      }
    }

    /** The entries of the files in place, and the subdirectories to come. */
    method StartLevel(flat: FlatMap, prefix: string, ghost m: FlatMap, ghost d: nat)
      returns (es: seq<Entry>, subNames: seq<string>)
      requires m == Under(flat, prefix) && AllShort(m, d)
      ensures Underway(trees, es, m, []) && Ascending(subNames)
      ensures forall s :: s in subNames <==> s in Tops(m)
    {
      var files, subs := Partition(flat, prefix);
      es := FileEntries(files);
      subNames := SortSet(subs);
      assert forall s :: s in Elems(subNames) <==> s in subNames;
      FilesLevel(trees, es, m, files, d);
    }

    /** buildLevel: the tree of everything below `prefix`. It ends because names are not empty. */
    method BuildLevel(flat: FlatMap, prefix: string, ghost m: FlatMap, ghost d: nat) returns (h: Hash)
      requires Valid() && m == Under(flat, prefix) && CleanTreePaths(m.Keys) && AllShort(m, d)
      modifies this
      ensures Valid() && Extends(old(trees), trees) && Spells(trees, h, m)
      decreases d
    {
      var es, subNames := StartLevel(flat, prefix, m, d);
      for i := 0 to |subNames|
        invariant Valid() && Extends(old(trees), trees) && Underway(trees, es, m, subNames[..i])
      {
        ghost var trees0 := trees;
        ghost var sub := SubReady(flat, prefix, m, subNames[i], d);
        var sh := BuildLevel(flat, JoinPath(prefix, subNames[i]), sub, d - 1);
        Grow(trees0, trees, es, m, subNames, i, sh, sub);
        es := es + [Dir(subNames[i], sh)];
      }
      assert subNames[..|subNames|] == subNames;
      assert Elems(subNames) == Tops(m);
      h := StoreLevel(es, m, subNames);
    }

    /** Sorts a finished level and files it at its address. */
    method StoreLevel(es0: seq<Entry>, ghost m: FlatMap, ghost names: seq<string>) returns (h: Hash)
      requires Valid() && Underway(trees, es0, m, names) && Elems(names) == Tops(m)
      modifies this
      ensures Valid() && Extends(old(trees), trees) && Spells(trees, h, m)
    {
      var es := SortEntries(es0);
      h := addr(es);
      ghost var d: nat :| AllShort(m, d) && Level(trees, es0, m, Elems(names), d);
      SameLevel(trees, es0, es, m, d);
      AddTree(addr, trees, es, m, d);
      PutRawAt(h, es);
    }

    /** BuildTreeFromMap: refuses a map with an unclean path, and otherwise stores its tree. */
    method BuildTreeFromMap(flat: FlatMap) returns (r: Result<Hash>)
      requires Valid()
      modifies this
      ensures Valid() && Extends(old(trees), trees)
      ensures r.Ok? <==> CleanTreePaths(flat.Keys)
      ensures r.Ok? ==> Spells(trees, r.value, flat)
      ensures r.Err? ==> trees == old(trees)
    {
      if !CleanTreePaths(flat.Keys) { return Err("refusing to build tree"); }
      ghost var d := LongestPath(flat);
      assert forall p :: JoinPath("", p) == p;
      assert Under(flat, "") == flat;
      var h := BuildLevel(flat, "", flat, d);
      return Ok(h);
    }

    /** Flatten, adding to `before` the paths below `root`. */
    method Flatten(root: Hash, prefix: string, before: FlatMap, ghost d: nat) returns (r: Result<FlatMap>)
      requires Nested(trees, root, d)
      ensures r == Flat(trees, root, prefix, before, d)
      decreases d
    {
      if root == NIL { return Ok(before); }
      if root !in trees { return Err("no such tree"); }
      var es := trees[root];
      var out := before;
      for i := 0 to |es|
        invariant FlatEntries(trees, es[i..], prefix, out, d) == Flat(trees, root, prefix, before, d)
      {
        assert es[i] in es && es[i..][0] == es[i] && es[i..][1..] == es[i + 1..];
        var p := JoinPath(prefix, es[i].name);
        match es[i] {
          case Dir(n, t) =>
            var sub := Flatten(t, p, out, d - 1);
            if sub.Err? { return sub; }
            out := sub.value;
          case File(n, x) =>
            out := out[p := x];
        }
      }
      assert es[|es|..] == [];
      return Ok(out);
    }

    /** Diff of two roots: the changes between their flattened maps, by path. */
    method Diff(oldRoot: Hash, newRoot: Hash, ghost d: nat) returns (r: Result<seq<Change>>)
      requires Nested(trees, oldRoot, d) && Nested(trees, newRoot, d)
      ensures var o, n := Flat(trees, oldRoot, "", map[], d), Flat(trees, newRoot, "", map[], d);
        (r.Ok? <==> o.Ok? && n.Ok?) && (r.Ok? ==> IsDiff(o.value, n.value, r.value))
    {
      var o := Flatten(oldRoot, "", map[], d);
      if o.Err? { return Err(o.error); }
      var n := Flatten(newRoot, "", map[], d);
      if n.Err? { return Err(n.error); }
      var changes := Changes(o.value, n.value);
      return Ok(changes);
    }
  }
}
