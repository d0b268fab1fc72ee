/**
  Three-way merging of flattened trees: tryMerge and resolveOverlaps of
  internal/sync/sync.go, and the merge inside applyPick of internal/gitcompat/pick.go.
  A flattened tree maps paths to hex strings; reading an absent path gives "".
*/
module Merge {
  import opened Dag
  import opened DagWalk
  import opened Text

  type FlatMap = map<string, string>

  function Get(m: FlatMap, p: string): string {
    if p in m then m[p] else ""
  }

  ghost function At(m: FlatMap, p: string): Option<string> {
    if p in m then Some(m[p]) else None
  }

  datatype Verdict = Take(v: Option<string>) | Overlap

  /** The three-way rule for one path: the side that changed wins, and two different changes overlap. */
  ghost function ThreeWay(base: Option<string>, local: Option<string>, remote: Option<string>): Verdict {
    if local == remote then Take(local)
    else if local == base then Take(remote)
    else if remote == base then Take(local)
    else Overlap
  }

  /** What a merge decided at `p`: a listed path overlaps, any other path is kept or dropped. */
  ghost function Outcome(merged: FlatMap, overlapping: seq<string>, p: string): Verdict {
    if p in overlapping then Overlap else Take(At(merged, p))
  }

  /** The merged map and overlap list are the three-way rule at every path. */
  ghost predicate IsThreeWay(base: FlatMap, local: FlatMap, remote: FlatMap, merged: FlatMap,
                             overlapping: seq<string>) {
    && (forall p :: Outcome(merged, overlapping, p) == ThreeWay(At(base, p), At(local, p), At(remote, p)))
    && (forall p :: p in overlapping ==> p !in merged)
    && Ascending(overlapping)
  }

  /**
    Where tryMerge leaves the rule: base and remote differ only in that one lacks the path
    and the other maps it to the empty string, which its third case takes for equal, while
    local differs from both.
   */
  ghost predicate Blank(base: FlatMap, local: FlatMap, remote: FlatMap, p: string) {
    && At(base, p) != At(remote, p) && Get(base, p) == Get(remote, p)
    && At(local, p) != At(base, p) && At(local, p) != At(remote, p)
  }

  ghost function TryMergeAt(base: FlatMap, local: FlatMap, remote: FlatMap, p: string): Verdict {
    if Blank(base, local, remote, p) then Take(At(local, p))
    else ThreeWay(At(base, p), At(local, p), At(remote, p))
  }

  /** One turn of tryMerge's loop: the switch on one path. */
  method TryMergePath(bm: FlatMap, lm: FlatMap, rm: FlatMap, p: string, merged0: FlatMap, found0: seq<string>)
    returns (merged: FlatMap, found: seq<string>)
    requires p !in merged0 && p !in found0
    ensures Decided(p, merged0, found0, TryMergeAt(bm, lm, rm, p), merged, found)
  {
    merged, found := merged0, found0;
    var b, lok, rok := Get(bm, p), Get(lm, p), Get(rm, p);
    var lEx, rEx := p in lm, p in rm;
    if lok == rok && lEx == rEx {
      if lEx { merged := merged[p := lok]; }
    } else if b == lok && !lEx == (b == "" && p !in bm) {
      if rEx { merged := merged[p := rok]; }
    } else if b == rok {
      if lEx { merged := merged[p := lok]; }
    } else if lEx == (p in bm) && lok == b {
      if rEx { merged := merged[p := rok]; }
    } else if rEx == (p in bm) && rok == b {
      if lEx { merged := merged[p := lok]; }
    } else {
      found := found + [p];
    }
  }

  /** One turn of applyPick's loop. */
  method PickMergePath(base: FlatMap, ours: FlatMap, theirs: FlatMap, p: string, merged0: FlatMap, found0: seq<string>)
    returns (merged: FlatMap, found: seq<string>)
    requires p !in merged0 && p !in found0
    ensures Decided(p, merged0, found0, ThreeWay(At(base, p), At(ours, p), At(theirs, p)), merged, found)
  {
    merged, found := merged0, found0;
    var b, o, t := Get(base, p), Get(ours, p), Get(theirs, p);
    var bEx, oEx, tEx := p in base, p in ours, p in theirs;
    if oEx == tEx && o == t {
      if oEx { merged := merged[p := o]; }
    } else if oEx == bEx && o == b {
      if tEx { merged := merged[p := t]; }
    } else if tEx == bEx && t == b {
      if oEx { merged := merged[p := o]; }
    } else {
      found := found + [p];
    }
  }

  /** The state after a turn: `p` decided as `v`, nothing else touched. */
  ghost predicate Decided(p: string, merged0: FlatMap, found0: seq<string>, v: Verdict, merged: FlatMap,
                          found: seq<string>) {
    match v
    case Overlap => merged == merged0 && found == found0 + [p]
    case Take(None) => merged == merged0 && found == found0
    case Take(Some(h)) => merged == merged0[p := h] && found == found0
  }

  /** A merge in progress over the paths still in `rest`. */
  ghost predicate Merging(rule: string -> Verdict, paths: set<string>, rest: set<string>, merged: FlatMap,
                          found: seq<string>) {
    && rest <= paths && NoDup(found)
    && Elems(found) + merged.Keys <= paths - rest && Elems(found) !! merged.Keys
    && (forall p :: p in paths - rest ==> Outcome(merged, found, p) == rule(p))
  }

  lemma MergingTurn(rule: string -> Verdict, paths: set<string>, rest: set<string>, merged0: FlatMap,
                    found0: seq<string>,
                    p: string, merged: FlatMap, found: seq<string>)
    requires Merging(rule, paths, rest, merged0, found0) && p in rest
    requires Decided(p, merged0, found0, rule(p), merged, found)
    ensures p !in merged0 && p !in found0
    ensures Merging(rule, paths, rest - {p}, merged, found)
  {
    assert p in found0 ==> p in Elems(found0);
    assert Elems(found0 + [p]) == Elems(found0) + {p};
    forall q | q in paths - (rest - {p})
      ensures Outcome(merged, found, q) == rule(q)
    {
      if q != p {
        assert Outcome(merged, found, q) == Outcome(merged0, found0, q);
      }
    }
  }

  /** With every path looked at and the overlaps sorted, the rule holds of all paths. */
  lemma MergingDone(rule: string -> Verdict, paths: set<string>, merged: FlatMap, found: seq<string>,
                    sorted: seq<string>)
    requires Merging(rule, paths, {}, merged, found) && Ascending(sorted)
    requires forall p :: p in sorted <==> p in found
    requires forall p :: p !in paths ==> rule(p) == Take(None)
    ensures forall p :: Outcome(merged, sorted, p) == rule(p)
    ensures forall p :: p in sorted ==> p !in merged
  {
    forall p
      ensures Outcome(merged, sorted, p) == rule(p) && (p in sorted ==> p !in merged)
    {
      assert p in found <==> p in Elems(found);
      assert Outcome(merged, sorted, p) == Outcome(merged, found, p);
    }
  }

  /** tryMerge on the three flattened trees, ranging over the paths in any order. */
  method TryMerge(bm: FlatMap, lm: FlatMap, rm: FlatMap) returns (merged: FlatMap, overlapping: seq<string>)
    ensures forall p :: Outcome(merged, overlapping, p) == TryMergeAt(bm, lm, rm, p)
    ensures forall p :: p in overlapping ==> p !in merged
    ensures Ascending(overlapping)
    ensures (forall p :: !Blank(bm, lm, rm, p)) ==> IsThreeWay(bm, lm, rm, merged, overlapping)
  {
    var rest := bm.Keys + lm.Keys + rm.Keys;
    ghost var paths, rule := rest, p => TryMergeAt(bm, lm, rm, p);
    var found: seq<string> := [];
    merged := map[];
    while rest != {}
      invariant Merging(rule, paths, rest, merged, found)
      decreases rest
    {
      var p :| p in rest;
      ghost var merged0, found0 := merged, found;
      assert p in found ==> p in Elems(found);
      merged, found := TryMergePath(bm, lm, rm, p, merged, found);
      MergingTurn(rule, paths, rest, merged0, found0, p, merged, found);
      rest := rest - {p};
    }
    overlapping := SortStrings(found);
    MergingDone(rule, paths, merged, found, overlapping);
  }

  /** The merge inside applyPick, with the conflicting paths sorted. */
  method PickMerge(base: FlatMap, ours: FlatMap, theirs: FlatMap) returns (merged: FlatMap, conflicts: seq<string>)
    ensures IsThreeWay(base, ours, theirs, merged, conflicts)
  {
    var rest := base.Keys + ours.Keys + theirs.Keys;
    ghost var paths, rule := rest, p => ThreeWay(At(base, p), At(ours, p), At(theirs, p));
    var found: seq<string> := [];
    merged := map[];
    while rest != {}
      invariant Merging(rule, paths, rest, merged, found)
      decreases rest
    {
      var p :| p in rest;
      ghost var merged0, found0 := merged, found;
      assert p in found ==> p in Elems(found);
      merged, found := PickMergePath(base, ours, theirs, p, merged, found);
      MergingTurn(rule, paths, rest, merged0, found0, p, merged, found);
      rest := rest - {p};
    }
    conflicts := SortStrings(found);
    MergingDone(rule, paths, merged, found, conflicts);
    assert forall p :: rule(p) == ThreeWay(At(base, p), At(ours, p), At(theirs, p));
  }

  // ---------- What the rule means ----------

  /** tryMerge follows the three-way rule at a path exactly when the path is not blank. */
  lemma TryMergeExact(bm: FlatMap, lm: FlatMap, rm: FlatMap, p: string)
    ensures TryMergeAt(bm, lm, rm, p) == ThreeWay(At(bm, p), At(lm, p), At(rm, p)) <==> !Blank(bm, lm, rm, p)
    ensures (forall q :: q in bm ==> bm[q] != "") && (forall q :: q in rm ==> rm[q] != "") ==> !Blank(bm, lm, rm, p)
  {
  }

  /** An input on which tryMerge misses a two-sided change: the remote deletion is dropped. */
  lemma TryMergeMissesOverlap()
    ensures Blank(map["a" := ""], map["a" := "1"], map[], "a")
    ensures ThreeWay(At(map["a" := ""], "a"), At(map["a" := "1"], "a"), At(map[], "a")) == Overlap
    ensures TryMergeAt(map["a" := ""], map["a" := "1"], map[], "a") == Take(Some("1"))
  {
    assert At(map["a" := ""], "a") == Some("");
    assert At(map["a" := "1"], "a") == Some("1");
  }

  /** A merge result is determined by its decisions. */
  lemma MergeUnique(base: FlatMap, local: FlatMap, remote: FlatMap, m1: FlatMap, o1: seq<string>, m2: FlatMap,
                    o2: seq<string>)
    requires IsThreeWay(base, local, remote, m1, o1) && IsThreeWay(base, local, remote, m2, o2)
    ensures m1 == m2 && o1 == o2
  {
    forall p
      ensures p in o1 <==> p in o2
      ensures At(m1, p) == At(m2, p)
    {
      assert Outcome(m1, o1, p) == Outcome(m2, o2, p);
      assert p in o1 ==> p !in m1;
      assert p in o2 ==> p !in m2;
    }
    AscendingUnique(o1, o2);
    assert forall p :: At(m1, p) == At(m2, p) ==> (p in m1 <==> p in m2) && (p in m1 ==> m1[p] == m2[p]);
  }

  /** Merging is symmetric in local and remote, for the map and for the overlap list. */
  lemma MergeSymmetric(base: FlatMap, local: FlatMap, remote: FlatMap, m1: FlatMap, o1: seq<string>, m2: FlatMap,
                       o2: seq<string>)
    requires IsThreeWay(base, local, remote, m1, o1) && IsThreeWay(base, remote, local, m2, o2)
    ensures m1 == m2 && o1 == o2
  {
    forall p
      ensures Outcome(m2, o2, p) == ThreeWay(At(base, p), At(local, p), At(remote, p))
    {
      assert Outcome(m2, o2, p) == ThreeWay(At(base, p), At(remote, p), At(local, p));
    }
    MergeUnique(base, local, remote, m1, o1, m2, o2);
  }

  /** When one side is the base, the merge is the other side and nothing overlaps. */
  lemma MergeIdentity(base: FlatMap, other: FlatMap, merged: FlatMap, overlapping: seq<string>)
    requires IsThreeWay(base, base, other, merged, overlapping) || IsThreeWay(base, other, base, merged, overlapping)
    ensures merged == other && overlapping == []
  {
    assert |overlapping| > 0 ==> overlapping[0] in overlapping;
    forall p
      ensures p !in overlapping
      ensures (p in merged <==> p in other) && (p in merged ==> merged[p] == other[p])
    {
      assert Outcome(merged, overlapping, p) == Take(At(other, p));
    }
  }

  // ---------- Conflict copies ----------

  /** What sets a copy apart: the peer and time, cut down to one tag. */
  function CopyMark(tag: string): string {
    ".conflict-" + tag
  }

  /** conflictCopyPath for one peer and time. */
  function ConflictCopyPath(path: string, tag: string): string {
    var i := LastIndex(path, '/');
    var dir, file := path[..i + 1], path[i + 1..];
    var k := LastIndex(file, '.');
    var stem, ext := if k > 0 then file[..k] else file, if k > 0 then file[k..] else "";
    dir + (stem + CopyMark(tag) + ext)
  }

  /** A tag as the program makes them: eight characters of a hex id, a dash and a timestamp. */
  predicate PlainTag(tag: string) {
    '.' !in tag && '/' !in tag
  }

  ghost predicate SplitsPath(path: string, dir: string, file: string) {
    && path == dir + file && '/' !in file
    && (dir == "" || dir[|dir| - 1] == '/')
  }

  lemma SplitUnique(p: string, d1: string, f1: string, d2: string, f2: string)
    requires SplitsPath(p, d1, f1) && SplitsPath(p, d2, f2)
    ensures d1 == d2 && f1 == f2
  {
    assert forall k :: |d1| <= k < |p| ==> p[k] == f1[k - |d1|];
    assert forall k :: |d2| <= k < |p| ==> p[k] == f2[k - |d2|];
    assert d1 != "" ==> p[|d1| - 1] == '/';
    assert d2 != "" ==> p[|d2| - 1] == '/';
    assert p[..|d1|] == d1 && p[..|d2|] == d2;
    assert p[|d1|..] == f1 && p[|d2|..] == f2;
  }

  /** The file name cut at its extension: the dot that starts one is not the first character. */
  ghost predicate SplitsName(file: string, stem: string, ext: string) {
    && file == stem + ext
    && (ext == "" ==> forall k :: 0 < k < |stem| ==> stem[k] != '.')
    && (ext != "" ==> stem != "" && ext[0] == '.' && '.' !in ext[1..])
  }

  /** Two names cut at their last dot agree in both halves. */
  lemma LastDotUnique(a: string, x: string, b: string, y: string)
    requires a + x == b + y
    requires x != "" && x[0] == '.' && '.' !in x[1..]
    requires y != "" && y[0] == '.' && '.' !in y[1..]
    ensures a == b && x == y
  {
    var s := a + x;
    assert s[|a|] == '.' && (b + y)[|b|] == '.';
    assert forall k :: |a| < k < |s| ==> s[k] == x[1..][k - |a| - 1];
    assert forall k :: |b| < k < |s| ==> (b + y)[k] == y[1..][k - |b| - 1];
    assert |a| == |b|;
    assert s[..|a|] == a && (b + y)[..|b|] == b;
    assert s[|a|..] == x && (b + y)[|b|..] == y;
  }

  /** A marked name gives its stem and extension back. */
  lemma MarkedNameUnique(tag: string, s1: string, e1: string, s2: string, e2: string)
    requires PlainTag(tag)
    requires SplitsName(s1 + e1, s1, e1) && SplitsName(s2 + e2, s2, e2)
    requires s1 + CopyMark(tag) + e1 == s2 + CopyMark(tag) + e2
    ensures s1 == s2 && e1 == e2
  {
    var m := CopyMark(tag);
    assert m[0] == '.' && '.' !in m[1..] by {
      assert m[1..] == "conflict-" + tag;
    }
    if e1 != "" && e2 != "" {
      LastDotUnique(s1 + m, e1, s2 + m, e2);
      assert s1 == (s1 + m)[..|s1|] && s2 == (s2 + m)[..|s2|];
    } else if e1 == "" && e2 == "" {
      assert s1 + m + e1 == s1 + m && s2 + m + e2 == s2 + m;
      LastDotUnique(s1, m, s2, m);
    } else if e1 == "" {
      assert s1 + m + e1 == s1 + m;
      MixedMarks(m, s1, s2, e2);
      assert false;
    } else {
      assert s2 + m + e2 == s2 + m;
      MixedMarks(m, s2, s1, e1);
      assert false;
    }
  }

  /** Were a name without an extension marked like one that has it, its stem would hold a dot. */
  lemma MixedMarks(m: string, s1: string, s2: string, e2: string)
    requires m != "" && m[0] == '.' && '.' !in m[1..]
    requires e2 != "" && s2 != "" && e2[0] == '.' && '.' !in e2[1..]
    requires s1 + m == s2 + m + e2
    ensures 0 < |s2| < |s1| && s1[|s2|] == '.'
  {
    LastDotUnique(s1, m, s2 + m, e2);
    assert s1[|s2|] == m[0];
  }

  /** How the program cuts a file name at its extension. */
  lemma ExtensionCut(file: string) returns (stem: string, ext: string)
    ensures var k := LastIndex(file, '.');
      stem == (if k > 0 then file[..k] else file) && ext == (if k > 0 then file[k..] else "")
    ensures file == stem + ext && SplitsName(file, stem, ext)
  {
    var k := LastIndex(file, '.');
    stem, ext := if k > 0 then file[..k] else file, if k > 0 then file[k..] else "";
    if k > 0 {
      assert ext[1..] == file[k + 1..];
    } else {
      forall j | 0 < j < |stem|
        ensures stem[j] != '.'
      {
        assert k == 0 ==> stem[j] == file[1..][j - 1];
      }
    }
  }

  lemma CopyPathShape(path: string, tag: string) returns (dir: string, stem: string, ext: string)
    requires PlainTag(tag)
    ensures SplitsPath(path, dir, stem + ext) && SplitsName(stem + ext, stem, ext)
    ensures SplitsPath(ConflictCopyPath(path, tag), dir, stem + CopyMark(tag) + ext)
  {
    var file;
    dir, file := DirCut(path);
    stem, ext := ExtensionCut(file);
    MarkPlain(tag);
    AbsentBetween('/', stem, CopyMark(tag), ext);
    assert ConflictCopyPath(path, tag) == dir + (stem + CopyMark(tag) + ext);
  }

  /** How the program cuts a path at its directory. */
  lemma DirCut(path: string) returns (dir: string, file: string)
    ensures dir == path[..LastIndex(path, '/') + 1] && file == path[LastIndex(path, '/') + 1..]
    ensures SplitsPath(path, dir, file)
  {
    var i := LastIndex(path, '/');
    dir, file := path[..i + 1], path[i + 1..];
    CutBehind(path, i, '/');
  }

  lemma CutBehind(s: string, i: int, c: char)
    requires -1 <= i < |s| && (i >= 0 ==> s[i] == c) && forall k :: i < k < |s| ==> s[k] != c
    ensures s == s[..i + 1] + s[i + 1..] && c !in s[i + 1..]
    ensures s[..i + 1] == "" || s[..i + 1][|s[..i + 1]| - 1] == c
  {
  }

  lemma MarkPlain(tag: string)
    requires PlainTag(tag)
    ensures '/' !in CopyMark(tag)
  {
  }

  lemma AbsentBetween(c: char, a: string, m: string, b: string)
    requires c !in a + b && c !in m
    ensures c !in a + m + b
  {
    assert forall x :: x in a + b <==> x in a || x in b;
  }

  /** For one peer and time, two paths never share a copy name. */
  lemma ConflictCopyInjective(p: string, q: string, tag: string)
    requires PlainTag(tag) && ConflictCopyPath(p, tag) == ConflictCopyPath(q, tag)
    ensures p == q
  {
    var d1, s1, e1 := CopyPathShape(p, tag);
    var d2, s2, e2 := CopyPathShape(q, tag);
    SplitUnique(ConflictCopyPath(p, tag), d1, s1 + CopyMark(tag) + e1, d2, s2 + CopyMark(tag) + e2);
    MarkedNameUnique(tag, s1, e1, s2, e2);
  }

  /** A copy name is never the path it copies. */
  lemma ConflictCopyLonger(p: string, tag: string)
    requires PlainTag(tag)
    ensures |ConflictCopyPath(p, tag)| > |p|
  {
    var d, s, e := CopyPathShape(p, tag);
  }

  const MAX_COPY: nat := 33554432  // 32 MiB

  /** A remote version that can be put next to the local one: its bytes are stored and not too many. */
  predicate Copyable(sizes: map<string, nat>, h: string) {
    h in sizes && sizes[h] <= MAX_COPY
  }

  /**
    resolveOverlaps: the local entries to keep at their paths and the remote ones to put
    beside them. `sizes` tells which blobs are stored and how long they are. It fails
    exactly when some remote version cannot be copied.
   */
  method ResolveOverlaps(overlapping: seq<string>, local: FlatMap, remote: FlatMap, tag: string,
                         sizes: map<string, nat>)
    returns (r: Result<(FlatMap, FlatMap)>)
    requires PlainTag(tag)
    ensures r.Ok? <==> forall p :: p in overlapping && p in remote ==> Copyable(sizes, remote[p])
    ensures r.Ok? ==> IsKept(overlapping, local, r.value.0) && IsCopied(overlapping, remote, tag, r.value.1)
  {
    var keep: FlatMap, copies: FlatMap := map[], map[];
    for i := 0 to |overlapping|
      invariant forall p :: p in overlapping[..i] && p in remote ==> Copyable(sizes, remote[p])
      invariant IsKept(overlapping[..i], local, keep)
      invariant IsCopied(overlapping[..i], remote, tag, copies)
    {
      var p := overlapping[i];
      assert overlapping[..i + 1] == overlapping[..i] + [p];
      if p in local {
        keep := keep[p := local[p]];
      }
      CopyStep(overlapping[..i], remote, tag, copies, p);
      if p !in remote { continue; }
      if !Copyable(sizes, remote[p]) {
        assert p in overlapping;
        return Err("cannot copy");
      }
      copies := copies[ConflictCopyPath(p, tag) := remote[p]];
    }
    assert overlapping[..|overlapping|] == overlapping;
    return Ok((keep, copies));
  }

  ghost predicate IsKept(overlapping: seq<string>, local: FlatMap, keep: FlatMap) {
    forall p :: At(keep, p) == if p in overlapping then At(local, p) else None
  }

  /** The copies are exactly the remote versions of overlapping paths, each under its copy name. */
  ghost predicate IsCopied(overlapping: seq<string>, remote: FlatMap, tag: string, copies: FlatMap) {
    && (forall p :: p in overlapping && p in remote ==> At(copies, ConflictCopyPath(p, tag)) == Some(remote[p]))
    && (forall c :: c in copies ==> exists p :: p in overlapping && p in remote && c == ConflictCopyPath(p, tag))
  }

  lemma CopyStep(done: seq<string>, remote: FlatMap, tag: string, copies: FlatMap, p: string)
    requires PlainTag(tag) && IsCopied(done, remote, tag, copies)
    ensures IsCopied(done + [p], remote, tag,
                     if p in remote then copies[ConflictCopyPath(p, tag) := remote[p]] else copies)
  {
    var copies' := if p in remote then copies[ConflictCopyPath(p, tag) := remote[p]] else copies;
    forall q | q in done + [p] && q in remote
      ensures At(copies', ConflictCopyPath(q, tag)) == Some(remote[q])
    {
      if ConflictCopyPath(q, tag) == ConflictCopyPath(p, tag) {
        ConflictCopyInjective(p, q, tag);
      }
    }
    forall c | c in copies'
      ensures exists q :: q in done + [p] && q in remote && c == ConflictCopyPath(q, tag)
    {
      if c in copies {
        var q :| q in done && q in remote && c == ConflictCopyPath(q, tag);
        assert q in done + [p];
      } else {
        assert p in done + [p];
      }
    }
  }

  /** A copy name is free when nothing else in the tree sits there, or the same content does. */
  ghost predicate CopyNamesFree(overlapping: seq<string>, remote: FlatMap, tag: string, others: FlatMap) {
    forall p :: p in overlapping && p in remote && ConflictCopyPath(p, tag) in others ==>
      others[ConflictCopyPath(p, tag)] == remote[p]
  }

  ghost predicate Within(a: FlatMap, b: FlatMap) {
    forall p :: p in a ==> p in b && b[p] == a[p]
  }

  /**
    integrate's tree for an overlapping merge: every overlapping remote version is in it
    under its copy name, and the paths that are not copy names follow the merge and the
    local side.
   */
  lemma OverlapsKept(overlapping: seq<string>, local: FlatMap, remote: FlatMap, tag: string,
                     merged: FlatMap, keep: FlatMap, copies: FlatMap)
    requires forall p :: p in overlapping ==> p !in merged
    requires IsKept(overlapping, local, keep) && IsCopied(overlapping, remote, tag, copies)
    ensures forall p :: p in overlapping && p in remote ==>
      At(merged + keep + copies, ConflictCopyPath(p, tag)) == Some(remote[p])
    ensures forall p :: p !in copies ==>
      At(merged + keep + copies, p) == if p in overlapping then At(local, p) else At(merged, p)
  {
    KeepApart(overlapping, local, merged, keep);
    var others := merged + keep;
    forall p | p in overlapping && p in remote
      ensures At(others + copies, ConflictCopyPath(p, tag)) == Some(remote[p])
    {
      assert At(copies, ConflictCopyPath(p, tag)) == Some(remote[p]);
    }
    assert forall p :: p !in copies ==> At(others + copies, p) == At(others, p);
  }

  /** Nothing of the merge or of the local side is lost exactly when the copy names are free. */
  lemma OverlapsLoseNothing(overlapping: seq<string>, local: FlatMap, remote: FlatMap, tag: string,
                            merged: FlatMap, keep: FlatMap, copies: FlatMap)
    requires forall p :: p in overlapping ==> p !in merged
    requires IsKept(overlapping, local, keep) && IsCopied(overlapping, remote, tag, copies)
    ensures Within(merged, merged + keep + copies) && Within(keep, merged + keep + copies) <==>
      CopyNamesFree(overlapping, remote, tag, merged + keep)
  {
    KeepApart(overlapping, local, merged, keep);
    CopiesAgree(overlapping, remote, tag, copies, merged + keep);
    Overlay(merged + keep, copies);
  }

  /** Every path that tryMerge takes is a path of one of the tips. */
  lemma TakenFromTips(bm: FlatMap, lm: FlatMap, rm: FlatMap, merged: FlatMap, overlapping: seq<string>)
    requires forall p :: Outcome(merged, overlapping, p) == TryMergeAt(bm, lm, rm, p)
    requires forall p :: p in overlapping ==> p !in merged
    ensures merged.Keys <= lm.Keys + rm.Keys
  {
    forall p | p in merged
      ensures p in lm || p in rm
    {
      assert Outcome(merged, overlapping, p) == Take(Some(merged[p]));
    }
  }

  /** Nothing is lost when no copy name is a path of either tip. */
  lemma NewCopyNamesLoseNothing(base: FlatMap, local: FlatMap, remote: FlatMap, tag: string, overlapping: seq<string>,
                                merged: FlatMap, keep: FlatMap, copies: FlatMap)
    requires forall p :: Outcome(merged, overlapping, p) == TryMergeAt(base, local, remote, p)
    requires forall p :: p in overlapping ==> p !in merged
    requires IsKept(overlapping, local, keep) && IsCopied(overlapping, remote, tag, copies)
    requires forall p :: p in overlapping && p in remote ==>
      ConflictCopyPath(p, tag) !in local && ConflictCopyPath(p, tag) !in remote
    ensures Within(merged, merged + keep + copies) && Within(keep, merged + keep + copies)
  {
    TakenFromTips(base, local, remote, merged, overlapping);
    forall p | p in keep
      ensures p in local
    {
      assert At(keep, p) == if p in overlapping then At(local, p) else None;
    }
    OverlapsLoseNothing(overlapping, local, remote, tag, merged, keep, copies);
  }

  lemma Overlay(others: FlatMap, copies: FlatMap)
    ensures Within(others, others + copies) <==> forall c :: c in copies && c in others ==> copies[c] == others[c]
  {
    var tree := others + copies;
    if Within(others, tree) {
      forall c | c in copies && c in others
        ensures copies[c] == others[c]
      {
        assert tree[c] == copies[c];
      }
    }
  }

  lemma KeepApart(overlapping: seq<string>, local: FlatMap, merged: FlatMap, keep: FlatMap)
    requires forall p :: p in overlapping ==> p !in merged
    requires IsKept(overlapping, local, keep)
    ensures forall p :: At(merged + keep, p) == if p in overlapping then At(local, p) else At(merged, p)
    ensures forall tree :: Within(merged, tree) && Within(keep, tree) <==> Within(merged + keep, tree)
  {
    forall p
      ensures p in keep ==> p !in merged
      ensures At(merged + keep, p) == if p in overlapping then At(local, p) else At(merged, p)
    {
      assert At(keep, p) == if p in overlapping then At(local, p) else None;
    }
  }

  lemma CopiesAgree(overlapping: seq<string>, remote: FlatMap, tag: string, copies: FlatMap, others: FlatMap)
    requires IsCopied(overlapping, remote, tag, copies)
    ensures CopyNamesFree(overlapping, remote, tag, others) <==>
      forall c :: c in copies && c in others ==> copies[c] == others[c]
  {
    if CopyNamesFree(overlapping, remote, tag, others) {
      FreeNamesAgree(overlapping, remote, tag, copies, others);
    }
    if forall c :: c in copies && c in others ==> copies[c] == others[c] {
      forall p | p in overlapping && p in remote && ConflictCopyPath(p, tag) in others
        ensures others[ConflictCopyPath(p, tag)] == remote[p]
      {
        assert At(copies, ConflictCopyPath(p, tag)) == Some(remote[p]);
      }
    }
  }

  lemma FreeNamesAgree(overlapping: seq<string>, remote: FlatMap, tag: string, copies: FlatMap, others: FlatMap)
    requires IsCopied(overlapping, remote, tag, copies) && CopyNamesFree(overlapping, remote, tag, others)
    ensures forall c :: c in copies && c in others ==> copies[c] == others[c]
  {
    forall c | c in copies && c in others
      ensures copies[c] == others[c]
    {
      var p :| p in overlapping && p in remote && c == ConflictCopyPath(p, tag);
      assert At(copies, c) == Some(remote[p]);
    }
  }
}
