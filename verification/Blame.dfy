/**
  Line attribution (internal/gitcompat/blame.go): a walk along first parents that carries
  each undecided line of the tip's file back to its place in the older version.
*/
module Blame {
  import opened Dag
  import DagWalk
  import opened Diff
  import opened Hunks
  import opened Merge
  import opened Text

  /** The stored commits, flattened trees and readable objects, and the file in question. */
  datatype History = History(g: Graph, trees: map<Hash, FlatMap>, objects: map<string, string>, path: string)

  datatype BlameLine = BlameLine(hash: Hash, author: string, time: int, lineno: nat, text: string)

  /** A line still to be attributed: its number in the version at hand and at the tip. */
  datatype Live = Live(num: nat, idx: nat)

  /** The lines of a text, without the empty piece after a final newline. */
  function SplitLines(s: string): (lines: seq<string>)
    ensures s == Join(lines, '\n') || s == Join(lines, '\n') + "\n"
  {
    JoinSplit(s, '\n');
    if s == "" then []
    else
      var lines := Split(s, '\n');
      if lines[|lines| - 1] == "" then (JoinDropsLast(lines); lines[..|lines| - 1]) else lines
  }

  lemma {:induction false} JoinDropsLast(lines: seq<string>)
    requires lines != [] && lines[|lines| - 1] == ""
    ensures var rest := lines[..|lines| - 1];
            Join(lines, '\n') == if rest == [] then "" else Join(rest, '\n') + "\n"
    decreases |lines|
  {
    if |lines| > 1 {
      JoinDropsLast(lines[1..]);
      var rest := lines[..|lines| - 1];
      assert rest[1..] == lines[1..][..|lines| - 2];
      assert |lines| > 2 ==> Join(rest, '\n') == rest[0] + "\n" + Join(rest[1..], '\n');
    }
  }

  // ---------- Versions of the file ----------

  predicate Stored(hs: History, c: Hash) {
    c in hs.g && hs.g[c].tree in hs.trees
  }

  function FileAt(hs: History, c: Hash): string
    requires Stored(hs, c)
  {
    Get(hs.trees[hs.g[c].tree], hs.path)
  }

  function LinesOf(hs: History, x: string): seq<string> {
    if x in hs.objects then SplitLines(hs.objects[x]) else []
  }

  /** The version's lines; none when it does not hold the file. */
  function LinesAt(hs: History, c: Hash): seq<string>
    requires Stored(hs, c)
  {
    if FileAt(hs, c) == "" then [] else LinesOf(hs, FileAt(hs, c))
  }

  function LineScript(a: seq<string>, b: seq<string>): seq<Op> {
    Script(Large(a, b), a, b, 0, 0)
  }

  /** Where line `n` of the new text comes from: a line of the old text, or nowhere when it was added. */
  function Source(ops: seq<Op>, n: nat): Option<nat> {
    if ops == [] then None
    else if ops[0].kind != Del && ops[0].bIdx == n then
      if ops[0].kind == Equal then Some(ops[0].aIdx) else None
    else Source(ops[1..], n)
  }

  /** The first parent of `c`, with its version of the file, can be read. */
  predicate ParentReadable(hs: History, c: Hash)
    requires Stored(hs, c) && hs.g[c].parents != []
  {
    var p := hs.g[c].parents[0];
    Stored(hs, p) && (FileAt(hs, p) == FileAt(hs, c) || FileAt(hs, p) == "" || FileAt(hs, p) in hs.objects)
  }

  /** The same, for line `n`: its place in the parent's version. */
  function InParent(hs: History, c: Hash, n: nat): Option<nat>
    requires Stored(hs, c) && hs.g[c].parents != [] && ParentReadable(hs, c)
  {
    var p := hs.g[c].parents[0];
    if FileAt(hs, p) == FileAt(hs, c) then Some(n) else Source(LineScript(LinesAt(hs, p), LinesAt(hs, c)), n)
  }

  /** The commit that introduced line `n` of version `c`, or an error where a version on the way cannot be read. */
  ghost function Origin(hs: History, c: Hash, n: nat): Result<Hash>
    requires Acyclic(hs.g) && Stored(hs, c)
    decreases |Anc(hs.g, c)|
  {
    if hs.g[c].parents == [] then Ok(c)
    else if !ParentReadable(hs, c) then Err("unreadable version")
    else
      match InParent(hs, c, n)
      case None => Ok(c)
      case Some(k) =>
        ParentHasFewer(hs.g, c);
        Origin(hs, hs.g[c].parents[0], k)
  }

  lemma ParentHasFewer(g: Graph, c: Hash)
    requires Acyclic(g) && c in g && g[c].parents != []
    ensures |Anc(g, g[c].parents[0])| < |Anc(g, c)|
  {
    var p := g[c].parents[0];
    ReachParent(g, c, p);
    AncIsReach(g, c, p);
    AncTrans(g, c, p);
    AncSelf(g, c);
    if c in Anc(g, p) {
      AncIsReach(g, p, c);
      ReachTrans(g, c, p, c);
    }
    FewerMembers(Anc(g, p), Anc(g, c), c);
  }

  lemma FewerMembers(s: set<Hash>, t: set<Hash>, x: Hash)
    requires s <= t && x in t && x !in s
    ensures |s| < |t|
  {
    DagWalk.SubsetCard(s, t - {x});
  }

  // ---------- What a script says of a line ----------

  /** Every new line is added or comes from an equal old line, inside the part of the texts the script covers. */
  lemma {:induction false} SourceHolds(ops: seq<Op>, a: seq<string>, b: seq<string>, i: nat, j: nat, n: nat)
    requires i <= |a| && j <= |b| && IsScript(ops, a, b, i, j) && n < |b|
    ensures Source(ops, n).Some? ==> j <= n && i <= Source(ops, n).value < |a| && a[Source(ops, n).value] == b[n]
    decreases |ops|
  {
    if ops != [] {
      match ops[0].kind
      case Equal => SourceHolds(ops[1..], a, b, i + 1, j + 1, n);
      case Del => SourceHolds(ops[1..], a, b, i + 1, j, n);
      case Add => SourceHolds(ops[1..], a, b, i, j + 1, n);
    }
  }

  /** Carried lines keep their order. */
  lemma {:induction false} SourceIncreases(ops: seq<Op>, a: seq<string>, b: seq<string>, i: nat, j: nat, m: nat, n: nat)
    requires i <= |a| && j <= |b| && IsScript(ops, a, b, i, j) && m < n < |b|
    requires Source(ops, m).Some? && Source(ops, n).Some?
    ensures Source(ops, m).value < Source(ops, n).value
    decreases |ops|
  {
    match ops[0].kind
    case Equal =>
      SourceHolds(ops[1..], a, b, i + 1, j + 1, m);
      SourceHolds(ops[1..], a, b, i + 1, j + 1, n);
      if j != m && j != n {
        SourceIncreases(ops[1..], a, b, i + 1, j + 1, m, n);
      }
    case Del => SourceIncreases(ops[1..], a, b, i + 1, j, m, n);
    case Add => SourceIncreases(ops[1..], a, b, i, j + 1, m, n);
  }

  /** A line has no source exactly when the script adds it; each line is added or kept once. */
  lemma {:induction false} SourceIsStep(ops: seq<Op>, a: seq<string>, b: seq<string>, i: nat, j: nat, n: nat)
    returns (t: nat)
    requires i <= |a| && j <= |b| && IsScript(ops, a, b, i, j) && j <= n < |b|
    ensures t < |ops| && ops[t].bIdx == n && ops[t].kind == (if Source(ops, n) == None then Add else Equal)
    ensures Source(ops, n).Some? ==> Source(ops, n).value == ops[t].aIdx
    ensures forall u :: 0 <= u < |ops| && ops[u].kind != Del && ops[u].bIdx == n ==> u == t
    decreases |ops|
  {
    var rest := ops[1..];
    if ops[0].kind == Del {
      t := SourceIsStep(rest, a, b, i + 1, j, n);
      t := t + 1;
    } else if j == n {
      t := 0;
      StepsFrom(rest, a, b, if ops[0].kind == Equal then i + 1 else i, j + 1);
    } else {
      t := SourceIsStep(rest, a, b, if ops[0].kind == Equal then i + 1 else i, j + 1, n);
      t := t + 1;
    }
    assert forall u :: 1 <= u < |ops| ==> ops[u] == rest[u - 1];
  }

  lemma {:induction false} StepsFrom(ops: seq<Op>, a: seq<string>, b: seq<string>, i: nat, j: nat)
    requires i <= |a| && j <= |b| && IsScript(ops, a, b, i, j)
    ensures forall u :: 0 <= u < |ops| ==> ops[u].bIdx >= j
    decreases |ops|
  {
    if ops != [] {
      StepsFrom(ops[1..], a, b, if ops[0].kind == Add then i else i + 1, if ops[0].kind == Del then j else j + 1);
      assert forall u :: 1 <= u < |ops| ==> ops[u] == ops[1..][u - 1];
    }
  }

  // ---------- What an origin is ----------

  /** Line `n` of `c` was introduced by `c`: a root, or the script from its first parent's version adds it. */
  ghost predicate Born(hs: History, c: Hash, n: nat) {
    && Stored(hs, c)
    && (hs.g[c].parents == [] || (ParentReadable(hs, c) && InParent(hs, c, n) == None))
  }

  /** Line `n` of `c` is line `k` of its first parent `p`. */
  ghost predicate Carried(hs: History, c: Hash, n: nat, p: Hash, k: nat) {
    && Stored(hs, c) && hs.g[c].parents != [] && p == hs.g[c].parents[0]
    && ParentReadable(hs, c) && InParent(hs, c, n) == Some(k)
  }

  /** A line followed back through first parents to its birth. */
  ghost predicate Trail(hs: History, tr: seq<(Hash, nat)>)
    decreases |tr|
  {
    && tr != []
    && if |tr| == 1 then Born(hs, tr[0].0, tr[0].1)
       else Carried(hs, tr[0].0, tr[0].1, tr[1].0, tr[1].1) && Trail(hs, tr[1..])
  }

  /** A line has an origin exactly when it has a trail, and the trail ends there. */
  lemma {:induction false} OriginHasTrail(hs: History, c: Hash, n: nat) returns (tr: seq<(Hash, nat)>)
    requires Acyclic(hs.g) && Stored(hs, c) && Origin(hs, c, n).Ok?
    ensures Trail(hs, tr) && tr[0] == (c, n) && tr[|tr| - 1].0 == Origin(hs, c, n).value
    decreases |Anc(hs.g, c)|
  {
    if hs.g[c].parents == [] || InParent(hs, c, n) == None {
      tr := [(c, n)];
    } else {
      ParentHasFewer(hs.g, c);
      var rest := OriginHasTrail(hs, hs.g[c].parents[0], InParent(hs, c, n).value);
      tr := [(c, n)] + rest;
      assert tr[1..] == rest;
    }
  }

  lemma {:induction false} TrailEndsAtOrigin(hs: History, tr: seq<(Hash, nat)>)
    requires Acyclic(hs.g) && Trail(hs, tr)
    ensures Stored(hs, tr[0].0) && Origin(hs, tr[0].0, tr[0].1) == Ok(tr[|tr| - 1].0)
    decreases |tr|
  {
    if |tr| > 1 {
      TrailEndsAtOrigin(hs, tr[1..]);
      ParentHasFewer(hs.g, tr[0].0);
    }
  }

  /** Along a trail the line stands in every version with one text. */
  lemma {:induction false} TrailKeepsText(hs: History, tr: seq<(Hash, nat)>, t: nat)
    requires Trail(hs, tr) && tr[0].1 < |LinesAt(hs, tr[0].0)| && t < |tr|
    ensures Stored(hs, tr[t].0) && tr[t].1 < |LinesAt(hs, tr[t].0)|
    ensures LinesAt(hs, tr[t].0)[tr[t].1] == LinesAt(hs, tr[0].0)[tr[0].1]
    decreases |tr|
  {
    if t > 0 {
      var c, p := tr[0].0, tr[1].0;
      if FileAt(hs, p) != FileAt(hs, c) {
        var a, b := LinesAt(hs, p), LinesAt(hs, c);
        ScriptValid(Large(a, b), a, b, 0, 0);
        SourceHolds(LineScript(a, b), a, b, 0, 0, tr[0].1);
      }
      TrailKeepsText(hs, tr[1..], t - 1);
    }
  }

  // ---------- The walk ----------

  ghost function Undecided(out: seq<Option<BlameLine>>): set<nat> {
    set i | 0 <= i < |out| && out[i] == None
  }

  lemma Decide(out: seq<Option<BlameLine>>, i: nat, l: BlameLine)
    requires i < |out| && out[i] == None
    ensures |Undecided(out[i := Some(l)])| == |Undecided(out)| - 1
  {
    assert Undecided(out[i := Some(l)]) == Undecided(out) - {i};
  }

  function Attributed(hs: History, c: Hash, i: nat, lines: seq<string>): BlameLine
    requires c in hs.g && i < |lines|
  {
    BlameLine(c, hs.g[c].author, hs.g[c].timestamp, i + 1, lines[i])
  }

  /** Line `i` is decided rightly, or stands with the same text and the same origin in version `cur`. */
  ghost predicate Tracked(hs: History, tip: Hash, cur: Hash, lines: seq<string>, lv: Live, o: Option<BlameLine>, i: nat)
    requires Acyclic(hs.g) && Stored(hs, tip) && Stored(hs, cur) && i < |lines|
  {
    && lv.idx == i
    && match o
       case Some(l) => Origin(hs, tip, i).Ok? && Origin(hs, tip, i).value in hs.g
         && l == Attributed(hs, Origin(hs, tip, i).value, i, lines)
       case None =>
         && lv.num < |LinesAt(hs, cur)| && LinesAt(hs, cur)[lv.num] == lines[i]
         && Origin(hs, cur, lv.num) == Origin(hs, tip, i)
  }

  /** The state between two steps of the walk. */
  ghost predicate Walking(hs: History, tip: Hash, cur: Hash, lines: seq<string>, lives: seq<Live>,
                          out: seq<Option<BlameLine>>)
    requires Acyclic(hs.g) && Stored(hs, tip) && Stored(hs, cur)
  {
    && |lives| == |out| == |lines|
    && (forall i {:trigger lives[i]} {:trigger out[i]} :: 0 <= i < |lines| ==>
      Tracked(hs, tip, cur, lines, lives[i], out[i], i))
    && InOrder(lives, out)
  }

  /** Undecided lines keep strictly increasing numbers. */
  ghost predicate InOrder(lives: seq<Live>, out: seq<Option<BlameLine>>)
    requires |lives| == |out|
  {
    forall i, k :: 0 <= i < k < |lives| && out[i] == None && out[k] == None ==> lives[i].num < lives[k].num
  }

  /** What one script does to one line. */
  ghost predicate Moved(hs: History, cur: Hash, lines: seq<string>, ops: seq<Op>,
                        lv: Live, o: Option<BlameLine>, lv': Live, o': Option<BlameLine>, i: nat)
    requires cur in hs.g && i < |lines|
  {
    if o != None then lv' == lv && o' == o
    else
      match Source(ops, lv.num)
      case None => lv' == lv && o' == Some(Attributed(hs, cur, i, lines))
      case Some(k) => lv' == Live(k, i) && o' == None
  }

  /** attr: everything still open was born in `c`. */
  method AttributeRest(hs: History, c: Hash, lines: seq<string>, lives: seq<Live>, out0: seq<Option<BlameLine>>)
    returns (out: seq<Option<BlameLine>>)
    requires c in hs.g && |lives| == |out0| == |lines|
    requires forall i :: 0 <= i < |lives| ==> lives[i].idx == i
    ensures |out| == |out0|
    ensures forall i :: 0 <= i < |out| ==>
      out[i] == if out0[i] != None then out0[i] else Some(Attributed(hs, c, i, lines))
  {
    out := out0;
    for t := 0 to |lives|
      invariant |out| == |out0|
      invariant forall i :: 0 <= i < t ==>
        out[i] == if out0[i] != None then out0[i] else Some(Attributed(hs, c, i, lines))
      invariant forall i :: t <= i < |out| ==> out[i] == out0[i]
    {
      var lv := lives[t];
      if out[lv.idx] != None { continue; }
      out := out[lv.idx := Some(Attributed(hs, c, lv.idx, lines))];
    }
  }

  /** The index of undecided lines by their number in the newer version. */
  method IndexLives(lives: seq<Live>, out: seq<Option<BlameLine>>) returns (byNew: map<nat, nat>)
    requires |lives| == |out| && InOrder(lives, out)
    requires forall i :: 0 <= i < |lives| ==> lives[i].idx == i
    ensures forall n :: n in byNew ==> byNew[n] < |lives| && out[byNew[n]] == None && lives[byNew[n]].num == n
    ensures forall i :: 0 <= i < |lives| && out[i] == None ==> lives[i].num in byNew && byNew[lives[i].num] == i
  {
    byNew := map[];
    for t := 0 to |lives|
      invariant forall n :: n in byNew ==> byNew[n] < t && out[byNew[n]] == None && lives[byNew[n]].num == n
      invariant forall i :: 0 <= i < t && out[i] == None ==> lives[i].num in byNew && byNew[lives[i].num] == i
    {
      if out[lives[t].idx] == None {
        byNew := byNew[lives[t].num := t];
      }
    }
  }

  /** One line after the script's first steps: moved if its number lies below `j`, untouched otherwise. */
  ghost predicate MovedBelow(hs: History, cur: Hash, lines: seq<string>, ops: seq<Op>, j: nat, byNew: map<nat, nat>,
                             lv: Live, o: Option<BlameLine>, lv': Live, o': Option<BlameLine>, i: nat)
    requires cur in hs.g && i < |lines|
  {
    if o != None || lv.num < j then Moved(hs, cur, lines, ops, lv, o, lv', o', i)
    else lv' == lv && o' == o && lv.num in byNew && byNew[lv.num] == i
  }

  /** What is left of the index at or past `j` still names undecided lines. */
  ghost predicate Indexed(lives: seq<Live>, out: seq<Option<BlameLine>>, byNew: map<nat, nat>, j: nat)
    requires |lives| == |out|
  {
    forall n {:trigger n in byNew} {:trigger byNew[n]} :: n in byNew && n >= j ==>
      byNew[n] < |lives| && out[byNew[n]] == None && lives[byNew[n]].num == n
  }

  /** The lines after the script's first steps, which have covered the new text up to `j`. */
  ghost predicate Partway(hs: History, cur: Hash, lines: seq<string>, ops: seq<Op>, j: nat, byNew: map<nat, nat>,
                          lives0: seq<Live>, out0: seq<Option<BlameLine>>,
                          lives: seq<Live>, out: seq<Option<BlameLine>>)
    requires cur in hs.g
  {
    && |lives0| == |out0| == |lives| == |out| == |lines|
    && Indexed(lives0, out0, byNew, j)
    && forall x {:trigger lives[x]} {:trigger out[x]} :: 0 <= x < |lines| ==>
         lives0[x].idx == x && MovedBelow(hs, cur, lines, ops, j, byNew, lives0[x], out0[x], lives[x], out[x], x)
  }

  /** One step of the script that reaches line `j` of the new text. */
  method TakeLine(hs: History, cur: Hash, lines: seq<string>, ghost ops: seq<Op>, o: Op, byNew0: map<nat, nat>,
                  ghost lives0: seq<Live>, ghost out0: seq<Option<BlameLine>>,
                  lives1: seq<Live>, out1: seq<Option<BlameLine>>)
    returns (lives: seq<Live>, out: seq<Option<BlameLine>>, byNew: map<nat, nat>, born: nat)
    requires cur in hs.g && Partway(hs, cur, lines, ops, o.bIdx, byNew0, lives0, out0, lives1, out1)
    requires o.kind != Del && Source(ops, o.bIdx) == if o.kind == Equal then Some(o.aIdx) else None
    ensures Partway(hs, cur, lines, ops, o.bIdx + 1, byNew, lives0, out0, lives, out)
    ensures born + |Undecided(out)| == |Undecided(out1)|
  {
    lives, out, byNew, born := lives1, out1, byNew0, 0;
    if o.bIdx in byNew {
      var li := byNew[o.bIdx];
      var lv := lives[li];
      assert lives0[li].num == o.bIdx && out[li] == None;
      match o.kind {
        case Add =>
          Decide(out, lv.idx, Attributed(hs, cur, lv.idx, lines));
          out := out[lv.idx := Some(Attributed(hs, cur, lv.idx, lines))];
          born := 1;
          byNew := map n | n in byNew && n != o.bIdx :: byNew[n];
        case Equal =>
          lives := lives[li := Live(o.aIdx, lv.idx)];
      }
    }
    forall x | 0 <= x < |lines|
      ensures MovedBelow(hs, cur, lines, ops, o.bIdx + 1, byNew, lives0[x], out0[x], lives[x], out[x], x)
    {
      assert MovedBelow(hs, cur, lines, ops, o.bIdx, byNew0, lives0[x], out0[x], lives1[x], out1[x], x);
    }
  }

  /** Runs the script over the undecided lines. */
  method Renumber(hs: History, cur: Hash, lines: seq<string>, ghost a: seq<string>, ghost b: seq<string>, ops: seq<Op>,
                  lives0: seq<Live>, out0: seq<Option<BlameLine>>)
    returns (lives: seq<Live>, out: seq<Option<BlameLine>>, decided: nat)
    requires cur in hs.g && |lives0| == |out0| == |lines| && InOrder(lives0, out0)
    requires forall i :: 0 <= i < |lives0| ==> lives0[i].idx == i
    requires forall i :: 0 <= i < |lives0| && out0[i] == None ==> lives0[i].num < |b|
    requires IsScript(ops, a, b, 0, 0)
    ensures |lives| == |out| == |lines|
    ensures forall i {:trigger lives[i]} {:trigger out[i]} :: 0 <= i < |lines| ==>
      Moved(hs, cur, lines, ops, lives0[i], out0[i], lives[i], out[i], i)
    ensures decided + |Undecided(out)| == |Undecided(out0)|
  {
    var byNew := IndexLives(lives0, out0);
    lives, out, decided := lives0, out0, 0;
    ghost var i: nat, j: nat := 0, 0;
    assert ops[0..] == ops;
    for t := 0 to |ops|
      invariant i <= |a| && j <= |b| && IsScript(ops[t..], a, b, i, j)
      invariant forall n: nat :: n >= j ==> Source(ops, n) == Source(ops[t..], n)
      invariant Partway(hs, cur, lines, ops, j, byNew, lives0, out0, lives, out)
      invariant decided + |Undecided(out)| == |Undecided(out0)|
    {
      var o := ops[t];
      assert ops[t..][0] == o && ops[t..][1..] == ops[t + 1..];
      if o.kind != Del {
        var born;
        lives, out, byNew, born := TakeLine(hs, cur, lines, ops, o, byNew, lives0, out0, lives, out);
        decided := decided + born;
        j := j + 1;
      }
      if o.kind != Add { i := i + 1; }
    }
    assert ops[|ops|..] == [];
  }

  // ---------- Blame ----------

  lemma SomeUndecided(out: seq<Option<BlameLine>>) returns (i: nat)
    requires Undecided(out) != {}
    ensures i < |out| && out[i] == None
  {
    i :| i in Undecided(out);
  }

  /** A step over an unchanged version. */
  lemma UnchangedStep(hs: History, tip: Hash, cur: Hash, lines: seq<string>, lives: seq<Live>,
                      out: seq<Option<BlameLine>>)
    requires Acyclic(hs.g) && Stored(hs, tip) && Stored(hs, cur) && Walking(hs, tip, cur, lines, lives, out)
    requires hs.g[cur].parents != [] && ParentReadable(hs, cur) && FileAt(hs, hs.g[cur].parents[0]) == FileAt(hs, cur)
    ensures Walking(hs, tip, hs.g[cur].parents[0], lines, lives, out)
  {
    var p := hs.g[cur].parents[0];
    forall i | 0 <= i < |lines|
      ensures Tracked(hs, tip, p, lines, lives[i], out[i], i)
    {
      assert Tracked(hs, tip, cur, lines, lives[i], out[i], i);
    }
  }

  /** One line over a changed version. */
  lemma ChangedLine(hs: History, tip: Hash, cur: Hash, lines: seq<string>, lv: Live, o: Option<BlameLine>, lv': Live,
                    o': Option<BlameLine>, i: nat)
    requires Acyclic(hs.g) && Stored(hs, tip) && Stored(hs, cur) && i < |lines|
      && Tracked(hs, tip, cur, lines, lv, o, i)
    requires hs.g[cur].parents != [] && ParentReadable(hs, cur) && FileAt(hs, hs.g[cur].parents[0]) != FileAt(hs, cur)
    requires Moved(hs, cur, lines, LineScript(LinesAt(hs, hs.g[cur].parents[0]), LinesAt(hs, cur)), lv, o, lv', o', i)
    ensures Tracked(hs, tip, hs.g[cur].parents[0], lines, lv', o', i)
  {
    if o == None {
      var a, b := LinesAt(hs, hs.g[cur].parents[0]), LinesAt(hs, cur);
      ScriptValid(Large(a, b), a, b, 0, 0);
      SourceHolds(LineScript(a, b), a, b, 0, 0, lv.num);
    }
  }

  /** All lines over a changed version: those carried keep their order. */
  lemma ChangedStep(hs: History, tip: Hash, cur: Hash, lines: seq<string>, lives: seq<Live>,
                    out: seq<Option<BlameLine>>,
                    lives': seq<Live>, out': seq<Option<BlameLine>>)
    requires Acyclic(hs.g) && Stored(hs, tip) && Stored(hs, cur) && Walking(hs, tip, cur, lines, lives, out)
    requires hs.g[cur].parents != [] && ParentReadable(hs, cur) && FileAt(hs, hs.g[cur].parents[0]) != FileAt(hs, cur)
    requires |lives'| == |out'| == |lines|
    requires var ops := LineScript(LinesAt(hs, hs.g[cur].parents[0]), LinesAt(hs, cur));
             forall i {:trigger lives'[i]} {:trigger out'[i]} :: 0 <= i < |lines| ==>
               Moved(hs, cur, lines, ops, lives[i], out[i], lives'[i], out'[i], i)
    ensures Walking(hs, tip, hs.g[cur].parents[0], lines, lives', out')
  {
    var p := hs.g[cur].parents[0];
    var a, b := LinesAt(hs, p), LinesAt(hs, cur);
    var ops := LineScript(a, b);
    ScriptValid(Large(a, b), a, b, 0, 0);
    forall i | 0 <= i < |lines|
      ensures Tracked(hs, tip, p, lines, lives'[i], out'[i], i)
    {
      ChangedLine(hs, tip, cur, lines, lives[i], out[i], lives'[i], out'[i], i);
    }
    forall i, k | 0 <= i < k < |lives'| && out'[i] == None && out'[k] == None
      ensures lives'[i].num < lives'[k].num
    {
      assert Moved(hs, cur, lines, ops, lives[i], out[i], lives'[i], out'[i], i);
      assert Moved(hs, cur, lines, ops, lives[k], out[k], lives'[k], out'[k], k);
      assert Tracked(hs, tip, cur, lines, lives[k], out[k], k);
      SourceIncreases(ops, a, b, 0, 0, lives[i].num, lives[k].num);
    }
  }

  /** The file at the tip can be read as text. */
  predicate Openable(hs: History, tip: Hash) {
    && Stored(hs, tip) && hs.path in hs.trees[hs.g[tip].tree]
    && FileAt(hs, tip) != "" && FileAt(hs, tip) in hs.objects && !IsBinary(hs.objects[FileAt(hs, tip)])
  }

  method StartLives(lines: seq<string>) returns (lives: seq<Live>, out: seq<Option<BlameLine>>)
    ensures |lives| == |out| == |lines| && |Undecided(out)| == |lines|
    ensures forall i :: 0 <= i < |lines| ==> lives[i] == Live(i, i) && out[i] == None
  {
    lives, out := [], [];
    for i := 0 to |lines|
      invariant |lives| == |out| == i == |Undecided(out)|
      invariant forall k :: 0 <= k < i ==> lives[k] == Live(k, k) && out[k] == None
    {
      ghost var before := out;
      lives, out := lives + [Live(i, i)], out + [None];
      assert Undecided(out) == Undecided(before) + {i};
    }
  }

  /** Every line of the file has an origin. */
  ghost predicate Traceable(hs: History, tip: Hash)
    requires Acyclic(hs.g) && Stored(hs, tip)
  {
    forall i :: 0 <= i < |LinesAt(hs, tip)| ==> Origin(hs, tip, i).Ok?
  }

  lemma Stuck(hs: History, tip: Hash, cur: Hash, lines: seq<string>, lives: seq<Live>, out: seq<Option<BlameLine>>,
              i: nat)
    requires Acyclic(hs.g) && Stored(hs, tip) && Stored(hs, cur) && lines == LinesAt(hs, tip)
    requires Walking(hs, tip, cur, lines, lives, out) && i < |out| && out[i] == None
    requires hs.g[cur].parents != [] && !ParentReadable(hs, cur)
    ensures !Traceable(hs, tip)
  {
    assert Tracked(hs, tip, cur, lines, lives[i], out[i], i);
    assert !Origin(hs, tip, i).Ok?;
  }

  /** At a root, everything still open was born there. */
  method Settle(hs: History, ghost tip: Hash, cur: Hash, lines: seq<string>, lives: seq<Live>,
                out0: seq<Option<BlameLine>>)
    returns (out: seq<Option<BlameLine>>)
    requires Acyclic(hs.g) && Stored(hs, tip) && Stored(hs, cur) && Walking(hs, tip, cur, lines, lives, out0)
    requires hs.g[cur].parents == []
    ensures Walking(hs, tip, cur, lines, lives, out) && Undecided(out) == {}
  {
    assert forall i :: 0 <= i < |lines| ==> Tracked(hs, tip, cur, lines, lives[i], out0[i], i);
    out := AttributeRest(hs, cur, lines, lives, out0);
    forall i | 0 <= i < |lines|
      ensures Tracked(hs, tip, cur, lines, lives[i], out[i], i)
    {
      assert Tracked(hs, tip, cur, lines, lives[i], out0[i], i);
    }
  }

  /** A changed version: lines its script adds are attributed to it, the others move to the parent. */
  method Recede(hs: History, ghost tip: Hash, cur: Hash, lines: seq<string>, lives0: seq<Live>,
                out0: seq<Option<BlameLine>>)
    returns (lives: seq<Live>, out: seq<Option<BlameLine>>, born: nat)
    requires Acyclic(hs.g) && Stored(hs, tip) && Stored(hs, cur) && Walking(hs, tip, cur, lines, lives0, out0)
    requires hs.g[cur].parents != [] && ParentReadable(hs, cur) && FileAt(hs, hs.g[cur].parents[0]) != FileAt(hs, cur)
    ensures Walking(hs, tip, hs.g[cur].parents[0], lines, lives, out)
    ensures born + |Undecided(out)| == |Undecided(out0)|
  {
    var a, b := LinesAt(hs, hs.g[cur].parents[0]), LinesAt(hs, cur);
    var ops := LcsOps(a, b);
    ScriptValid(Large(a, b), a, b, 0, 0);
    assert forall i :: 0 <= i < |lines| ==> Tracked(hs, tip, cur, lines, lives0[i], out0[i], i);
    lives, out, born := Renumber(hs, cur, lines, a, b, ops, lives0, out0);
    ChangedStep(hs, tip, cur, lines, lives0, out0, lives, out);
  }

  /** The filled table of lines. */
  method Settled(hs: History, ghost tip: Hash, ghost cur: Hash, lines: seq<string>, lives: seq<Live>,
                 out: seq<Option<BlameLine>>)
    returns (all: seq<BlameLine>)
    requires Acyclic(hs.g) && Stored(hs, tip) && Stored(hs, cur) && Walking(hs, tip, cur, lines, lives, out)
    requires Undecided(out) == {}
    ensures |all| == |lines|
    ensures forall i :: 0 <= i < |lines| ==>
      Origin(hs, tip, i).Ok? && Origin(hs, tip, i).value in hs.g
        && all[i] == Attributed(hs, Origin(hs, tip, i).value, i, lines)
  {
    all := [];
    for i := 0 to |lines|
      invariant |all| == i
      invariant forall k :: 0 <= k < i ==>
        Origin(hs, tip, k).Ok? && Origin(hs, tip, k).value in hs.g
          && all[k] == Attributed(hs, Origin(hs, tip, k).value, k, lines)
    {
      assert i in Undecided(out) <==> out[i] == None;
      assert Tracked(hs, tip, cur, lines, lives[i], out[i], i);
      all := all + [out[i].value];
    }
  }

  /**
    Attributes every line of the tip's file, in order, with its text and its number, to its
    origin; it fails exactly when the file cannot be opened or an undecided line meets a
    version that cannot be read.
   */
  method Blame(hs: History, tip: Hash) returns (r: Result<seq<BlameLine>>)
    requires Acyclic(hs.g)
    ensures r.Ok? <==> Openable(hs, tip) && Traceable(hs, tip)
    ensures r.Ok? ==> |r.value| == |LinesAt(hs, tip)|
    ensures r.Ok? ==> forall i :: 0 <= i < |r.value| ==>
      Origin(hs, tip, i).value in hs.g && r.value[i] == Attributed(hs, Origin(hs, tip, i).value, i, LinesAt(hs, tip))
  {
    if !Stored(hs, tip) { return Err("no such commit or tree"); }
    if hs.path !in hs.trees[hs.g[tip].tree] { return Err("no such file"); }
    if FileAt(hs, tip) == "" || FileAt(hs, tip) !in hs.objects { return Err("unreadable object"); }
    if IsBinary(hs.objects[FileAt(hs, tip)]) { return Err("cannot blame binary file"); }
    var lines := LinesAt(hs, tip);
    var lives, out := StartLives(lines);
    var pending, cur := |lines|, tip;
    while pending > 0
      invariant Stored(hs, cur) && Walking(hs, tip, cur, lines, lives, out) && pending == |Undecided(out)|
      invariant FileAt(hs, cur) == "" || FileAt(hs, cur) in hs.objects
      decreases if pending == 0 then 0 else |Anc(hs.g, cur)|
    {
      ghost var open := SomeUndecided(out);
      assert Tracked(hs, tip, cur, lines, lives[open], out[open], open);
      if hs.g[cur].parents == [] {
        out := Settle(hs, tip, cur, lines, lives, out);
        pending := 0;
        break;
      }
      var p := hs.g[cur].parents[0];
      if !ParentReadable(hs, cur) { Stuck(hs, tip, cur, lines, lives, out, open); }
      if !Stored(hs, p) { return Err("unreadable parent"); }
      var oldHx, newHx := FileAt(hs, p), FileAt(hs, cur);
      // An undecided line stands in this version, so the file is there: the branch for an
      // absent file is never taken.
      assert newHx != "";
      ParentHasFewer(hs.g, cur);
      if oldHx == newHx {
        UnchangedStep(hs, tip, cur, lines, lives, out);
        cur := p;
        continue;
      }
      if oldHx != "" && oldHx !in hs.objects { return Err("unreadable object"); }
      var born;
      lives, out, born := Recede(hs, tip, cur, lines, lives, out);
      pending := pending - born;
      cur := p;
    }
    var all := Settled(hs, tip, cur, lines, lives, out);
    return Ok(all);
  }
}
