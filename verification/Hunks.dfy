/**
  Edit scripts shown as hunks (opsToHunks and DiffLines of internal/diff/diff.go). Marking
  context in place while scanning forward carries each mark on to the next line, so the one
  hunk there is runs to the end of the file.
*/
module Hunks {
  import opened Dag
  import opened Diff
  import opened Text

  /** A contiguous region; each line starts with ' ', '-' or '+'. */
  datatype Hunk = Hunk(oldStart: nat, oldLines: nat, newStart: nat, newLines: nat, lines: seq<string>)

  datatype Patch = Binary | Hunks(hunks: seq<Hunk>)

  const CONTEXT: nat := 3

  // ---------- Applying hunks ----------

  function OldSide(lines: seq<string>): seq<string> {
    if lines == [] then []
    else (if lines[0] != "" && lines[0][0] != '+' then [lines[0][1..]] else []) + OldSide(lines[1..])
  }

  function NewSide(lines: seq<string>): seq<string> {
    if lines == [] then []
    else (if lines[0] != "" && lines[0][0] != '-' then [lines[0][1..]] else []) + NewSide(lines[1..])
  }

  /** The hunk describes what stands in `a` at its place, and its counts are those of its lines. */
  predicate Fits(h: Hunk, a: seq<string>) {
    && h.oldStart + h.oldLines <= |a|
    && OldSide(h.lines) == a[h.oldStart..h.oldStart + h.oldLines]
    && |NewSide(h.lines)| == h.newLines
  }

  function ApplyHunk(a: seq<string>, h: Hunk): seq<string>
    requires Fits(h, a)
  {
    a[..h.oldStart] + NewSide(h.lines) + a[h.oldStart + h.oldLines..]
  }

  /** Hunks applied last first, so that earlier positions stay right. */
  function Apply(a: seq<string>, hunks: seq<Hunk>): Option<seq<string>>
    decreases |hunks|
  {
    if hunks == [] then Some(a)
    else
      var h := hunks[|hunks| - 1];
      if Fits(h, a) then Apply(ApplyHunk(a, h), hunks[..|hunks| - 1]) else None
  }

  // ---------- Making hunks ----------

  function Prefixed(o: Op, a: seq<string>, b: seq<string>): string {
    match o.kind
    case Equal => " " + Line(a, o.aIdx)
    case Del => "-" + Line(a, o.aIdx)
    case Add => "+" + Line(b, o.bIdx)
  }

  function PrefixedAll(ops: seq<Op>, a: seq<string>, b: seq<string>): seq<string> {
    if ops == [] then [] else PrefixedAll(ops[..|ops| - 1], a, b) + [Prefixed(ops[|ops| - 1], a, b)]
  }

  function CountOld(ops: seq<Op>): nat {
    if ops == [] then 0 else CountOld(ops[..|ops| - 1]) + if ops[|ops| - 1].kind == Add then 0 else 1
  }

  function CountNew(ops: seq<Op>): nat {
    if ops == [] then 0 else CountNew(ops[..|ops| - 1]) + if ops[|ops| - 1].kind == Del then 0 else 1
  }

  function HunkOf(ops: seq<Op>, a: seq<string>, b: seq<string>): Hunk {
    Hunk(if ops == [] then 0 else ops[0].aIdx, CountOld(ops),
         if ops == [] then 0 else ops[0].bIdx, CountNew(ops), PrefixedAll(ops, a, b))
  }

  /** The position of the first change, or the length of the script. */
  function FirstChange(ops: seq<Op>): (f: nat)
    ensures f <= |ops| && (f < |ops| ==> ops[f].kind != Equal)
    ensures forall i :: 0 <= i < f ==> ops[i].kind == Equal
  {
    if ops == [] || ops[0].kind != Equal then 0
    else
      var f := FirstChange(ops[1..]);
      assert forall i :: 1 <= i <= f ==> ops[i] == ops[1..][i - 1];
      1 + f
  }

  /** Where the hunk starts: three lines before the first change, or at the top. */
  function HunkStart(ops: seq<Op>): (s: nat)
    ensures s <= FirstChange(ops)
  {
    var f := FirstChange(ops);
    if f < CONTEXT then 0 else f - CONTEXT
  }

  /** One step of the context marking. */
  method MarkAround(changed: array<bool>, i: nat)
    requires i < changed.Length
    modifies changed
    ensures forall x {:trigger changed[x]} :: 0 <= x < changed.Length ==>
      changed[x] == (old(changed[x]) || (i - CONTEXT <= x <= i + CONTEXT && x != i))
  {
    for k := 1 to CONTEXT + 1
      invariant forall x {:trigger changed[x]} :: 0 <= x < changed.Length ==>
        changed[x] == (old(changed[x]) || (i - k < x < i + k && x != i))
    {
      if i >= k { changed[i - k] := true; }
      if i + k < changed.Length { changed[i + k] := true; }
    }
  }

  /** The marking loops: everything from three lines before the first change on ends up marked. */
  method MarkChanged(ops: seq<Op>) returns (changed: array<bool>)
    ensures fresh(changed) && changed.Length == |ops|
    ensures forall x :: 0 <= x < |ops| ==> (changed[x] <==> FirstChange(ops) < |ops| && HunkStart(ops) <= x)
  {
    changed := new bool[|ops|](i => false);
    for i := 0 to |ops|
      invariant forall x :: 0 <= x < |ops| ==> (changed[x] <==> x < i && ops[x].kind != Equal)
    {
      if ops[i].kind != Equal { changed[i] := true; }
    }
    ghost var f, s := FirstChange(ops), HunkStart(ops);
    for i := 0 to |ops|
      invariant forall x :: 0 <= x < |ops| && x < s ==> !changed[x]
      invariant i <= f ==> forall x :: 0 <= x < |ops| ==> (changed[x] <==> ops[x].kind != Equal)
      invariant i > f ==> forall x :: 0 <= x < |ops| && s <= x <= i + 2 ==> changed[x]
    {
      if changed[i] { MarkAround(changed, i); }
    }
  }

  /** The lines and counts of one marked run. */
  method MakeHunk(ops: seq<Op>, a: seq<string>, b: seq<string>) returns (h: Hunk)
    requires ops != []
    ensures h == HunkOf(ops, a, b)
  {
    var lines: seq<string>, oc, nc := [], 0, 0;
    for i := 0 to |ops|
      invariant lines == PrefixedAll(ops[..i], a, b) && oc == CountOld(ops[..i]) && nc == CountNew(ops[..i])
    {
      var o := ops[i];
      assert ops[..i + 1][..i] == ops[..i];
      match o.kind {
        case Equal => lines, oc, nc := lines + [" " + Line(a, o.aIdx)], oc + 1, nc + 1;
        case Del => lines, oc := lines + ["-" + Line(a, o.aIdx)], oc + 1;
        case Add => lines, nc := lines + ["+" + Line(b, o.bIdx)], nc + 1;
      }
    }
    assert ops[..|ops|] == ops;
    return Hunk(ops[0].aIdx, oc, ops[0].bIdx, nc, lines);
  }

  /** opsToHunks: at most one hunk, from shortly before the first change to the end of the script. */
  method OpsToHunks(ops: seq<Op>, a: seq<string>, b: seq<string>) returns (hunks: seq<Hunk>)
    ensures hunks == if FirstChange(ops) == |ops| then [] else [HunkOf(ops[HunkStart(ops)..], a, b)]
  {
    var marks := MarkChanged(ops);
    var changed := marks[..];
    ghost var f, s := FirstChange(ops), HunkStart(ops);
    hunks := [];
    var i := 0;
    while i < |ops|
      invariant i <= |ops|
      invariant i < |ops| ==> hunks == [] && (f < |ops| ==> i <= s)
      invariant i == |ops| ==> hunks == if f == |ops| then [] else [HunkOf(ops[s..], a, b)]
    {
      if !changed[i] {
        i := i + 1;
        continue;
      }
      var start := i;
      while i < |ops| && changed[i]
        invariant start <= i <= |ops|
      {
        i := i + 1;
      }
      assert start == s && i == |ops|;
      assert ops[s..|ops|] == ops[s..];
      var h := MakeHunk(ops[start..i], a, b);
      hunks := hunks + [h];
    }
  }

  // ---------- Hunks apply ----------

  lemma {:induction false} SidesOfPrefixed(ops: seq<Op>, a: seq<string>, b: seq<string>)
    ensures OldSide(PrefixedAll(ops, a, b)) == OldLines(ops, a)
    ensures NewSide(PrefixedAll(ops, a, b)) == NewLines(ops, a, b)
    ensures CountOld(ops) == |OldLines(ops, a)| && CountNew(ops) == |NewLines(ops, a, b)|
    decreases |ops|
  {
    if ops != [] {
      var n := |ops| - 1;
      var o := ops[n];
      SidesOfPrefixed(ops[..n], a, b);
      OldSideAppend(PrefixedAll(ops[..n], a, b), Prefixed(o, a, b));
      NewSideAppend(PrefixedAll(ops[..n], a, b), Prefixed(o, a, b));
      LinesAppend(ops[..n], o, a, b);
      PrefixedParts(o, a, b);
      assert ops == ops[..n] + [o];
    }
  }

  lemma PrefixedParts(o: Op, a: seq<string>, b: seq<string>)
    ensures Prefixed(o, a, b) != ""
    ensures Prefixed(o, a, b)[0] == match o.kind case Equal => ' ' case Del => '-' case Add => '+'
    ensures Prefixed(o, a, b)[1..] == if o.kind == Add then Line(b, o.bIdx) else Line(a, o.aIdx)
  {
  }

  lemma {:induction false} OldSideAppend(lines: seq<string>, l: string)
    requires l != ""
    ensures OldSide(lines + [l]) == OldSide(lines) + if l[0] != '+' then [l[1..]] else []
    decreases |lines|
  {
    if lines != [] {
      OldSideAppend(lines[1..], l);
      assert (lines + [l])[1..] == lines[1..] + [l];
    } else {
      assert lines + [l] == [l];
    }
  }

  lemma {:induction false} NewSideAppend(lines: seq<string>, l: string)
    requires l != ""
    ensures NewSide(lines + [l]) == NewSide(lines) + if l[0] != '-' then [l[1..]] else []
    decreases |lines|
  {
    if lines != [] {
      NewSideAppend(lines[1..], l);
      assert (lines + [l])[1..] == lines[1..] + [l];
    } else {
      assert lines + [l] == [l];
    }
  }

  lemma LinesAppend(ops: seq<Op>, o: Op, a: seq<string>, b: seq<string>)
    ensures OldLines(ops + [o], a) == OldLines(ops, a) + if o.kind == Add then [] else [Line(a, o.aIdx)]
    ensures NewLines(ops + [o], a, b) == NewLines(ops, a, b) +
      match o.kind case Equal => [Line(a, o.aIdx)] case Del => [] case Add => [Line(b, o.bIdx)]
  {
    OldLinesAppend(ops, o, a);
    NewLinesAppend(ops, o, a, b);
  }

  lemma {:induction false} OldLinesAppend(ops: seq<Op>, o: Op, a: seq<string>)
    ensures OldLines(ops + [o], a) == OldLines(ops, a) + if o.kind == Add then [] else [Line(a, o.aIdx)]
    decreases |ops|
  {
    if ops != [] {
      OldLinesAppend(ops[1..], o, a);
      assert (ops + [o])[1..] == ops[1..] + [o];
    } else {
      assert ops + [o] == [o];
    }
  }

  lemma {:induction false} NewLinesAppend(ops: seq<Op>, o: Op, a: seq<string>, b: seq<string>)
    ensures NewLines(ops + [o], a, b) == NewLines(ops, a, b) +
      match o.kind case Equal => [Line(a, o.aIdx)] case Del => [] case Add => [Line(b, o.bIdx)]
    decreases |ops|
  {
    if ops != [] {
      NewLinesAppend(ops[1..], o, a, b);
      assert (ops + [o])[1..] == ops[1..] + [o];
    } else {
      assert ops + [o] == [o];
    }
  }

  /** A script whose first `s` steps keep lines has walked both texts evenly. */
  lemma {:induction false} EqualPrefix(ops: seq<Op>, a: seq<string>, b: seq<string>, i: nat, s: nat)
    requires i <= |a| && i <= |b| && IsScript(ops, a, b, i, i) && s <= |ops|
    requires forall k :: 0 <= k < s ==> ops[k].kind == Equal
    ensures i + s <= |a| && i + s <= |b| && a[i..i + s] == b[i..i + s]
    ensures IsScript(ops[s..], a, b, i + s, i + s)
    decreases s
  {
    if s > 0 {
      assert forall k :: 0 <= k < s - 1 ==> ops[1..][k] == ops[k + 1];
      EqualPrefix(ops[1..], a, b, i + 1, s - 1);
      assert ops[1..][s - 1..] == ops[s..];
      assert a[i..i + s] == [a[i]] + a[i + 1..i + s] && b[i..i + s] == [b[i]] + b[i + 1..i + s];
    }
  }

  lemma EqualUpTo(ops: seq<Op>, a: seq<string>, b: seq<string>, s: nat)
    requires IsScript(ops, a, b, 0, 0) && s <= FirstChange(ops)
    ensures s <= |a| && s <= |b| && a[..s] == b[..s] && IsScript(ops[s..], a, b, s, s)
    ensures s == |ops| ==> |a| == s == |b|
  {
    EqualPrefix(ops, a, b, 0, s);
    assert a[..s] == a[0..s] && b[..s] == b[0..s];
  }

  /** A hunk over the rest of a script replaces the rest of the old text by that of the new. */
  lemma TailHunkApplies(tail: seq<Op>, a: seq<string>, b: seq<string>, s: nat)
    requires s <= |a| && s <= |b| && a[..s] == b[..s]
    requires tail != [] && IsScript(tail, a, b, s, s)
    ensures var h := HunkOf(tail, a, b); Fits(h, a) && ApplyHunk(a, h) == b
    ensures var h := HunkOf(tail, a, b); h.oldStart + h.oldLines == |a| && h.newStart + h.newLines == |b|
  {
    ScriptSpells(tail, a, b, s, s);
    SidesOfPrefixed(tail, a, b);
    assert a[s..|a|] == a[s..] && a[|a|..] == [];
    assert a[..s] + b[s..] == b;
  }

  lemma ApplyOne(a: seq<string>, h: Hunk)
    requires Fits(h, a)
    ensures Apply(a, [h]) == Some(ApplyHunk(a, h))
  {
    assert [h][..0] == [];
  }

  /** The hunks of any script from `a` to `b` fit `a` and turn it into `b`. */
  lemma HunksApply(ops: seq<Op>, a: seq<string>, b: seq<string>, hunks: seq<Hunk>)
    requires IsScript(ops, a, b, 0, 0)
    requires hunks == if FirstChange(ops) == |ops| then [] else [HunkOf(ops[HunkStart(ops)..], a, b)]
    ensures Apply(a, hunks) == Some(b)
    ensures hunks != [] ==> hunks[0].oldStart + hunks[0].oldLines == |a| && hunks[0].newStart + hunks[0].newLines == |b|
  {
    if FirstChange(ops) == |ops| {
      EqualUpTo(ops, a, b, |ops|);
      assert a[..|a|] == a && b[..|b|] == b;
    } else {
      var s := HunkStart(ops);
      EqualUpTo(ops, a, b, s);
      TailHunkApplies(ops[s..], a, b, s);
      ApplyOne(a, hunks[0]);
    }
  }

  /** A file whose first 8000 characters hold a NUL is taken for binary. */
  predicate IsBinary(s: string) {
    var sniff := if |s| > 8000 then s[..8000] else s;
    '\0' in sniff
  }

  /** Every line under one prefix. */
  function PrefixLines(lines: seq<string>, p: char): seq<string> {
    if lines == [] then [] else [[p] + lines[0]] + PrefixLines(lines[1..], p)
  }

  lemma {:induction false} ReplaceSides(a: seq<string>, b: seq<string>)
    ensures OldSide(PrefixLines(a, '-') + PrefixLines(b, '+')) == a
    ensures NewSide(PrefixLines(a, '-') + PrefixLines(b, '+')) == b
    decreases |a| + |b|
  {
    var lines := PrefixLines(a, '-') + PrefixLines(b, '+');
    if a != [] {
      ReplaceSides(a[1..], b);
      assert lines[0] == ['-'] + a[0] && lines[1..] == PrefixLines(a[1..], '-') + PrefixLines(b, '+');
      assert lines[0][1..] == a[0];
    } else if b != [] {
      ReplaceSides(a, b[1..]);
      assert lines[0] == ['+'] + b[0] && lines[1..] == PrefixLines(a, '-') + PrefixLines(b[1..], '+');
      assert lines[0][1..] == b[0];
    }
  }

  /**
    DiffLines: no hunks for binary text, one replacing hunk for very large inputs, and the
    script's hunk otherwise. Applying the patch to the old text gives the new text.
   */
  method DiffLines(oldText: string, newText: string) returns (p: Patch)
    ensures p.Binary? <==> IsBinary(oldText) || IsBinary(newText)
    ensures p.Hunks? ==>
      var r := Apply(Split(oldText, '\n'), p.hunks);
      r.Some? && Join(r.value, '\n') == newText
  {
    if IsBinary(oldText) || IsBinary(newText) { return Binary; }
    var a, b := Split(oldText, '\n'), Split(newText, '\n');
    JoinSplit(newText, '\n');
    if |a| * |b| > TABLE_LIMIT {
      var h := Hunk(0, |a|, 0, |b|, PrefixLines(a, '-') + PrefixLines(b, '+'));
      ReplaceSides(a, b);
      assert a[0..|a|] == a;
      assert ApplyHunk(a, h) == b;
      ApplyOne(a, h);
      return Hunks([h]);
    }
    var ops := LcsOps(a, b);
    ScriptValid(Large(a, b), a, b, 0, 0);
    var hunks := OpsToHunks(ops, a, b);
    HunksApply(ops, a, b, hunks);
    return Hunks(hunks);
  }
}
