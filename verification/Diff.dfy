/**
  Line diffs (internal/diff/diff.go): an edit script from a longest-common-subsequence
  table or, for large inputs, from a greedy walk, and its presentation as hunks.
*/
module Diff {
  datatype Kind = Equal | Del | Add

  /** One step of a script, with the line positions it stands at. */
  datatype Op = Op(kind: Kind, aIdx: nat, bIdx: nat)

  const TABLE_LIMIT: nat := 4_000_000

  // ---------- Specification ----------

  /** The length of a longest common subsequence of `a` from `i` and `b` from `j`. */
  function Lcs(a: seq<string>, b: seq<string>, i: nat, j: nat): nat
    requires i <= |a| && j <= |b|
    decreases |a| - i + |b| - j
  {
    if i == |a| || j == |b| then 0
    else if a[i] == b[j] then Lcs(a, b, i + 1, j + 1) + 1
    else if Lcs(a, b, i + 1, j) >= Lcs(a, b, i, j + 1) then Lcs(a, b, i + 1, j)
    else Lcs(a, b, i, j + 1)
  }

  /** A script that turns `a` from `i` into `b` from `j`, one step at a time. */
  ghost predicate IsScript(ops: seq<Op>, a: seq<string>, b: seq<string>, i: nat, j: nat)
    requires i <= |a| && j <= |b|
    decreases |ops|
  {
    if ops == [] then i == |a| && j == |b|
    else
      && ops[0].aIdx == i && ops[0].bIdx == j
      && match ops[0].kind
         case Equal => i < |a| && j < |b| && a[i] == b[j] && IsScript(ops[1..], a, b, i + 1, j + 1)
         case Del => i < |a| && IsScript(ops[1..], a, b, i + 1, j)
         case Add => j < |b| && IsScript(ops[1..], a, b, i, j + 1)
  }

  /** Whether the walk deletes at a mismatch: by the table, or on large inputs by what is left of each side. */
  predicate Deletes(large: bool, a: seq<string>, b: seq<string>, i: nat, j: nat)
    requires i < |a| && j < |b|
  {
    if large then |a| - i > |b| - j else Lcs(a, b, i + 1, j) >= Lcs(a, b, i, j + 1)
  }

  /** The script of lcsOps. */
  function Script(large: bool, a: seq<string>, b: seq<string>, i: nat, j: nat): seq<Op>
    requires i <= |a| && j <= |b|
    decreases |a| - i + |b| - j
  {
    if i < |a| && j < |b| then
      if a[i] == b[j] then [Op(Equal, i, j)] + Script(large, a, b, i + 1, j + 1)
      else if Deletes(large, a, b, i, j) then [Op(Del, i, j)] + Script(large, a, b, i + 1, j)
      else [Op(Add, i, j)] + Script(large, a, b, i, j + 1)
    else if i < |a| then [Op(Del, i, j)] + Script(large, a, b, i + 1, j)
    else if j < |b| then [Op(Add, i, j)] + Script(large, a, b, i, j + 1)
    else []
  }

  predicate Large(a: seq<string>, b: seq<string>) {
    |a| * |b| > TABLE_LIMIT
  }

  // ---------- The table and the walk ----------

  ghost predicate RowFilled(dp: array2<int>, a: seq<string>, b: seq<string>, i: nat, from: int)
    requires dp.Length0 == |a| + 1 && dp.Length1 == |b| + 1 && i <= |a|
    reads dp
  {
    forall y {:trigger dp[i, y]} :: 0 <= y <= |b| && from <= y ==> dp[i, y] == Lcs(a, b, i, y)
  }

  /** One row of the table, last column first, from the row below it. */
  method FillRow(dp: array2<int>, a: seq<string>, b: seq<string>, i: nat)
    requires dp.Length0 == |a| + 1 && dp.Length1 == |b| + 1 && i < |a|
    requires RowFilled(dp, a, b, i + 1, 0) && dp[i, |b|] == 0
    modifies dp
    ensures RowFilled(dp, a, b, i, 0)
    ensures forall x, y {:trigger dp[x, y]} :: 0 <= x <= |a| && 0 <= y <= |b| && x != i ==> dp[x, y] == old(dp[x, y])
    ensures forall x :: 0 <= x <= |a| && x != i && old(RowFilled(dp, a, b, x, 0)) ==> RowFilled(dp, a, b, x, 0)
  {
    var j := |b| - 1;
    while j >= 0
      invariant -1 <= j < |b|
      invariant RowFilled(dp, a, b, i, j + 1)
      invariant forall x, y {:trigger dp[x, y]} :: 0 <= x <= |a| && 0 <= y <= |b| && x != i ==>
        dp[x, y] == old(dp[x, y])
    {
      assert dp[i + 1, j + 1] == Lcs(a, b, i + 1, j + 1) && dp[i + 1, j] == Lcs(a, b, i + 1, j);
      if a[i] == b[j] {
        dp[i, j] := dp[i + 1, j + 1] + 1;
      } else if dp[i + 1, j] >= dp[i, j + 1] {
        dp[i, j] := dp[i + 1, j];
      } else {
        dp[i, j] := dp[i, j + 1];
      }
      j := j - 1;
    }
  }

  /** Fills the table of suffix lengths, last row first. */
  method FillTable(a: seq<string>, b: seq<string>) returns (dp: array2<int>)
    ensures fresh(dp) && dp.Length0 == |a| + 1 && dp.Length1 == |b| + 1
    ensures forall i :: 0 <= i <= |a| ==> RowFilled(dp, a, b, i, 0)
  {
    dp := new int[|a| + 1, |b| + 1]((i, j) => 0);
    var i := |a| - 1;
    assert RowFilled(dp, a, b, |a|, 0);
    while i >= 0
      invariant -1 <= i < |a|
      invariant forall x :: i < x <= |a| ==> RowFilled(dp, a, b, x, 0)
      invariant forall x {:trigger dp[x, |b|]} :: 0 <= x <= i ==> dp[x, |b|] == 0
    {
      FillRow(dp, a, b, i);
      i := i - 1;
    }
  }

  /** The greedy walk for inputs whose table would be too large. */
  method GreedyWalk(a: seq<string>, b: seq<string>) returns (ops: seq<Op>)
    ensures ops == Script(true, a, b, 0, 0)
  {
    ops := [];
    var i, j := 0, 0;
    while i < |a| && j < |b|
      invariant i <= |a| && j <= |b|
      invariant ops + Script(true, a, b, i, j) == Script(true, a, b, 0, 0)
      decreases |a| - i + |b| - j
    {
      ghost var rest := Script(true, a, b, i, j);
      ghost var ops0 := ops;
      if a[i] == b[j] {
        ops, i, j := ops + [Op(Equal, i, j)], i + 1, j + 1;
      } else if |a| - i > |b| - j {
        ops, i := ops + [Op(Del, i, j)], i + 1;
      } else {
        ops, j := ops + [Op(Add, i, j)], j + 1;
      }
      Shift(ops0, rest, ops, Script(true, a, b, i, j));
    }
    ops := Drain(true, a, b, i, j, ops);
  }

  lemma Shift(done0: seq<Op>, rest0: seq<Op>, done: seq<Op>, rest: seq<Op>)
    requires rest0 != [] && done == done0 + [rest0[0]] && rest0 == [rest0[0]] + rest
    ensures done + rest == done0 + rest0
  {
  }

  /** The walk along the table. */
  method TableWalk(a: seq<string>, b: seq<string>, dp: array2<int>) returns (ops: seq<Op>)
    requires dp.Length0 == |a| + 1 && dp.Length1 == |b| + 1
    requires forall i :: 0 <= i <= |a| ==> RowFilled(dp, a, b, i, 0)
    ensures ops == Script(false, a, b, 0, 0)
  {
    ops := [];
    var i, j := 0, 0;
    while i < |a| && j < |b|
      invariant i <= |a| && j <= |b|
      invariant ops + Script(false, a, b, i, j) == Script(false, a, b, 0, 0)
      decreases |a| - i + |b| - j
    {
      ghost var rest := Script(false, a, b, i, j);
      ghost var ops0 := ops;
      assert RowFilled(dp, a, b, i + 1, 0) && RowFilled(dp, a, b, i, 0);
      if a[i] == b[j] {
        ops, i, j := ops + [Op(Equal, i, j)], i + 1, j + 1;
      } else if dp[i + 1, j] >= dp[i, j + 1] {
        ops, i := ops + [Op(Del, i, j)], i + 1;
      } else {
        ops, j := ops + [Op(Add, i, j)], j + 1;
      }
      Shift(ops0, rest, ops, Script(false, a, b, i, j));
    }
    ops := Drain(false, a, b, i, j, ops);
  }

  /** lcsOps: by the table, or greedily when the table would be too large. */
  method LcsOps(a: seq<string>, b: seq<string>) returns (ops: seq<Op>)
    ensures ops == Script(Large(a, b), a, b, 0, 0)
  {
    if Large(a, b) {
      ops := GreedyWalk(a, b);
      return;
    }
    var dp := FillTable(a, b);
    ops := TableWalk(a, b, dp);
  }

  /** What is left of either text. */
  method Drain(large: bool, a: seq<string>, b: seq<string>, i0: nat, j0: nat, ops0: seq<Op>) returns (ops: seq<Op>)
    requires i0 <= |a| && j0 <= |b| && (i0 == |a| || j0 == |b|)
    ensures ops == ops0 + Script(large, a, b, i0, j0)
  {
    var i, j := i0, j0;
    ops := ops0;
    while i < |a|
      invariant i0 <= i <= |a| && (i == |a| || j == |b|)
      invariant ops + Script(large, a, b, i, j) == ops0 + Script(large, a, b, i0, j0)
    {
      Shift(ops, Script(large, a, b, i, j), ops + [Op(Del, i, j)], Script(large, a, b, i + 1, j));
      ops, i := ops + [Op(Del, i, j)], i + 1;
    }
    while j < |b|
      invariant j0 <= j <= |b|
      invariant ops + Script(large, a, b, i, j) == ops0 + Script(large, a, b, i0, j0)
    {
      Shift(ops, Script(large, a, b, i, j), ops + [Op(Add, i, j)], Script(large, a, b, i, j + 1));
      ops, j := ops + [Op(Add, i, j)], j + 1;
    }
  }

  // ---------- The script is valid and, by the table, optimal ----------

  lemma {:induction false} ScriptValid(large: bool, a: seq<string>, b: seq<string>, i: nat, j: nat)
    requires i <= |a| && j <= |b|
    ensures IsScript(Script(large, a, b, i, j), a, b, i, j)
    decreases |a| - i + |b| - j
  {
    var ops := Script(large, a, b, i, j);
    if i < |a| && j < |b| && a[i] == b[j] {
      ScriptValid(large, a, b, i + 1, j + 1);
      assert ops[1..] == Script(large, a, b, i + 1, j + 1);
    } else if i < |a| && (j == |b| || Deletes(large, a, b, i, j)) {
      ScriptValid(large, a, b, i + 1, j);
      assert ops[1..] == Script(large, a, b, i + 1, j);
    } else if j < |b| {
      ScriptValid(large, a, b, i, j + 1);
      assert ops[1..] == Script(large, a, b, i, j + 1);
    }
  }

  function Line(a: seq<string>, k: nat): string {
    if k < |a| then a[k] else ""
  }

  /** The lines a script reads: kept and deleted ones. */
  function OldLines(ops: seq<Op>, a: seq<string>): seq<string> {
    if ops == [] then []
    else (if ops[0].kind == Add then [] else [Line(a, ops[0].aIdx)]) + OldLines(ops[1..], a)
  }

  /** The lines a script writes: kept ones, as they stand in the old text, and added ones. */
  function NewLines(ops: seq<Op>, a: seq<string>, b: seq<string>): seq<string> {
    if ops == [] then []
    else
      (match ops[0].kind
       case Equal => [Line(a, ops[0].aIdx)]
       case Del => []
       case Add => [Line(b, ops[0].bIdx)]) + NewLines(ops[1..], a, b)
  }

  /** Any script spells both texts. */
  lemma {:induction false} ScriptSpells(ops: seq<Op>, a: seq<string>, b: seq<string>, i: nat, j: nat)
    requires i <= |a| && j <= |b| && IsScript(ops, a, b, i, j)
    ensures OldLines(ops, a) == a[i..] && NewLines(ops, a, b) == b[j..]
    decreases |ops|
  {
    if ops != [] {
      assert i < |a| ==> a[i..] == [a[i]] + a[i + 1..];
      assert j < |b| ==> b[j..] == [b[j]] + b[j + 1..];
      match ops[0].kind
      case Equal => ScriptSpells(ops[1..], a, b, i + 1, j + 1);
      case Del => ScriptSpells(ops[1..], a, b, i + 1, j);
      case Add => ScriptSpells(ops[1..], a, b, i, j + 1);
    }
  }

  function Kept(ops: seq<Op>): nat {
    if ops == [] then 0 else (if ops[0].kind == Equal then 1 else 0) + Kept(ops[1..])
  }

  /** Pairs of equal lines, increasing in both texts: a common subsequence. */
  ghost predicate Common(a: seq<string>, b: seq<string>, i: nat, j: nat, pairs: seq<(nat, nat)>)
    decreases |pairs|
  {
    pairs == [] ||
    var (x, y) := pairs[0];
    && i <= x < |a| && j <= y < |b| && a[x] == b[y] && Common(a, b, x + 1, y + 1, pairs[1..])
  }

  lemma CommonFrom(a: seq<string>, b: seq<string>, i: nat, j: nat, x: nat, y: nat, pairs: seq<(nat, nat)>)
    requires Common(a, b, x, y, pairs) && i <= x && j <= y
    ensures Common(a, b, i, j, pairs)
  {
  }

  /** No common subsequence is longer than the table says. */
  lemma {:induction false} LcsBounds(a: seq<string>, b: seq<string>, i: nat, j: nat, pairs: seq<(nat, nat)>)
    requires i <= |a| && j <= |b| && Common(a, b, i, j, pairs)
    ensures |pairs| <= Lcs(a, b, i, j)
    decreases |a| - i + |b| - j
  {
    if pairs != [] {
      var (x, y) := pairs[0];
      if a[i] == b[j] {
        CommonFrom(a, b, i + 1, j + 1, x + 1, y + 1, pairs[1..]);
        LcsBounds(a, b, i + 1, j + 1, pairs[1..]);
      } else if x > i {
        assert Common(a, b, i + 1, j, pairs);
        LcsBounds(a, b, i + 1, j, pairs);
      } else {
        assert y > j && Common(a, b, i, j + 1, pairs);
        LcsBounds(a, b, i, j + 1, pairs);
      }
    }
  }

  lemma {:induction false} TableKeeps(a: seq<string>, b: seq<string>, i: nat, j: nat)
    requires i <= |a| && j <= |b|
    ensures Kept(Script(false, a, b, i, j)) == Lcs(a, b, i, j)
    decreases |a| - i + |b| - j
  {
    var ops := Script(false, a, b, i, j);
    if i < |a| && j < |b| && a[i] == b[j] {
      TableKeeps(a, b, i + 1, j + 1);
      assert ops[1..] == Script(false, a, b, i + 1, j + 1);
    } else if i < |a| && (j == |b| || Deletes(false, a, b, i, j)) {
      TableKeeps(a, b, i + 1, j);
      assert ops[1..] == Script(false, a, b, i + 1, j);
    } else if j < |b| {
      TableKeeps(a, b, i, j + 1);
      assert ops[1..] == Script(false, a, b, i, j + 1);
    }
  }

  /** The kept lines of any script are a common subsequence. */
  lemma {:induction false} KeptIsCommon(ops: seq<Op>, a: seq<string>, b: seq<string>, i: nat, j: nat)
    returns (pairs: seq<(nat, nat)>)
    requires i <= |a| && j <= |b| && IsScript(ops, a, b, i, j)
    ensures Common(a, b, i, j, pairs) && |pairs| == Kept(ops)
    decreases |ops|
  {
    pairs := [];
    if ops != [] {
      match ops[0].kind
      case Equal =>
        var rest := KeptIsCommon(ops[1..], a, b, i + 1, j + 1);
        pairs := [(i, j)] + rest;
        assert pairs[1..] == rest;
      case Del =>
        pairs := KeptIsCommon(ops[1..], a, b, i + 1, j);
        CommonFrom(a, b, i, j, i + 1, j, pairs);
      case Add =>
        pairs := KeptIsCommon(ops[1..], a, b, i, j + 1);
        CommonFrom(a, b, i, j, i, j + 1, pairs);
    }
  }

  /**
    When the table is used, the script keeps as many lines as any common subsequence has,
    and as any other script turning `a` into `b` keeps.
   */
  lemma ScriptOptimal(a: seq<string>, b: seq<string>, pairs: seq<(nat, nat)>, other: seq<Op>)
    requires !Large(a, b)
    ensures Common(a, b, 0, 0, pairs) ==> |pairs| <= Kept(Script(Large(a, b), a, b, 0, 0))
    ensures IsScript(other, a, b, 0, 0) ==> Kept(other) <= Kept(Script(Large(a, b), a, b, 0, 0))
  {
    TableKeeps(a, b, 0, 0);
    if Common(a, b, 0, 0, pairs) {
      LcsBounds(a, b, 0, 0, pairs);
    }
    if IsScript(other, a, b, 0, 0) {
      var kept := KeptIsCommon(other, a, b, 0, 0);
      LcsBounds(a, b, 0, 0, kept);
    }
  }
}
