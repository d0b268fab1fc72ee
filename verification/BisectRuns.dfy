/**
  What every run of a bisect session keeps: the culprit stays suspected under truthful
  marks, marking the offered candidate always makes progress, and a linear range is
  searched in logarithmically many marks.
*/
module BisectRuns {
  import opened Dag
  import opened DagWalk
  import opened Topo
  import opened Bisect

  type Marks = map<Hash, Verdict>

  datatype Mark = Mark(h: Hash, v: Verdict)

  /** The marks on record after a sequence of them; a later mark on a commit replaces an earlier one. */
  function After(tested: Marks, marks: seq<Mark>): Marks {
    if marks == [] then tested
    else After(tested, marks[..|marks| - 1])[marks[|marks| - 1].h := marks[|marks| - 1].v]
  }

  // ---------- Soundness ----------

  /** A mark says the truth when a commit is bad exactly if the culprit is among its ancestors. */
  ghost predicate TruthfulMark(g: Graph, culprit: Hash, h: Hash, v: Verdict) {
    (v == Bad ==> culprit in Anc(g, h)) && (v == Good ==> culprit !in Anc(g, h))
  }

  ghost predicate Truthful(g: Graph, culprit: Hash, tested: Marks) {
    forall t :: t in tested ==> TruthfulMark(g, culprit, t, tested[t])
  }

  lemma {:induction false} AfterTruthful(g: Graph, culprit: Hash, tested: Marks, marks: seq<Mark>)
    requires Truthful(g, culprit, tested)
    requires forall m :: m in marks ==> TruthfulMark(g, culprit, m.h, m.v)
    ensures Truthful(g, culprit, After(tested, marks))
  {
    if marks != [] {
      AfterTruthful(g, culprit, tested, marks[..|marks| - 1]);
      assert marks[|marks| - 1] in marks;
    }
  }

  /** A suspect left with a good or bad mark has a bad one, and there is at most one such suspect. */
  lemma MarkedSuspects(g: Graph, bad: Hash, tested: Marks, x: Hash, y: Hash)
    requires Acyclic(g)
    requires x in Suspects(g, bad, tested) && x in tested && tested[x] != Skip
    ensures tested[x] == Bad
    ensures y in Suspects(g, bad, tested) && y in tested && tested[y] != Skip ==> x == y
  {
    AncSelf(g, x);
    assert tested[x] == Good ==> Cleared(g, tested, x);
    if y in Suspects(g, bad, tested) && y in tested && tested[y] != Skip {
      AncSelf(g, y);
      assert tested[y] == Good ==> Cleared(g, tested, y);
      AncAntisym(g, x, y);
    }
  }

  lemma {:induction false} UntestedMember(order: seq<Hash>, tested: Marks, h: Hash)
    ensures h in Untested(order, tested) <==> h in order && h !in tested
  {
    if order != [] {
      UntestedMember(order[..|order| - 1], tested, h);
      assert order == order[..|order| - 1] + [order[|order| - 1]];
    }
  }

  /**
    Whatever the marks, an answer over stored history is an error only when no suspect is
    left: with two or more suspects some suspect is untested or skipped, so the internal
    error is unreachable.
   */
  lemma ErrorMeansNoSuspect(g: Graph, bad: Hash, tested: Marks, r: Result<Step>)
    requires Acyclic(g) && Walkable(g, bad, tested) && Answers(g, bad, tested, r)
    ensures r.Err? <==> Suspects(g, bad, tested) == {}
  {
    var s := Suspects(g, bad, tested);
    if s != {} && |s| != 1 && r.Err? {
      var order: seq<Hash> :| KahnOrder(g, s, order) && Elems(order) == s && Chooses(s, order, tested, r);
      var x, y := TwoMembers(s);
      UntestedMember(order, tested, x);
      UntestedMember(order, tested, y);
      assert x in Elems(order) && y in Elems(order);
      MarkedSuspects(g, bad, tested, x, y);
    }
  }

  lemma TwoMembers<T>(s: set<T>) returns (x: T, y: T)
    requires s != {} && |s| != 1
    ensures x in s && y in s && x != y
  {
    x :| x in s;
    var rest := s - {x};
    assert s == rest + {x};
    assert rest != {};
    y :| y in rest;
  }

  /**
    After any truthful marks, on any commits and in any order, the culprit is a suspect, a
    Done answer is the culprit, and a Range answer contains it. The only error left is a
    missing commit.
   */
  lemma BisectSound(g: Graph, bad: Hash, goods: seq<Hash>, marks: seq<Mark>, culprit: Hash, r: Result<Step>)
    requires Acyclic(g) && culprit in Anc(g, bad) && Truthful(g, culprit, StartMarks(bad, goods))
    requires forall m :: m in marks ==> TruthfulMark(g, culprit, m.h, m.v)
    requires Answers(g, bad, After(StartMarks(bad, goods), marks), r)
    ensures culprit in Suspects(g, bad, After(StartMarks(bad, goods), marks))
    ensures r.Ok? && r.value.Done? ==> r.value.culprit == culprit
    ensures r.Ok? && r.value.Range? ==> culprit in r.value.among
    ensures r.Err? ==> !Walkable(g, bad, After(StartMarks(bad, goods), marks))
  {
    AfterTruthful(g, culprit, StartMarks(bad, goods), marks);
    TruthfulAnswer(g, bad, After(StartMarks(bad, goods), marks), culprit, r);
  }

  /** Truthful marks keep the culprit suspected, and an answer to them is right. */
  lemma TruthfulAnswer(g: Graph, bad: Hash, tested: Marks, culprit: Hash, r: Result<Step>)
    requires Acyclic(g) && culprit in Anc(g, bad) && Truthful(g, culprit, tested) && Answers(g, bad, tested, r)
    ensures culprit in Suspects(g, bad, tested)
    ensures r.Ok? && r.value.Done? ==> r.value.culprit == culprit
    ensures r.Ok? && r.value.Range? ==> culprit in r.value.among
    ensures r.Err? ==> !Walkable(g, bad, tested)
  {
    assert culprit in Suspects(g, bad, tested);
    if Walkable(g, bad, tested) {
      ErrorMeansNoSuspect(g, bad, tested, r);
    }
  }

  // ---------- Progress ----------

  /** A suspect marked bad that every suspect is an ancestor of. */
  ghost predicate TopSuspect(g: Graph, bad: Hash, tested: Marks, t: Hash) {
    && t in Suspects(g, bad, tested) && t in tested && tested[t] == Bad
    && Suspects(g, bad, tested) <= Anc(g, t)
  }

  ghost predicate HasTop(g: Graph, bad: Hash, tested: Marks) {
    exists t :: TopSuspect(g, bad, tested, t)
  }

  ghost function UntestedSuspects(g: Graph, bad: Hash, tested: Marks): set<Hash> {
    Suspects(g, bad, tested) - tested.Keys
  }

  lemma StartHasTop(g: Graph, bad: Hash, goods: seq<Hash>)
    requires Acyclic(g) && Startable(g, bad, goods)
    ensures Walkable(g, bad, StartMarks(bad, goods)) && TopSuspect(g, bad, StartMarks(bad, goods), bad)
  {
    var tested := StartMarks(bad, goods);
    AncSelf(g, bad);
    forall t | t in tested && tested[t] == Good
      ensures bad !in Anc(g, t) && Complete(g, t)
    {
      assert t in Elems(goods);
      if bad in Anc(g, t) { AncAntisym(g, t, bad); }
      AncTrans(g, bad, t);
    }
  }

  /** The order behind an offer. */
  lemma OfferedOrder(g: Graph, bad: Hash, tested: Marks, c: Hash) returns (order: seq<Hash>)
    requires Offered(g, bad, tested, c)
    ensures Walkable(g, bad, tested) && KahnOrder(g, Suspects(g, bad, tested), order)
      && Elems(order) == Suspects(g, bad, tested)
    ensures var testable := Untested(order, tested);
      testable != [] && c == testable[|testable| / 2]
  {
    var left, testable :| Answers(g, bad, tested, Ok(Next(c, left, testable)));
    var s := Suspects(g, bad, tested);
    order :| KahnOrder(g, s, order) && Elems(order) == s && Chooses(s, order, tested, Ok(Next(c, left, testable)));
  }

  lemma OfferedIsUntested(g: Graph, bad: Hash, tested: Marks, c: Hash)
    requires Offered(g, bad, tested, c)
    ensures Walkable(g, bad, tested) && c in Suspects(g, bad, tested) && c !in tested
  {
    var order := OfferedOrder(g, bad, tested, c);
    UntestedMember(order, tested, c);
    assert c in Untested(order, tested);
    assert c in Elems(order);
  }

  /** Narrowing a range with top `t` at one of its untested members leaves a range with a top. */
  lemma NarrowedTop(g: Graph, s: set<Hash>, t: Hash, c: Hash, v: Verdict)
    requires Acyclic(g) && t in s && s <= Anc(g, t) && c in s && c != t
    ensures var s' := Narrowed(g, s, c, v);
      var t' := if v == Bad then c else t;
      t' in s' && s' <= Anc(g, t') && s' <= s && (v != Skip ==> s' != s || c in s')
  {
    AncSelf(g, c);
    if v == Good && t in Anc(g, c) {
      AncAntisym(g, t, c);
    }
  }

  /**
    One mark on the offered candidate: the history walked stays stored, a bad-marked top
    remains, and the untested suspects strictly decrease.
   */
  lemma OfferedMarkProgress(g: Graph, bad: Hash, tested: Marks, c: Hash, v: Verdict)
    requires Acyclic(g) && HasTop(g, bad, tested) && Offered(g, bad, tested, c)
    ensures Walkable(g, bad, tested[c := v]) && HasTop(g, bad, tested[c := v])
    ensures UntestedSuspects(g, bad, tested[c := v]) < UntestedSuspects(g, bad, tested)
  {
    OfferedIsUntested(g, bad, tested, c);
    var t :| TopSuspect(g, bad, tested, t);
    MarkNarrows(g, bad, tested, c, v);
    NarrowedTop(g, Suspects(g, bad, tested), t, c, v);
    CompleteBelow(g, bad, tested, c, v);
    assert TopSuspect(g, bad, tested[c := v], if v == Bad then c else t);
    assert c in UntestedSuspects(g, bad, tested);
  }

  lemma CompleteBelow(g: Graph, bad: Hash, tested: Marks, c: Hash, v: Verdict)
    requires Walkable(g, bad, tested) && c in Anc(g, bad)
    ensures Walkable(g, bad, tested[c := v])
  {
    AncTrans(g, bad, c);
  }

  /** Every mark is on the candidate offered at that point. */
  ghost predicate OfferedRun(g: Graph, bad: Hash, tested: Marks, marks: seq<Mark>) {
    forall i {:trigger Offered(g, bad, After(tested, marks[..i]), marks[i].h)} ::
      0 <= i < |marks| ==> Offered(g, bad, After(tested, marks[..i]), marks[i].h)
  }

  lemma {:induction false} OfferedRunKeeps(g: Graph, bad: Hash, tested: Marks, marks: seq<Mark>)
    requires Acyclic(g) && Walkable(g, bad, tested) && HasTop(g, bad, tested) && OfferedRun(g, bad, tested, marks)
    ensures Walkable(g, bad, After(tested, marks)) && HasTop(g, bad, After(tested, marks))
    ensures |UntestedSuspects(g, bad, After(tested, marks))| + |marks| <= |UntestedSuspects(g, bad, tested)|
    decreases |marks|
  {
    if marks != [] {
      var k := |marks| - 1;
      var before := marks[..k];
      OfferedPrefix(g, bad, tested, marks);
      OfferedRunKeeps(g, bad, tested, before);
      var now, c, v := After(tested, before), marks[k].h, marks[k].v;
      OfferedMarkProgress(g, bad, now, c, v);
      assert After(tested, marks) == now[c := v];
      SmallerCard(UntestedSuspects(g, bad, now[c := v]), UntestedSuspects(g, bad, now));
    }
  }

  lemma OfferedPrefix(g: Graph, bad: Hash, tested: Marks, marks: seq<Mark>)
    requires marks != [] && OfferedRun(g, bad, tested, marks)
    ensures OfferedRun(g, bad, tested, marks[..|marks| - 1])
    ensures Offered(g, bad, After(tested, marks[..|marks| - 1]), marks[|marks| - 1].h)
  {
    var before := marks[..|marks| - 1];
    forall i | 0 <= i < |before|
      ensures Offered(g, bad, After(tested, before[..i]), before[i].h)
    {
      assert before[..i] == marks[..i];
      assert Offered(g, bad, After(tested, marks[..i]), marks[i].h);
    }
    var k := |marks| - 1;
    assert Offered(g, bad, After(tested, marks[..k]), marks[k].h);
  }

  lemma SmallerCard<T>(a: set<T>, b: set<T>)
    requires a < b
    ensures |a| < |b|
  {
    SubsetCard(a, b);
  }

  /**
    A session whose marks are all on offered candidates never fails: every answer is a next
    candidate, the culprit or a skipped range, and there are at most as many marks as there
    were untested suspects.
   */
  lemma OfferedRunNeverFails(g: Graph, bad: Hash, goods: seq<Hash>, marks: seq<Mark>, r: Result<Step>)
    requires Acyclic(g) && Startable(g, bad, goods) && OfferedRun(g, bad, StartMarks(bad, goods), marks)
    requires Answers(g, bad, After(StartMarks(bad, goods), marks), r)
    ensures r.Ok? && HasTop(g, bad, After(StartMarks(bad, goods), marks))
    ensures |marks| <= |UntestedSuspects(g, bad, StartMarks(bad, goods))|
  {
    var start := StartMarks(bad, goods);
    StartHasTop(g, bad, goods);
    OfferedRunKeeps(g, bad, start, marks);
    ErrorMeansNoSuspect(g, bad, After(start, marks), r);
  }

  // ---------- bisect run ----------

  /** A session that stands on the candidate it offered, below a bad-marked top. */
  ghost predicate Testing(g: Graph, s: BisectState) {
    && s.concluded.None? && s.current.Some? && HasTop(g, s.bad, s.tested)
    && Offered(g, s.bad, s.tested, s.current.value)
  }

  /** A start that offers a candidate leaves such a session. */
  lemma StartTesting(g: Graph, s: BisectState, goods: seq<Hash>, r: Result<Step>)
    requires Acyclic(g) && Startable(g, s.bad, goods) && s.tested == StartMarks(s.bad, goods) && s.concluded.None?
    requires Answers(g, s.bad, s.tested, r) && r.Ok? && r.value.Next? && s.current == Some(r.value.h)
    ensures Testing(g, s)
  {
    StartHasTop(g, s.bad, goods);
  }

  /** The session after a mark on its candidate is answered. */
  ghost predicate TurnedOut(g: Graph, s: BisectState, v: Verdict, r: Result<Step>)
    requires s.current.Some?
  {
    var tested := s.tested[s.current.value := v];
    && r.Ok?
    && UntestedSuspects(g, s.bad, tested) < UntestedSuspects(g, s.bad, s.tested)
    && (r.value.Next? ==> Testing(g, Marked(s, v, None).(current := Some(r.value.h))))
  }

  /**
    One mark on the candidate: an answer, and unless it is the last one the next candidate,
    with fewer suspects to test.
   */
  lemma TestingTurn(g: Graph, s: BisectState, v: Verdict, r: Result<Step>)
    requires Acyclic(g) && Testing(g, s)
    ensures Markable(g, s, s.current, v)
    ensures Answers(g, s.bad, s.tested[s.current.value := v], r) ==> TurnedOut(g, s, v, r)
  {
    var c := s.current.value;
    OfferedIsUntested(g, s.bad, s.tested, c);
    OfferedMarkProgress(g, s.bad, s.tested, c, v);
    if Answers(g, s.bad, s.tested[c := v], r) {
      ErrorMeansNoSuspect(g, s.bad, s.tested[c := v], r);
    }
  }

  /** A last answer that is right about the culprit. */
  ghost predicate Names(step: Step, culprit: Hash) {
    match step
    case Done(h) => h == culprit
    case Range(among) => culprit in among
    case Next(_, _, _) => false
  }

  /** The test tells a culprit's descendants from the rest, or skips. */
  ghost predicate TruthfulTest(g: Graph, culprit: Hash, test: Hash -> Verdict) {
    forall h :: TruthfulMark(g, culprit, h, test(h))
  }

  /** The marks are those of before and what the test said. */
  ghost predicate MarkedBy(before: Marks, test: Hash -> Verdict, tested: Marks) {
    forall t :: t in tested ==> (t in before && tested[t] == before[t]) || tested[t] == test(t)
  }

  lemma MarkedByRight(g: Graph, bad: Hash, before: Marks, test: Hash -> Verdict, tested: Marks, culprit: Hash,
                      r: Result<Step>)
    requires Acyclic(g) && MarkedBy(before, test, tested) && Answers(g, bad, tested, r) && r.Ok? && !r.value.Next?
    requires culprit in Anc(g, bad) && Truthful(g, culprit, before) && TruthfulTest(g, culprit, test)
    ensures Names(r.value, culprit)
  {
    forall t | t in tested
      ensures TruthfulMark(g, culprit, t, tested[t])
    {
      assert TruthfulMark(g, culprit, t, test(t));
    }
    TruthfulAnswer(g, bad, tested, culprit, r);
  }

  lemma RangeNeedsSkip(g: Graph, bad: Hash, tested: Marks, r: Result<Step>)
    requires Answers(g, bad, tested, r) && r.Ok? && r.value.Range?
    ensures !NoSkips(tested)
  {
    var s := Suspects(g, bad, tested);
    var order: seq<Hash> :| KahnOrder(g, s, order) && Elems(order) == s && Chooses(s, order, tested, r);
  }

  /**
    BisectRun, where `test` is what the command's exit code says of a checked-out commit and
    the command leaves the working tree clean: the loop ends, with the culprit when nothing
    is skipped, and with a range that holds the culprit otherwise.
   */
  method Run(b: Bisector, test: Hash -> Verdict) returns (r: Result<Step>)
    requires b.Valid() && Acyclic(b.g) && b.st.Some? && Testing(b.g, b.st.value)
    modifies b
    ensures b.Valid() && b.SameSession() && r.Ok? && !r.value.Next?
    ensures NoSkips(old(b.st).value.tested) && (forall h :: test(h) != Skip) ==> r.value.Done?
    ensures forall culprit ::
      culprit in Anc(b.g, old(b.st).value.bad) && Truthful(b.g, culprit, old(b.st).value.tested)
        && TruthfulTest(b.g, culprit, test) ==>
        Names(r.value, culprit)
  {
    ghost var bad, before := b.st.value.bad, b.st.value.tested;
    while true
      invariant b.Valid() && b.st.Some? && b.SameSession() && Testing(b.g, b.st.value)
      invariant MarkedBy(before, test, b.st.value.tested)
      decreases UntestedSuspects(b.g, bad, b.st.value.tested)
    {
      ghost var tested := b.st.value.tested;
      var c := b.st.value.current.value;
      r := RunTurn(b, test(c));
      if !r.value.Next? {
        RunEnds(b.g, bad, before, test, tested[c := test(c)], r);
        return;
      }
    }
  }

  /** One turn of that loop: the candidate is marked as its test turned out. */
  method RunTurn(b: Bisector, v: Verdict) returns (r: Result<Step>)
    requires b.Valid() && Acyclic(b.g) && b.st.Some? && Testing(b.g, b.st.value)
    modifies b
    ensures b.Valid() && b.SameSession() && r.Ok?
    ensures var s := old(b.st).value;
      var tested := s.tested[s.current.value := v];
      && Answers(b.g, s.bad, tested, r)
      && (r.value.Next? ==>
            && Testing(b.g, b.st.value) && b.st.value.tested == tested
            && UntestedSuspects(b.g, s.bad, tested) < UntestedSuspects(b.g, s.bad, s.tested))
  {
    ghost var s := b.st.value;
    TestingTurn(b.g, s, v, Err(""));
    r := b.Mark(v, None, true);
    TestingTurn(b.g, s, v, r);
  }

  lemma RunEnds(g: Graph, bad: Hash, before: Marks, test: Hash -> Verdict, tested: Marks, r: Result<Step>)
    requires Acyclic(g) && MarkedBy(before, test, tested) && Answers(g, bad, tested, r) && r.Ok? && !r.value.Next?
    ensures NoSkips(before) && (forall h :: test(h) != Skip) ==> r.value.Done?
    ensures forall culprit ::
      culprit in Anc(g, bad) && Truthful(g, culprit, before) && TruthfulTest(g, culprit, test) ==>
        Names(r.value, culprit)
  {
    if r.value.Range? { RangeNeedsSkip(g, bad, tested, r); }
    forall culprit | culprit in Anc(g, bad) && Truthful(g, culprit, before) && TruthfulTest(g, culprit, test)
      ensures Names(r.value, culprit)
    {
      MarkedByRight(g, bad, before, test, tested, culprit, r);
    }
  }

  // ---------- When marks become inconsistent ----------

  /** Marking again first takes back the earlier mark on that commit. */
  function Others(tested: Marks, h: Hash): Marks {
    tested - {h}
  }

  /** What a mark says against the suspects that the marks on other commits leave. */
  ghost predicate Contradicts(g: Graph, suspects: set<Hash>, h: Hash, v: Verdict) {
    match v
    case Good => suspects <= Anc(g, h)
    case Bad => suspects !! Anc(g, h)
    case Skip => suspects == {}
  }

  /**
    The inconsistent-marks error, for any accepted mark on any commit: the answer is an error
    exactly when the mark is good and every commit that the marks on other commits leave
    suspect is an ancestor of the marked one, or bad and none is. (A skip fails only where
    no suspect was left without it.)
   */
  lemma MarkFailsExactly(g: Graph, s: BisectState, h: Hash, v: Verdict, r: Result<Step>)
    requires Acyclic(g) && Markable(g, s, Some(h), v) && Answers(g, s.bad, s.tested[h := v], r)
    ensures Suspects(g, s.bad, s.tested[h := v]) == {} <==>
      Contradicts(g, Suspects(g, s.bad, Others(s.tested, h)), h, v)
    ensures r.Err? <==> Contradicts(g, Suspects(g, s.bad, Others(s.tested, h)), h, v)
  {
    assert s.tested[h := v] == Others(s.tested, h)[h := v];
    MarkNarrows(g, s.bad, Others(s.tested, h), h, v);
    NarrowedEmpty(g, Suspects(g, s.bad, Others(s.tested, h)), h, v);
    AcceptedWalkable(g, s, h, v);
    ErrorMeansNoSuspect(g, s.bad, s.tested[h := v], r);
  }

  lemma NarrowedEmpty(g: Graph, suspects: set<Hash>, h: Hash, v: Verdict)
    ensures Narrowed(g, suspects, h, v) == {} <==> Contradicts(g, suspects, h, v)
  {
    assert forall x :: x in suspects ==> x in suspects - Anc(g, h) || x in suspects * Anc(g, h);
  }

  lemma AcceptedWalkable(g: Graph, s: BisectState, h: Hash, v: Verdict)
    requires Markable(g, s, Some(h), v)
    ensures Walkable(g, s.bad, s.tested[h := v])
  {
    if h in Suspects(g, s.bad, s.tested) { AncTrans(g, s.bad, h); }
  }

  /** With a top among those suspects, a good mark contradicts them exactly when it is put on or above the top. */
  lemma TopDecides(g: Graph, suspects: set<Hash>, t: Hash, h: Hash)
    requires t in suspects && suspects <= Anc(g, t)
    ensures Contradicts(g, suspects, h, Good) <==> t in Anc(g, h)
  {
    if t in Anc(g, h) { AncTrans(g, h, t); }
  }

  /** On a commit not marked before, in a session whose suspects have a top. */
  lemma FreshMarkFailsExactly(g: Graph, s: BisectState, t: Hash, h: Hash, v: Verdict, r: Result<Step>)
    requires Acyclic(g) && Markable(g, s, Some(h), v) && Answers(g, s.bad, s.tested[h := v], r)
    requires TopSuspect(g, s.bad, s.tested, t) && h !in s.tested
    ensures r.Err? <==> (v == Good && t in Anc(g, h)) || (v == Bad && Suspects(g, s.bad, s.tested) !! Anc(g, h))
  {
    assert Others(s.tested, h) == s.tested;
    MarkFailsExactly(g, s, h, v, r);
    TopDecides(g, Suspects(g, s.bad, s.tested), t, h);
  }

  /** Marking the session's own bad commit good always ends in the error. */
  lemma BadCommitGoodFails(g: Graph, s: BisectState, r: Result<Step>)
    requires Acyclic(g) && Markable(g, s, Some(s.bad), Good) && Answers(g, s.bad, s.tested[s.bad := Good], r)
    ensures r.Err?
  {
    MarkFailsExactly(g, s, s.bad, Good, r);
  }

  function Link(parents: seq<Hash>): Commit {
    Commit(0, parents, "", "", 0, "", map[])
  }

  /** A chain of four commits, bisected between 4, which is bad, and 2, which is good. */
  const LADDER: Graph := map[1 := Link([]), 2 := Link([1]), 3 := Link([2]), 4 := Link([3])]
  const BETWEEN: BisectState := BisectState("main", 4, [2], map[2 := Good, 4 := Bad], Some(3), None)

  lemma LadderAnc()
    ensures Anc(LADDER, 1) == {1} && Anc(LADDER, 2) == {1, 2} && Anc(LADDER, 3) == {1, 2, 3}
      && Anc(LADDER, 4) == {1, 2, 3, 4}
  {
    LadderStep(1, {1}, {});
    LadderStep(2, {1, 2}, {1});
    LadderStep(3, {1, 2, 3}, {1, 2});
    LadderStep(4, {1, 2, 3, 4}, {1, 2, 3});
  }

  lemma LadderStep(h: Hash, all: set<Hash>, below: set<Hash>)
    requires 1 <= h <= 4 && all == below + {h} && Closed(LADDER, all)
    requires h > 1 ==> Anc(LADDER, h - 1) == below
    requires h == 1 ==> below == {}
    ensures Anc(LADDER, h) == all
  {
    AncLeast(LADDER, h, all);
    AncRoom(LADDER, h);
    if h > 1 {
      assert Parents(LADDER, h)[0] == h - 1;
      AncTrans(LADDER, h, h - 1);
    }
  }

  lemma LadderAcyclic()
    ensures Acyclic(LADDER)
  {
    forall h
      ensures !ProperReach(LADDER, h, h)
    {
      if ProperReach(LADDER, h, h) {
        var n: nat :| n > 0 && Steps(LADDER, h, h, n);
        LadderDown(h, h, n);
      }
    }
  }

  lemma {:induction false} LadderDown(h: Hash, x: Hash, n: nat)
    requires Steps(LADDER, h, x, n)
    ensures x + n <= h
    decreases n
  {
    if n > 0 {
      var p :| p in Parents(LADDER, h) && Steps(LADDER, p, x, n - 1);
      LadderDown(p, x, n - 1);
    }
  }

  lemma LadderSuspects(g: Graph)
    requires Anc(g, 2) == {1, 2} && Anc(g, 4) == {1, 2, 3, 4}
    ensures Suspects(g, 4, map[2 := Good, 4 := Bad]) == {3, 4}
  {
    assert Suspects(g, 4, map[]) == Anc(g, 4);
    MarkNarrows(g, 4, map[], 2, Good);
    MarkNarrows(g, 4, map[2 := Good], 4, Bad);
    assert map[2 := Good][4 := Bad] == map[2 := Good, 4 := Bad];
  }

  lemma LadderMarkable(g: Graph, s: BisectState)
    requires Anc(g, 1) == {1} && Anc(g, 2) == {1, 2} && Anc(g, 4) == {1, 2, 3, 4} && g.Keys == {1, 2, 3, 4}
    requires s.bad == 4 && s.tested == map[2 := Good, 4 := Bad] && s.concluded.None?
    ensures Markable(g, s, Some(4), Good) && Markable(g, s, Some(1), Bad)
    ensures Contradicts(g, Suspects(g, 4, Others(s.tested, 1)), 1, Bad)
  {
    LadderSuspects(g);
    assert Others(s.tested, 1) == s.tested;
  }

  /**
    Two accepted marks there that end in the error: good on the bad commit 4, and bad on 1,
    which reaches no suspect.
   */
  lemma InconsistentMarks(r: Result<Step>)
    ensures Markable(LADDER, BETWEEN, Some(4), Good) && Markable(LADDER, BETWEEN, Some(1), Bad)
    ensures Answers(LADDER, 4, BETWEEN.tested[4 := Good], r) ==> r.Err?
    ensures Answers(LADDER, 4, BETWEEN.tested[1 := Bad], r) ==> r.Err?
  {
    LadderAcyclic();
    LadderAnc();
    LadderMarkable(LADDER, BETWEEN);
    BothFail(LADDER, BETWEEN, r);
  }

  lemma BothFail(g: Graph, s: BisectState, r: Result<Step>)
    requires Acyclic(g) && Markable(g, s, Some(s.bad), Good) && Markable(g, s, Some(1), Bad)
    requires Contradicts(g, Suspects(g, s.bad, Others(s.tested, 1)), 1, Bad)
    ensures Answers(g, s.bad, s.tested[s.bad := Good], r) ==> r.Err?
    ensures Answers(g, s.bad, s.tested[1 := Bad], r) ==> r.Err?
  {
    if Answers(g, s.bad, s.tested[s.bad := Good], r) { BadCommitGoodFails(g, s, r); }
    if Answers(g, s.bad, s.tested[1 := Bad], r) { MarkFailsExactly(g, s, 1, Bad, r); }
  }

  // ---------- Logarithmic search of a linear range ----------

  /** Any two members are related by ancestry. */
  ghost predicate Chain(g: Graph, s: set<Hash>) {
    forall x, y {:trigger Related(g, x, y)} :: x in s && y in s ==> Related(g, x, y)
  }

  ghost predicate Related(g: Graph, x: Hash, y: Hash) {
    x in Anc(g, y) || y in Anc(g, x)
  }

  /** Whatever lies between two members is a member. */
  ghost predicate Convex(g: Graph, s: set<Hash>) {
    forall x, y, z {:trigger Amid(g, x, z, y)} :: x in s && y in s && Amid(g, x, z, y) ==> z in s
  }

  ghost predicate Amid(g: Graph, x: Hash, z: Hash, y: Hash) {
    z in Anc(g, x) && y in Anc(g, z)
  }

  lemma SuspectsConvex(g: Graph, bad: Hash, tested: Marks)
    ensures Convex(g, Suspects(g, bad, tested))
  {
    var s := Suspects(g, bad, tested);
    forall x, y, z | x in s && y in s && Amid(g, x, z, y)
      ensures z in s
    {
      Between(g, bad, tested, x, y, z);
    }
  }

  lemma Between(g: Graph, bad: Hash, tested: Marks, x: Hash, y: Hash, z: Hash)
    requires x in Suspects(g, bad, tested) && y in Suspects(g, bad, tested) && z in Anc(g, x) && y in Anc(g, z)
    ensures z in Suspects(g, bad, tested)
  {
    AncTrans(g, bad, x);
    forall t | t in tested
      ensures tested[t] == Bad ==> z in Anc(g, t)
      ensures tested[t] == Good ==> z !in Anc(g, t)
    {
      if tested[t] == Bad { AncTrans(g, t, x); }
      assert tested[t] == Good && y in Anc(g, t) ==> Cleared(g, tested, y);
      if tested[t] == Good && z in Anc(g, t) {
        AncTrans(g, t, z);
      }
    }
  }

  /** The first link of a path between two members of a convex set leads to an earlier member. */
  lemma FirstLink(g: Graph, s: set<Hash>, order: seq<Hash>, i: nat, y: Hash, p: Hash) returns (k: nat)
    requires KahnOrder(g, s, order) && Elems(order) == s && Convex(g, s) && i < |order|
    requires y in s && p in Parents(g, order[i]) && Reach(g, p, y)
    ensures k < i && order[k] == p
  {
    ReachParent(g, order[i], p);
    AncIsReach(g, order[i], p);
    AncIsReach(g, p, y);
    assert order[i] in Elems(order);
    assert Amid(g, order[i], p, y);
    assert KahnPick(g, s, order[..i], order[i]);
    assert p in order[..i];
    k :| 0 <= k < i && order[k] == p;
  }

  /** In the order of a convex set ancestors come first. */
  lemma {:induction false} AncestorsFirst(g: Graph, s: set<Hash>, order: seq<Hash>, i: nat, j: nat, n: nat)
    requires KahnOrder(g, s, order) && Elems(order) == s && Convex(g, s) && i < |order| && j < |order|
    requires Steps(g, order[i], order[j], n)
    ensures j <= i
    decreases n
  {
    if n == 0 {
      assert order[i] == order[j];
    } else {
      var p :| p in Parents(g, order[i]) && Steps(g, p, order[j], n - 1);
      assert Reach(g, p, order[j]);
      assert order[j] in Elems(order);
      var k := FirstLink(g, s, order, i, order[j], p);
      AncestorsFirst(g, s, order, k, j, n - 1);
    }
  }

  /** In the order of a chain, ancestry is position. */
  lemma ChainPositions(g: Graph, s: set<Hash>, order: seq<Hash>, i: nat, j: nat)
    requires KahnOrder(g, s, order) && Elems(order) == s && Convex(g, s) && Chain(g, s)
    requires i < |order| && j < |order|
    ensures order[j] in Anc(g, order[i]) <==> j <= i
  {
    assert order[i] in Elems(order) && order[j] in Elems(order);
    assert Related(g, order[i], order[j]);
    if order[j] in Anc(g, order[i]) {
      var n: nat :| Steps(g, order[i], order[j], n);
      AncestorsFirst(g, s, order, i, j, n);
    } else {
      var n: nat :| Steps(g, order[j], order[i], n);
      AncestorsFirst(g, s, order, j, i, n);
      AncSelf(g, order[i]);
      assert i != j;
    }
  }

  /** A good mark at position `k` of a chain leaves what is after it, a bad mark what is up to it. */
  lemma ChainCut(g: Graph, s: set<Hash>, order: seq<Hash>, k: nat)
    requires KahnOrder(g, s, order) && Elems(order) == s && Convex(g, s) && Chain(g, s) && k < |order|
    ensures |s| == |order|
    ensures |Narrowed(g, s, order[k], Good)| == |order| - k - 1
    ensures |Narrowed(g, s, order[k], Bad)| == k + 1
  {
    forall j | 0 <= j < |order|
      ensures order[j] in Anc(g, order[k]) <==> j <= k
    {
      ChainPositions(g, s, order, k, j);
    }
    Cut(s, order, k, Anc(g, order[k]));
  }

  lemma Cut(s: set<Hash>, order: seq<Hash>, k: nat, below: set<Hash>)
    requires NoDup(order) && Elems(order) == s && k < |order|
    requires forall j :: 0 <= j < |order| ==> (order[j] in below <==> j <= k)
    ensures |s| == |order| && |s - below| == |order| - k - 1 && |s * below| == k + 1
  {
    var lo, hi := order[..k + 1], order[k + 1..];
    NoDupCard(order);
    NoDupCard(lo);
    NoDupCard(hi);
    forall x | x in s
      ensures x in below <==> x in Elems(lo)
      ensures x !in below <==> x in Elems(hi)
    {
      var j :| 0 <= j < |order| && order[j] == x;
      assert j <= k ==> lo[j] == x;
      assert j > k ==> hi[j - k - 1] == x;
    }
    assert s * below == Elems(lo);
    assert s - below == Elems(hi);
  }

  ghost predicate NoSkips(tested: Marks) {
    forall t :: t in tested ==> tested[t] != Skip
  }

  lemma {:induction false} UntestedAll(order: seq<Hash>, tested: Marks)
    requires forall h :: h in order ==> h !in tested
    ensures Untested(order, tested) == order
  {
    if order != [] {
      var k := |order| - 1;
      assert order == order[..k] + [order[k]];
      UntestedAll(order[..k], tested);
    }
  }

  /** In an unskipped chain the top comes last, everything else is untested, and the middle is offered. */
  lemma ChainOffer(g: Graph, s: set<Hash>, tested: Marks, t: Hash, order: seq<Hash>)
    requires KahnOrder(g, s, order) && Elems(order) == s && Convex(g, s) && Chain(g, s)
    requires t in s && s <= Anc(g, t) && forall h :: h in s && h in tested ==> h == t
    requires t in tested
    ensures order != [] && Untested(order, tested) == order[..|order| - 1]
  {
    var k :| 0 <= k < |order| && order[k] == t;
    var last := |order| - 1;
    assert order[last] in Elems(order);
    ChainPositions(g, s, order, k, last);
    assert order == order[..last] + [order[last]];
    forall i | 0 <= i < last
      ensures order[..last][i] !in tested
    {
      assert order[i] in Elems(order);
    }
    UntestedAll(order[..last], tested);
  }

  /** The middle mark of a chain halves it. */
  lemma MiddleHalves(g: Graph, s: set<Hash>, order: seq<Hash>, c: Hash, v: Verdict)
    requires KahnOrder(g, s, order) && Elems(order) == s && Convex(g, s) && Chain(g, s)
    requires |order| >= 2 && c == order[..|order| - 1][(|order| - 1) / 2] && v != Skip
    ensures 2 * (|Narrowed(g, s, c, v)| - 1) <= |s| - 1
  {
    ChainCut(g, s, order, (|order| - 1) / 2);
  }

  /** A session state over a linear range: stored, topped, unskipped. */
  ghost predicate Linear(g: Graph, bad: Hash, tested: Marks) {
    && Walkable(g, bad, tested) && HasTop(g, bad, tested) && NoSkips(tested)
    && Chain(g, Suspects(g, bad, tested))
  }

  ghost function Left(g: Graph, bad: Hash, tested: Marks): nat {
    |Suspects(g, bad, tested)|
  }

  lemma OnlyTopTested(g: Graph, bad: Hash, tested: Marks, t: Hash)
    requires Acyclic(g) && TopSuspect(g, bad, tested, t) && NoSkips(tested)
    ensures forall h :: h in Suspects(g, bad, tested) && h in tested ==> h == t
  {
    forall h | h in Suspects(g, bad, tested) && h in tested
      ensures h == t
    {
      MarkedSuspects(g, bad, tested, t, h);
    }
  }

  lemma SubChain(g: Graph, s: set<Hash>, c: Hash, v: Verdict)
    requires Chain(g, s)
    ensures Chain(g, Narrowed(g, s, c, v))
  {
    forall x, y | x in Narrowed(g, s, c, v) && y in Narrowed(g, s, c, v)
      ensures Related(g, x, y)
    {
      assert x in s && y in s;
    }
  }

  /** One good or bad mark on the offered candidate of a linear range halves it. */
  lemma ChainHalves(g: Graph, bad: Hash, tested: Marks, c: Hash, v: Verdict)
    requires Acyclic(g) && Linear(g, bad, tested) && Offered(g, bad, tested, c) && v != Skip
    ensures 2 * (Left(g, bad, tested[c := v]) - 1) <= Left(g, bad, tested) - 1
    ensures Linear(g, bad, tested[c := v])
  {
    var t :| TopSuspect(g, bad, tested, t);
    var order := OfferedOrder(g, bad, tested, c);
    OnlyTopTested(g, bad, tested, t);
    SuspectsConvex(g, bad, tested);
    ChainOffer(g, Suspects(g, bad, tested), tested, t, order);
    MiddleHalves(g, Suspects(g, bad, tested), order, c, v);
    OfferedIsUntested(g, bad, tested, c);
    MarkNarrows(g, bad, tested, c, v);
    SubChain(g, Suspects(g, bad, tested), c, v);
    OfferedMarkProgress(g, bad, tested, c, v);
  }

  function Pow2(k: nat): nat {
    if k == 0 then 1 else 2 * Pow2(k - 1)
  }

  ghost predicate Unskipped(marks: seq<Mark>) {
    forall i :: 0 <= i < |marks| ==> marks[i].v != Skip
  }

  lemma {:induction false} ChainRun(g: Graph, bad: Hash, tested: Marks, marks: seq<Mark>)
    requires Acyclic(g) && Linear(g, bad, tested) && OfferedRun(g, bad, tested, marks)
    requires Unskipped(marks)
    ensures Shrunk(Pow2(|marks|), Left(g, bad, After(tested, marks)), Left(g, bad, tested))
    ensures Linear(g, bad, After(tested, marks))
    decreases |marks|
  {
    if marks != [] {
      var k := |marks| - 1;
      OfferedPrefix(g, bad, tested, marks);
      var before := marks[..k];
      ChainRun(g, bad, tested, before);
      assert After(tested, marks) == After(tested, before)[marks[k].h := marks[k].v];
      ChainStep(g, bad, After(tested, before), marks[k], Pow2(k), Left(g, bad, tested));
    }
  }

  lemma ChainStep(g: Graph, bad: Hash, now: Marks, m: Mark, p: nat, n: nat)
    requires Acyclic(g) && Linear(g, bad, now) && Offered(g, bad, now, m.h) && m.v != Skip
    requires Shrunk(p, Left(g, bad, now), n)
    ensures Shrunk(2 * p, Left(g, bad, now[m.h := m.v]), n)
    ensures Linear(g, bad, now[m.h := m.v])
  {
    ChainHalves(g, bad, now, m.h, m.v);
    Halving(p, Left(g, bad, now[m.h := m.v]), Left(g, bad, now), n);
  }

  /** `left` suspects are what is left of `n` after a division by `p`. */
  ghost predicate Shrunk(p: nat, left: nat, n: nat) {
    p * (left - 1) <= n - 1
  }

  lemma Halving(p: nat, a: nat, b: nat, n: nat)
    requires 2 * (a - 1) <= b - 1 && Shrunk(p, b, n)
    ensures Shrunk(2 * p, a, n)
  {
    assert (2 * p) * (a - 1) == p * (2 * (a - 1));
    Scale(p, 2 * (a - 1), b - 1);
  }

  lemma Scale(p: nat, x: int, y: int)
    requires x <= y
    ensures p * x <= p * y
  {
  }

  /**
    A linear range of n suspects, without skips and with every mark on the offered
    candidate, is down to the culprit after k marks as soon as 2^k reaches n.
   */
  lemma BisectLogarithmic(g: Graph, bad: Hash, goods: seq<Hash>, marks: seq<Mark>, r: Result<Step>)
    requires Acyclic(g) && Startable(g, bad, goods) && OfferedRun(g, bad, StartMarks(bad, goods), marks)
    requires Chain(g, Suspects(g, bad, StartMarks(bad, goods))) && Unskipped(marks)
    requires Pow2(|marks|) >= Left(g, bad, StartMarks(bad, goods))
    requires Answers(g, bad, After(StartMarks(bad, goods), marks), r)
    ensures r.Ok? && r.value.Done?
  {
    StartLinear(g, bad, goods);
    RangeShrinks(g, bad, StartMarks(bad, goods), marks);
    OfferedRunNeverFails(g, bad, goods, marks, r);
  }

  /** Such a run has at most as many marks as it takes for their power of two to reach n. */
  lemma BisectRunLength(g: Graph, bad: Hash, goods: seq<Hash>, marks: seq<Mark>)
    requires Acyclic(g) && Startable(g, bad, goods) && OfferedRun(g, bad, StartMarks(bad, goods), marks)
    requires Chain(g, Suspects(g, bad, StartMarks(bad, goods))) && Unskipped(marks)
    ensures marks != [] ==> Pow2(|marks| - 1) < Left(g, bad, StartMarks(bad, goods))
  {
    StartLinear(g, bad, goods);
    if marks != [] { LastMark(g, bad, StartMarks(bad, goods), marks); }
  }

  lemma LastMark(g: Graph, bad: Hash, start: Marks, marks: seq<Mark>)
    requires Acyclic(g) && Linear(g, bad, start) && OfferedRun(g, bad, start, marks)
    requires marks != [] && Unskipped(marks)
    ensures Pow2(|marks| - 1) < Left(g, bad, start)
  {
    var left := BeforeLast(g, bad, start, marks);
    StillTwo(Pow2(|marks| - 1), left, Left(g, bad, start));
  }

  /** The suspects left before the last mark: at least two, since a candidate was offered. */
  lemma BeforeLast(g: Graph, bad: Hash, start: Marks, marks: seq<Mark>) returns (left: nat)
    requires Acyclic(g) && Linear(g, bad, start) && OfferedRun(g, bad, start, marks)
    requires marks != [] && Unskipped(marks)
    ensures left >= 2 && Shrunk(Pow2(|marks| - 1), left, Left(g, bad, start))
  {
    var before := marks[..|marks| - 1];
    OfferedPrefix(g, bad, start, marks);
    ChainRun(g, bad, start, before);
    left := Left(g, bad, After(start, before));
    OfferedLeavesTwo(g, bad, After(start, before), marks[|before|].h);
  }

  lemma StillTwo(p: nat, left: nat, n: nat)
    requires left >= 2 && Shrunk(p, left, n)
    ensures p < n
  {
    Scale(p, 1, left - 1);
  }

  lemma OfferedLeavesTwo(g: Graph, bad: Hash, tested: Marks, c: Hash)
    requires Offered(g, bad, tested, c)
    ensures Left(g, bad, tested) >= 2
  {
    var left, testable :| Answers(g, bad, tested, Ok(Next(c, left, testable)));
    assert |Suspects(g, bad, tested)| == 0 ==> Suspects(g, bad, tested) == {};
  }

  lemma StartLinear(g: Graph, bad: Hash, goods: seq<Hash>)
    requires Acyclic(g) && Startable(g, bad, goods) && Chain(g, Suspects(g, bad, StartMarks(bad, goods)))
    ensures Linear(g, bad, StartMarks(bad, goods))
  {
    StartHasTop(g, bad, goods);
  }

  lemma RangeShrinks(g: Graph, bad: Hash, start: Marks, marks: seq<Mark>)
    requires Acyclic(g) && Linear(g, bad, start) && OfferedRun(g, bad, start, marks)
    requires Unskipped(marks)
    requires Pow2(|marks|) >= Left(g, bad, start)
    ensures Left(g, bad, After(start, marks)) == 1
  {
    ChainRun(g, bad, start, marks);
    SomeLeft(g, bad, After(start, marks));
    OnlyOne(Pow2(|marks|), Left(g, bad, After(start, marks)), Left(g, bad, start));
  }

  lemma SomeLeft(g: Graph, bad: Hash, tested: Marks)
    requires HasTop(g, bad, tested)
    ensures Left(g, bad, tested) >= 1
  {
    var t :| TopSuspect(g, bad, tested, t);
  }

  lemma OnlyOne(p: nat, left: nat, n: nat)
    requires left >= 1 && Shrunk(p, left, n) && p >= n
    ensures left == 1
  {
    if left >= 2 {
      Scale(p, 1, left - 1);
    }
  }
}
