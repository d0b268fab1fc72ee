/**
  Binary search for the first bad commit (internal/gitcompat/bisect.go): a session kept
  between commands, whose marks narrow the set of suspects. The state file is what was last
  saved; whether the working tree is clean is a parameter of each command.
*/
module Bisect {
  import opened Dag
  import opened DagWalk
  import opened Topo

  datatype Verdict = Good | Bad | Skip

  datatype BisectState = BisectState(origBranch: string, bad: Hash, good: seq<Hash>, tested: map<Hash, Verdict>,
                                     current: Option<Hash>, concluded: Option<Hash>)

  /** What a mark answers: a candidate to test, the culprit, or the suspects left when only skipped ones remain. */
  datatype Step = Next(h: Hash, left: nat, testable: nat) | Done(culprit: Hash) | Range(among: set<Hash>)

  const SCRATCH: string := "bisect-scratch"

  // ---------- Specification ----------

  ghost predicate Cleared(g: Graph, tested: map<Hash, Verdict>, h: Hash) {
    exists t :: t in tested && tested[t] == Good && h in Anc(g, t)
  }

  ghost predicate Blamed(g: Graph, tested: map<Hash, Verdict>, h: Hash) {
    forall t :: t in tested && tested[t] == Bad ==> h in Anc(g, t)
  }

  /** The ancestors of `bad` that no good mark clears and every bad mark leaves in. */
  ghost function Suspects(g: Graph, bad: Hash, tested: map<Hash, Verdict>): set<Hash> {
    set h | h in Anc(g, bad) && !Cleared(g, tested, h) && Blamed(g, tested, h)
  }

  /** Everything the marks make bisect walk is stored. */
  ghost predicate Walkable(g: Graph, bad: Hash, tested: map<Hash, Verdict>) {
    && Complete(g, bad)
    && forall t :: t in tested && tested[t] != Skip ==> Complete(g, t)
  }

  /** The untested members of an order, in order. */
  function Untested(order: seq<Hash>, tested: map<Hash, Verdict>): seq<Hash> {
    if order == [] then []
    else Untested(order[..|order| - 1], tested) + if order[|order| - 1] in tested then [] else [order[|order| - 1]]
  }

  /** The answer that bisectAdvance gives for a set of marks. */
  ghost predicate Answers(g: Graph, bad: Hash, tested: map<Hash, Verdict>, r: Result<Step>) {
    var s := Suspects(g, bad, tested);
    if !Walkable(g, bad, tested) || s == {} then r.Err?
    else if |s| == 1 then r.Ok? && r.value.Done? && s == {r.value.culprit}
    else exists order: seq<Hash> ::
        KahnOrder(g, s, order) && Elems(order) == s && Chooses(s, order, tested, r)
  }

  /** The choice among two or more suspects in order: the middle untested one, or the skipped range. */
  ghost predicate Chooses(s: set<Hash>, order: seq<Hash>, tested: map<Hash, Verdict>, r: Result<Step>) {
    var testable := Untested(order, tested);
    if testable == [] then
      if exists h :: h in s && h in tested && tested[h] == Skip then r == Ok(Range(s)) else r.Err?
    else r == Ok(Next(testable[|testable| / 2], |s|, |testable|))
  }

  /** Where an answer asks for a checkout, a dirty working tree turns it into an error. */
  function Given(d: Result<Step>, clean: bool): Result<Step> {
    if clean || d.Err? || d.value.Range? then d else Err("cannot switch candidate")
  }

  ghost predicate AnswersIf(g: Graph, bad: Hash, tested: map<Hash, Verdict>, clean: bool, r: Result<Step>) {
    exists d :: Answers(g, bad, tested, d) && r == Given(d, clean)
  }

  /** `c` is the candidate that bisect offers. */
  ghost predicate Offered(g: Graph, bad: Hash, tested: map<Hash, Verdict>, c: Hash) {
    exists left, testable :: Answers(g, bad, tested, Ok(Next(c, left, testable)))
  }

  // ---------- The session ----------

  method Ancestors(g: Graph, h: Hash) returns (r: Result<set<Hash>>)
    ensures r.Ok? <==> Complete(g, h)
    ensures r.Ok? ==> r.value == Anc(g, h)
  {
    var walk := WalkTipOrder(g, h, 0);
    if walk.Err? { return Err(walk.error); }
    return Ok(set x | x in walk.value);
  }

  /** suspectSet: narrows the ancestors of `bad` by every good and bad mark, in any order. */
  method SuspectSet(g: Graph, bad: Hash, tested: map<Hash, Verdict>) returns (r: Result<set<Hash>>)
    ensures r.Ok? <==> Walkable(g, bad, tested)
    ensures r.Ok? ==> r.value == Suspects(g, bad, tested)
  {
    var anc := Ancestors(g, bad);
    if anc.Err? { return anc; }
    var s := anc.value;
    var rest := tested.Keys;
    while rest != {}
      invariant rest <= tested.Keys
      invariant Walkable(g, bad, Only(tested, tested.Keys - rest))
      invariant s == Suspects(g, bad, Only(tested, tested.Keys - rest))
      decreases rest
    {
      var t :| t in rest;
      ghost var seen := tested.Keys - rest;
      rest := rest - {t};
      assert tested.Keys - rest == seen + {t};
      NarrowStep(g, bad, tested, seen, t);
      if tested[t] == Skip { continue; }
      var a := Ancestors(g, t);
      if a.Err? { return a; }
      s := if tested[t] == Good then s - a.value else s * a.value;
    }
    assert Only(tested, tested.Keys - {}) == tested;
    return Ok(s);
  }

  ghost function Only(tested: map<Hash, Verdict>, keys: set<Hash>): map<Hash, Verdict> {
    map t | t in tested && t in keys :: tested[t]
  }

  lemma NarrowStep(g: Graph, bad: Hash, tested: map<Hash, Verdict>, seen: set<Hash>, t: Hash)
    requires t in tested && t !in seen
    ensures Suspects(g, bad, Only(tested, seen + {t})) ==
      Narrowed(g, Suspects(g, bad, Only(tested, seen)), t, tested[t])
    ensures Walkable(g, bad, Only(tested, seen + {t})) <==>
      Walkable(g, bad, Only(tested, seen)) && (tested[t] == Skip || Complete(g, t))
  {
    assert Only(tested, seen + {t}) == Only(tested, seen)[t := tested[t]];
    MarkNarrows(g, bad, Only(tested, seen), t, tested[t]);
  }

  /** What a mark on `t` does to a set of suspects. */
  ghost function Narrowed(g: Graph, s: set<Hash>, t: Hash, v: Verdict): set<Hash> {
    match v case Good => s - Anc(g, t) case Bad => s * Anc(g, t) case Skip => s
  }

  /** Marking a commit that has no mark narrows the suspects and nothing else. */
  lemma MarkNarrows(g: Graph, bad: Hash, tested: map<Hash, Verdict>, t: Hash, v: Verdict)
    requires t !in tested
    ensures Suspects(g, bad, tested[t := v]) == Narrowed(g, Suspects(g, bad, tested), t, v)
  {
    var tested' := tested[t := v];
    forall h
      ensures Cleared(g, tested', h) <==> Cleared(g, tested, h) || (v == Good && h in Anc(g, t))
      ensures Blamed(g, tested', h) <==> Blamed(g, tested, h) && (v == Bad ==> h in Anc(g, t))
    {
      MarkTells(g, tested, t, v, h);
    }
  }

  lemma MarkTells(g: Graph, tested: map<Hash, Verdict>, t: Hash, v: Verdict, h: Hash)
    requires t !in tested
    ensures Cleared(g, tested[t := v], h) <==> Cleared(g, tested, h) || (v == Good && h in Anc(g, t))
    ensures Blamed(g, tested[t := v], h) <==> Blamed(g, tested, h) && (v == Bad ==> h in Anc(g, t))
  {
    var tested' := tested[t := v];
    assert t in tested' && tested'[t] == v;
    if x :| x in tested && tested[x] == Good && h in Anc(g, x) {
      assert tested'[x] == Good;
    }
    assert forall x :: x in tested ==> tested'[x] == tested[x];
  }

  /** The decision in bisectAdvance: what the suspects left call for. */
  method Decide(g: Graph, bad: Hash, tested: map<Hash, Verdict>) returns (r: Result<Step>)
    requires Acyclic(g)
    ensures Answers(g, bad, tested, r)
  {
    var found := SuspectSet(g, bad, tested);
    if found.Err? { return Err(found.error); }
    var suspects := found.value;
    if |suspects| == 0 { return Err("inconsistent marks"); }
    if |suspects| == 1 {
      var h :| h in suspects;
      OneMember(suspects, h);
      return Ok(Done(h));
    }
    assert suspects <= Anc(g, bad) <= g.Keys;
    var sorted := TopoOrder(g, suspects);
    if sorted.Err? { return Err("cannot order the suspects"); }
    r := Choose(suspects, sorted.value, tested);
  }

  /** The choice among the suspects in order: the middle untested one. */
  method Choose(suspects: set<Hash>, order: seq<Hash>, tested: map<Hash, Verdict>) returns (r: Result<Step>)
    requires Elems(order) == suspects
    ensures Chooses(suspects, order, tested, r)
  {
    var testable, skipped := PickTestable(order, tested);
    assert forall h :: h in order <==> h in suspects;
    if |testable| == 0 {
      if skipped == 0 { return Err("internal error"); }
      return Ok(Range(suspects));
    }
    return Ok(Next(testable[|testable| / 2], |suspects|, |testable|));
  }

  /** The session, the refs, HEAD and the commit checked out. */
  datatype Position = At(st: Option<BisectState>, refs: map<string, Hash>, head: string, work: Hash)

  /** Where an answer leaves a session: on the candidate or the culprit, or where it was. */
  function Advanced(p: Position, s: BisectState, r: Result<Step>): Position {
    match r
    case Ok(Next(h, _, _)) => At(Some(s.(current := Some(h))), p.refs[SCRATCH := h], SCRATCH, h)
    case Ok(Done(h)) => At(Some(s.(current := Some(h), concluded := Some(h))), p.refs[SCRATCH := h], SCRATCH, h)
    case _ => p
  }

  class Bisector {
    const g: Graph
    var refs: map<string, Hash>
    var head: string
    var work: Hash
    var st: Option<BisectState>
    /** The refs and HEAD that the session in progress started from. */
    ghost var refs0: map<string, Hash>
    ghost var head0: string

    /** During a session only the scratch branch has moved, and the way back is on record. */
    ghost predicate Valid()
      reads this
    {
      st.Some? ==> SCRATCH !in refs0 && refs - {SCRATCH} == refs0 && st.value.origBranch == head0
    }

    /** The session in progress is the one that was. */
    twostate predicate SameSession()
      reads this
    {
      && st.Some? && old(st).Some? && refs0 == old(refs0) && head0 == old(head0)
      && st.value.bad == old(st).value.bad && st.value.origBranch == old(st).value.origBranch
    }

    constructor (g: Graph, refs: map<string, Hash>, head: string, work: Hash)
      ensures Valid() && this.g == g && this.refs == refs && this.head == head && this.work == work && st == None
    {
      this.g, this.refs, this.head, this.work, this.st := g, refs, head, work, None;
    }

    ghost function Position(): Position
      reads this
    {
      At(st, refs, head, work)
    }

    /** checkoutScratch: the scratch branch, HEAD and the working tree move to `h`, if the tree is clean. */
    method CheckoutScratch(h: Hash, clean: bool) returns (ok: bool)
      modifies this`refs, this`head, this`work
      ensures ok <==> clean
      ensures Position() ==
        if clean then old(Position()).(refs := old(refs)[SCRATCH := h], head := SCRATCH, work := h) else old(Position())
    {
      if !clean { return false; }
      refs := refs[SCRATCH := h];
      head := SCRATCH;
      work := h;
      return true;
    }

    /** bisectAdvance: checks out the next candidate or the culprit, and saves it. */
    method Advance(clean: bool) returns (r: Result<Step>)
      requires Valid() && st.Some? && Acyclic(g)
      modifies this
      ensures Valid() && SameSession()
      ensures AnswersIf(g, old(st).value.bad, old(st).value.tested, clean, r)
      ensures Position() == Advanced(old(Position()), old(st).value, r)
    {
      var s := st.value;
      r := Decide(g, s.bad, s.tested);
      ghost var d := r;
      assert r == Given(d, true);
      if r.Err? || r.value.Range? { return; }
      var h := if r.value.Next? then r.value.h else r.value.culprit;
      var ok := CheckoutScratch(h, clean);
      if !ok {
        r := Err("cannot switch candidate");
        assert r == Given(d, clean);
        return;
      }
      st := Some(if r.value.Next? then s.(current := Some(h)) else s.(concluded := Some(h), current := Some(h)));
    }

    /** BisectStart. A failing start that got as far as saving leaves the session open. */
    method Start(bad: Hash, goods: seq<Hash>, clean: bool) returns (r: Result<Step>)
      requires Valid() && Acyclic(g)
      modifies this
      ensures Valid()
      ensures if old(st).None? && SCRATCH !in old(refs) && clean && Startable(g, bad, goods) then
                var s := BisectState(old(head), bad, goods, StartMarks(bad, goods), None, None);
                && Answers(g, bad, s.tested, r)
                && Position() == Advanced(old(Position()).(st := Some(s)), s, r)
                && st.Some? && refs0 == old(refs) && head0 == old(head)
              else r.Err? && Position() == old(Position()) && refs0 == old(refs0) && head0 == old(head0)
    {
      if st.Some? { return Err("bisect already in progress"); }
      if SCRATCH in refs { return Err("scratch branch exists"); }
      if !clean { return Err("workdir dirty"); }
      var anc := Ancestors(g, bad);
      if anc.Err? { return Err(anc.error); }
      var tested: map<Hash, Verdict> := map[];
      for i := 0 to |goods|
        invariant tested == GoodMarks(goods[..i]) && bad !in goods[..i]
        invariant forall x :: x in goods[..i] ==> x in Anc(g, bad)
      {
        assert goods[..i + 1] == goods[..i] + [goods[i]];
        assert goods[i] in goods && goods[i] in Elems(goods);
        if goods[i] == bad { return Err("both good and bad"); }
        if goods[i] !in anc.value { return Err("good is not an ancestor of bad"); }
        tested := tested[goods[i] := Good];
      }
      assert goods[..|goods|] == goods;
      tested := tested[bad := Bad];
      st := Some(BisectState(head, bad, goods, tested, None, None));
      refs0, head0 := refs, head;
      r := Advance(clean);
    }

    /** BisectMark on the current candidate, or on a named commit. */
    method Mark(verdict: Verdict, ref: Option<Hash>, clean: bool) returns (r: Result<Step>)
      requires Valid() && Acyclic(g)
      modifies this
      ensures Valid() && (old(st).Some? ==> SameSession())
      ensures if old(st).Some? && Markable(g, old(st).value, Target(old(st).value, ref), verdict) then
                var s := Marked(old(st).value, verdict, ref);
                && AnswersIf(g, s.bad, s.tested, clean, r)
                && Position() == Advanced(old(Position()).(st := Some(s)), s, r)
              else r.Err? && Position() == old(Position())
    {
      if st.None? { return Err("no bisect in progress"); }
      var s := st.value;
      if s.concluded.Some? { return Err("bisect already concluded"); }
      var t := Target(s, ref);
      if t.None? { return Err("nothing to mark"); }
      var found := SuspectSet(g, s.bad, s.tested);
      if found.Err? { return Err(found.error); }
      if t.value !in found.value && verdict != Skip {
        var narrows := CanNarrow(g, found.value, t.value, verdict);
        if !narrows { return Err("outside the suspect range"); }
      }
      st := Some(Marked(s, verdict, ref));
      r := Advance(clean);
    }

    /**
      BisectReset: after whatever marks, the refs and HEAD are those that the session started
      from, the working tree is at HEAD, and the session is gone.
     */
    method Reset(clean: bool) returns (r: Result<string>)
      requires Valid()
      modifies this
      ensures Valid()
      ensures old(st).None? || !clean ==> r.Err? && Position() == old(Position())
      ensures old(st).Some? && clean ==>
        && r == Ok(old(head0)) && st == None && refs == old(refs0) && head == old(head0)
        && work == if head in refs then refs[head] else old(work)
    {
      if st.None? { return Err("no bisect in progress"); }
      if !clean { return Err("workdir dirty"); }
      var orig := st.value.origBranch;
      refs := refs - {SCRATCH};
      head := orig;
      if orig in refs { work := refs[orig]; }
      st := None;
      return Ok(orig);
    }
  }

  function Target(s: BisectState, ref: Option<Hash>): Option<Hash> {
    if ref.Some? then ref else s.current
  }

  /** The session after a mark is recorded. */
  function Marked(s: BisectState, v: Verdict, ref: Option<Hash>): BisectState
    requires Target(s, ref).Some?
  {
    var t := Target(s, ref).value;
    s.(tested := s.tested[t := v], good := if v == Good && ref.None? then s.good + [t] else s.good)
  }

  ghost predicate Startable(g: Graph, bad: Hash, goods: seq<Hash>) {
    Complete(g, bad) && bad !in goods && Elems(goods) <= Anc(g, bad)
  }

  lemma OneMember<T>(s: set<T>, x: T)
    requires |s| == 1 && x in s
    ensures s == {x}
  {
    assert |s - {x}| == 0;
  }

  function GoodMarks(goods: seq<Hash>): map<Hash, Verdict> {
    map h | h in goods :: Good
  }

  /** The marks a session starts with. */
  function StartMarks(bad: Hash, goods: seq<Hash>): map<Hash, Verdict> {
    GoodMarks(goods)[bad := Bad]
  }

  /** Which commits can be marked: suspects, anything skipped, and what still narrows the range. */
  ghost predicate Markable(g: Graph, s: BisectState, t: Option<Hash>, v: Verdict) {
    && s.concluded.None? && t.Some? && Walkable(g, s.bad, s.tested)
    && var suspects := Suspects(g, s.bad, s.tested);
       (t.value in suspects || v == Skip || Narrows(g, suspects, t.value, v))
  }

  /** A good mark narrows when it clears a suspect, a bad mark when it leaves one out. */
  ghost predicate Narrows(g: Graph, suspects: set<Hash>, t: Hash, v: Verdict) {
    && Complete(g, t)
    && if v == Good then Anc(g, t) * suspects != {} else !(suspects <= Anc(g, t))
  }

  /** canNarrowGood and canNarrowBad. */
  method CanNarrow(g: Graph, suspects: set<Hash>, t: Hash, v: Verdict) returns (r: bool)
    ensures r <==> Narrows(g, suspects, t, v)
  {
    var anc := Ancestors(g, t);
    if anc.Err? { return false; }
    if v == Good {
      return anc.value * suspects != {};
    }
    return !(suspects <= anc.value);
  }

  /** The untested suspects in order, and how many are skipped. */
  method PickTestable(order: seq<Hash>, tested: map<Hash, Verdict>) returns (testable: seq<Hash>, skipped: nat)
    ensures testable == Untested(order, tested)
    ensures skipped > 0 <==> exists h :: h in order && h in tested && tested[h] == Skip
  {
    testable, skipped := [], 0;
    for i := 0 to |order|
      invariant testable == Untested(order[..i], tested)
      invariant skipped > 0 <==> exists h :: h in order[..i] && h in tested && tested[h] == Skip
    {
      var h := order[i];
      assert order[..i + 1] == order[..i] + [h];
      assert order[..i + 1][..i] == order[..i];
      if h in tested {
        if tested[h] == Skip { skipped := skipped + 1; }
        continue;
      }
      testable := testable + [h];
    }
    assert order[..|order|] == order;
  }
}
