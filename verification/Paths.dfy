/**
  Which paths may appear in a tree (internal/merkle/path.go).
*/
module Paths {
  import opened Text

  /** A character that a tree path may hold: no NUL, control or bidi character, no backslash. */
  predicate PlainChar(c: char) {
    && c as int >= 0x20 && c as int != 0x7f && c != '\\'
    && !(0x202a <= c as int <= 0x202e) && !(0x2066 <= c as int <= 0x2069)
  }

  predicate Segment(s: string) {
    s != "" && s != "." && s != ".."
  }

  /** CleanTreePath accepts `p`. */
  predicate CleanTreePath(p: string) {
    && p != ""
    && (forall c :: c in p ==> PlainChar(c))
    && p[0] != '/'
    && (forall s :: s in Split(p, '/') ==> Segment(s))
  }

  /** CleanTreePaths accepts every path of a flattened tree. */
  predicate CleanTreePaths(paths: set<string>) {
    forall p :: p in paths ==> CleanTreePath(p)
  }

  /** The first segment of a clean path, and what follows it, are clean. */
  lemma CleanCut(p: string)
    requires CleanTreePath(p)
    ensures var i := Index(p, '/');
      if i < 0 then Segment(p) else Segment(p[..i]) && CleanTreePath(p[i + 1..])
  {
    var i := Index(p, '/');
    if i < 0 {
      assert p in Split(p, '/');
    } else {
      var rest := Split(p[i + 1..], '/');
      assert Split(p, '/') == [p[..i]] + rest;
      assert p[..i] in Split(p, '/');
      assert forall s :: s in rest ==> s in Split(p, '/');
      CleanTail(p[i + 1..]);
    }
  }

  lemma CleanTail(t: string)
    requires forall c :: c in t ==> PlainChar(c)
    requires forall s :: s in Split(t, '/') ==> Segment(s)
    ensures CleanTreePath(t)
  {
    var i := Index(t, '/');
    assert Split(t, '/')[0] == if i < 0 then t else t[..i];
    assert Split(t, '/')[0] in Split(t, '/');
  }
}
