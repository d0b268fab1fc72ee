/**
  Vector clocks (internal/vectorclock/vectorclock.go). A clock object owns a map that its
  methods update; the clock of a stored commit is the map's value at commit time.
  Counters are unbounded here.
*/
module VectorClock {
  import opened Dag

  /** Reading a Go map: an absent peer counts as zero. */
  function Count(c: Clock, p: Peer): nat {
    if p in c then c[p] else 0
  }

  ghost predicate Leq(a: Clock, b: Clock) {
    forall p :: Count(a, p) <= Count(b, p)
  }

  /** Strictly earlier in the pointwise order. */
  ghost predicate Before(a: Clock, b: Clock) {
    Leq(a, b) && !Leq(b, a)
  }

  ghost predicate Same(a: Clock, b: Clock) {
    forall p :: Count(a, p) == Count(b, p)
  }

  ghost predicate Parallel(a: Clock, b: Clock) {
    !Leq(a, b) && !Leq(b, a)
  }

  function Bumped(c: Clock, p: Peer): Clock {
    c[p := Count(c, p) + 1]
  }

  /** The merged map: a peer of `b` enters only when its counter is larger than what `a` has. */
  function Joined(a: Clock, b: Clock): Clock {
    map p | p in a.Keys + b.Keys && (p in a || b[p] > 0) ::
      if Count(b, p) > Count(a, p) then Count(b, p) else Count(a, p)
  }

  /** Merging is the least upper bound. */
  lemma JoinedIsLub(a: Clock, b: Clock)
    ensures forall p :: Count(Joined(a, b), p) == if Count(b, p) > Count(a, p) then Count(b, p) else Count(a, p)
    ensures Leq(a, Joined(a, b)) && Leq(b, Joined(a, b))
    ensures forall c :: Leq(a, c) && Leq(b, c) ==> Leq(Joined(a, b), c)
  {
    var j := Joined(a, b);
    forall p
      ensures Count(j, p) == if Count(b, p) > Count(a, p) then Count(b, p) else Count(a, p)
    {
      if p in a.Keys + b.Keys && (p in a || b[p] > 0) {
        assert p in j;
      }
    }
  }

  class VClock {
    var counts: Clock

    /** Clone: a clock of its own with the given counters. */
    constructor (c: Clock)
      ensures counts == c
    {
      counts := c;
    }

    method Increment(peer: Peer)
      modifies this
      ensures counts == Bumped(old(counts), peer)
    {
      counts := counts[peer := Count(counts, peer) + 1];
    }

    /** Element-wise maximum into the receiver. */
    method Merge(other: Clock)
      modifies this
      ensures counts == Joined(old(counts), other)
      ensures Leq(old(counts), counts) && Leq(other, counts)
    {
      ghost var mine := counts;
      var rest := other.Keys;
      while rest != {}
        invariant rest <= other.Keys
        invariant forall p :: p in counts <==> p in mine || (p in other.Keys - rest && other[p] > 0)
        invariant forall p :: p in counts ==>
          counts[p] == (if p in other.Keys - rest && other[p] > Count(mine, p) then other[p] else Count(mine, p))
        decreases rest
      {
        var k :| k in rest;
        if other[k] > Count(counts, k) {
          counts := counts[k := other[k]];
        }
        rest := rest - {k};
      }
      assert counts == Joined(mine, other);
      JoinedIsLub(mine, other);
    }

    /** Compare: -1 and 1 are the strict pointwise order in each direction. */
    method Compare(other: Clock) returns (r: int)
      ensures r == -1 <==> Before(counts, other)
      ensures r == 1 <==> Before(other, counts)
      ensures -1 <= r <= 1
    {
      var less, greater := false, false;
      var rest := counts.Keys;
      while rest != {}
        invariant rest <= counts.Keys
        invariant less <==> exists p :: p in counts.Keys - rest && Count(counts, p) < Count(other, p)
        invariant greater <==> exists p :: p in counts.Keys - rest && Count(counts, p) > Count(other, p)
        decreases rest
      {
        var k :| k in rest;
        var v, ov := counts[k], Count(other, k);
        assert counts.Keys - (rest - {k}) == (counts.Keys - rest) + {k};
        if v < ov {
          less := true;
        } else if v > ov {
          greater := true;
        }
        rest := rest - {k};
      }
      ghost var less0 := less;
      rest := other.Keys;
      while rest != {}
        invariant rest <= other.Keys
        invariant less <==> less0 || exists p :: p in other.Keys - rest && p !in counts && other[p] > 0
        decreases rest
      {
        var k :| k in rest;
        assert other.Keys - (rest - {k}) == (other.Keys - rest) + {k};
        if k !in counts && other[k] > 0 {
          less := true;
        }
        rest := rest - {k};
      }
      assert !Leq(other, counts) <==> less by {
        if p :| p in other && p !in counts && other[p] > 0 {
          assert Count(counts, p) < Count(other, p);
        }
        if p :| !(Count(other, p) <= Count(counts, p)) {
          assert p in other;
        }
      }
      assert !Leq(counts, other) <==> greater;
      return if less && !greater then -1 else if greater && !less then 1 else 0;
    }

    /** Equal: missing entries count as zero. */
    method Equal(other: Clock) returns (r: bool)
      ensures r <==> Same(counts, other)
    {
      var rest := counts.Keys + other.Keys;
      while rest != {}
        invariant rest <= counts.Keys + other.Keys
        invariant forall p :: p in counts.Keys + other.Keys - rest ==> Count(counts, p) == Count(other, p)
        decreases rest
      {
        var k :| k in rest;
        if Count(counts, k) != Count(other, k) { return false; }
        rest := rest - {k};
      }
      return true;
    }

    method Concurrent(other: Clock) returns (r: bool)
      ensures r <==> Parallel(counts, other)
    {
      var c := Compare(other);
      var e := Equal(other);
      assert Leq(counts, other) && Leq(other, counts) <==> Same(counts, other);
      return c == 0 && !e;
    }

    method HappenedBefore(other: Clock) returns (r: bool)
      ensures r <==> Before(counts, other)
    {
      var c := Compare(other);
      return c == -1;
    }
  }
}
