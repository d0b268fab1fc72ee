/**
  Byte strings and big-endian numbers, as both framing layers write them.
*/
module Wire {
  type Byte = b: int | 0 <= b < 256

  type Bytes = seq<Byte>

  function Pow256(k: nat): (p: nat)
    ensures p > 0
  {
    if k == 0 then 1 else 256 * Pow256(k - 1)
  }

  /** The last `k` base-256 digits of `n`, highest first. */
  function BigEndian(n: nat, k: nat): (s: Bytes)
    ensures |s| == k
  {
    if k == 0 then [] else BigEndian(n / 256, k - 1) + [n % 256]
  }

  function FromBigEndian(s: Bytes): nat {
    if s == [] then 0 else FromBigEndian(s[..|s| - 1]) * 256 + s[|s| - 1]
  }

  lemma {:induction false} BigEndianReads(n: nat, k: nat)
    requires n < Pow256(k)
    ensures FromBigEndian(BigEndian(n, k)) == n
    decreases k
  {
    if k > 0 {
      BigEndianReads(n / 256, k - 1);
      assert BigEndian(n, k)[..k - 1] == BigEndian(n / 256, k - 1);
    }
  }

  lemma {:induction false} BigEndianWrites(s: Bytes)
    ensures FromBigEndian(s) < Pow256(|s|) && BigEndian(FromBigEndian(s), |s|) == s
    decreases |s|
  {
    if s != [] {
      BigEndianWrites(s[..|s| - 1]);
      assert s == s[..|s| - 1] + [s[|s| - 1]];
    }
  }

  function Concat(parts: seq<Bytes>): Bytes {
    if parts == [] then [] else parts[0] + Concat(parts[1..])
  }

  lemma JoinLeft<T>(a: seq<T>, b: seq<T>, c: seq<T>)
    ensures a + b + c == a + (b + c)
  {
  }

  lemma {:induction false} ConcatAppend(parts: seq<Bytes>, more: seq<Bytes>)
    ensures Concat(parts + more) == Concat(parts) + Concat(more)
    decreases |parts|
  {
    if parts == [] {
      assert parts + more == more;
    } else {
      ConcatAppend(parts[1..], more);
      assert (parts + more)[1..] == parts[1..] + more;
    }
  }

  lemma ConcatOne(parts: seq<Bytes>, last: Bytes)
    ensures Concat(parts + [last]) == Concat(parts) + last
  {
    ConcatAppend(parts, [last]);
    assert Concat([last]) == last + Concat([]);
  }

  /** How both layers cut what they are asked to write. */
  function Pieces(p: Bytes, max: nat): (parts: seq<Bytes>)
    requires max > 0
    ensures forall k :: 0 <= k < |parts| ==> 0 < |parts[k]| <= max
  {
    if p == [] then [] else if |p| <= max then [p] else [p[..max]] + Pieces(p[max..], max)
  }

  lemma {:induction false} PiecesSpell(p: Bytes, max: nat)
    requires max > 0
    ensures Concat(Pieces(p, max)) == p
    decreases |p|
  {
    if p != [] {
      if |p| <= max {
        assert Concat([p]) == p + Concat([]);
      } else {
        PiecesSpell(p[max..], max);
        var parts := [p[..max]] + Pieces(p[max..], max);
        assert parts[1..] == Pieces(p[max..], max);
      }
    }
  }

  /** Writing the next piece leaves the pieces of the rest. */
  lemma PiecesCut(done: seq<Bytes>, p: Bytes, max: nat, n: nat)
    requires max > 0 && p != [] && n == if |p| > max then max else |p|
    ensures done + Pieces(p, max) == done + [p[..n]] + Pieces(p[n..], max)
  {
    assert p[n..] == [] ==> p[..n] == p;
    assert Pieces(p, max) == [p[..n]] + Pieces(p[n..], max);
  }
}
