/** The specification of a squared Euclidean distance over a range of dimensions, in exact
    integers. A U8 coordinate is an integer in 0..255. Every finite single-precision number is an
    integer multiple of 2^-149, so an F32 coordinate is modelled by that multiple and the
    distances below are exact in the unit 2^-298. */
module Distances {

  function Sq(z: int): (r: nat) {
    z * z
  }

  predicate Bytes(x: seq<int>) {
    forall d :: 0 <= d < |x| ==> 0 <= x[d] <= 255
  }

  /** The squared distance over the dimensions lo, ..., hi - 1. */
  function SqDist(q: seq<int>, x: seq<int>, lo: nat, hi: nat): nat
    requires lo <= hi <= |q| && |x| == |q|
    decreases hi
  {
    if lo == hi then 0 else SqDist(q, x, lo, hi - 1) + Sq(q[hi - 1] - x[hi - 1])
  }

  lemma {:induction false} SqDistSplit(q: seq<int>, x: seq<int>, lo: nat, mid: nat, hi: nat)
    requires lo <= mid <= hi <= |q| && |x| == |q|
    ensures SqDist(q, x, lo, hi) == SqDist(q, x, lo, mid) + SqDist(q, x, mid, hi)
    decreases hi
  {
    if mid < hi {
      SqDistSplit(q, x, lo, mid, hi - 1);
    }
  }

  /** Over one dimension it is the square of the difference, which with SqDistSplit fixes it. */
  lemma SqDistOfOne(q: seq<int>, x: seq<int>, d: nat)
    requires d < |q| == |x|
    ensures SqDist(q, x, d, d + 1) == (q[d] - x[d]) * (q[d] - x[d])
  {
    assert SqDist(q, x, d, d) == 0;
  }

  lemma {:induction false} SqDistAtBytes(q: seq<int>, x: seq<int>, lo: nat, hi: nat)
    requires lo <= hi <= |q| && |x| == |q|
    requires Bytes(q) && Bytes(x)
    ensures SqDist(q, x, lo, hi) <= 65025 * (hi - lo)
    decreases hi
  {
    if lo < hi {
      SqDistAtBytes(q, x, lo, hi - 1);
      SqOfBytes(q[hi - 1], x[hi - 1]);
    }
  }

  /** The distances that two vectors of `dims` bytes can have. */
  ghost predicate ByteDistance(dims: nat, d: nat) {
    exists q: seq<int>, x: seq<int> :: IsByteDistance(q, x, dims, d)
  }

  predicate IsByteDistance(q: seq<int>, x: seq<int>, dims: nat, d: nat) {
    Bytes(q) && Bytes(x) && |q| == |x| == dims && SqDist(q, x, 0, dims) == d
  }

  lemma SqOfBytes(a: int, b: int)
    requires 0 <= a <= 255 && 0 <= b <= 255
    ensures Sq(a - b) <= 65025
  {
    SqIsMonotone(a - b, 255);
  }

  lemma SqIsMonotone(z: int, bound: int)
    requires -bound <= z <= bound
    ensures Sq(z) <= bound * bound
  {
    if z >= 0 {
      assert z * z <= z * bound <= bound * bound;
    } else {
      assert (-z) * (-z) <= (-z) * bound <= bound * bound;
    }
  }

  /** Shifting both vectors by the same amount shifts the range. */
  lemma {:induction false} SqDistOfSlices(q: seq<int>, x: seq<int>, at: nat, len: nat)
    requires at + len <= |q| && |x| == |q|
    ensures SqDist(q[at..at + len], x[at..at + len], 0, len) == SqDist(q, x, at, at + len)
    decreases len
  {
    if len > 0 {
      SqDistOfSlices(q, x, at, len - 1);
      SqDistPrefix(q[at..at + len], x[at..at + len], len - 1, q[at..at + len - 1], x[at..at + len - 1]);
    }
  }

  lemma {:induction false} SqDistPrefix(q: seq<int>, x: seq<int>, len: nat, q': seq<int>, x': seq<int>)
    requires len <= |q| && |x| == |q| && q' == q[..len] && x' == x[..len]
    ensures SqDist(q, x, 0, len) == SqDist(q', x', 0, len)
  {
    SqDistCongruent(q, x, q', x', len);
  }

  lemma {:induction false} SqDistCongruent(q: seq<int>, x: seq<int>, q': seq<int>, x': seq<int>, len: nat)
    requires len <= |q| && |x| == |q| && len <= |q'| && |x'| == |q'|
    requires q[..len] == q'[..len] && x[..len] == x'[..len]
    ensures SqDist(q, x, 0, len) == SqDist(q', x', 0, len)
  {
    if len > 0 {
      assert q[..len - 1] == q[..len][..len - 1] && q'[..len - 1] == q'[..len][..len - 1];
      assert x[..len - 1] == x[..len][..len - 1] && x'[..len - 1] == x'[..len][..len - 1];
      SqDistCongruent(q, x, q', x', len - 1);
      assert q[len - 1] == q[..len][len - 1] == q'[..len][len - 1];
      assert x[len - 1] == x[..len][len - 1] == x'[..len][len - 1];
    }
  }
}
