/** The shared max-heap of candidates: `std::priority_queue` specified as a multiset whose top is
    any element of greatest distance, so that every way of breaking ties is covered. */
module KnnHeap {
  import opened Common

  datatype Candidate = Candidate(index: nat, distance: real)

  /** The rows of a list of candidates. */
  function RowIds(xs: seq<Candidate>): (rows: seq<nat>)
    ensures |rows| == |xs| && forall i :: 0 <= i < |xs| ==> rows[i] == xs[i].index
  {
    seq(|xs|, i requires 0 <= i < |xs| => xs[i].index)
  }

  /** The element every shared heap starts with; it is never part of a result. */
  const SENTINEL: Candidate := Candidate(1337, FLT_MAX)

  type Heap = multiset<Candidate>

  predicate IsTop(h: Heap, x: Candidate) {
    x in h && forall y | y in h :: y.distance <= x.distance
  }

  lemma {:induction false} TopExists(h: Heap)
    requires |h| > 0
    ensures exists x :: IsTop(h, x)
    decreases |h|
  {
    var x :| x in h;
    var rest := h - multiset{x};
    if |rest| == 0 {
      assert forall y | y in h :: y == x || y in rest;
      assert IsTop(h, x);
    } else {
      TopExists(rest);
      var t :| IsTop(rest, t);
      assert forall y | y in h :: y == x || y in rest;
      assert IsTop(h, if t.distance >= x.distance then t else x);
    }
  }

  /** The distance at the top of a non-empty heap. */
  ghost function TopDistance(h: Heap): (r: real)
    requires |h| > 0
    ensures exists x :: IsTop(h, x) && x.distance == r
    ensures forall y | y in h :: y.distance <= r
  {
    TopExists(h);
    var x :| IsTop(h, x);
    x.distance
  }

  lemma TopIsUnique(h: Heap, x: Candidate)
    requires IsTop(h, x)
    ensures |h| > 0 && TopDistance(h) == x.distance
  {
    assert h[x] > 0;
  }

  /** What one round of the merge loop may do with candidate `c` on a heap bounded by `k`: the new
      heap, and what is not in it any more (or was never let in). */
  ghost predicate Absorbed(k: nat, h: Heap, c: Candidate, h': Heap, out: Heap) {
    if |h| < k then
      h' == h + multiset{c} && out == multiset{}
    else if |h| > 0 && c.distance < TopDistance(h) then
      exists x :: IsTop(h, x) && h' == h - multiset{x} + multiset{c} && out == multiset{x}
    else
      h' == h && out == multiset{c}
  }

  lemma AbsorbedExists(k: nat, h: Heap, c: Candidate) returns (h': Heap, out: Heap)
    ensures Absorbed(k, h, c, h', out)
  {
    if |h| < k {
      h', out := h + multiset{c}, multiset{};
    } else if |h| > 0 && c.distance < TopDistance(h) {
      var x :| IsTop(h, x) && x.distance == TopDistance(h);
      h', out := h - multiset{x} + multiset{c}, multiset{x};
    } else {
      h', out := h, multiset{c};
    }
  }

  /** A candidate is let in exactly if there is room or it is nearer than some element; with no room a
      farthest element makes way for it. */
  lemma AbsorbedExactly(k: nat, h: Heap, c: Candidate, h': Heap, out: Heap)
    requires Absorbed(k, h, c, h', out)
    ensures |h| < k ==> h' == h + multiset{c} && out == multiset{}
    ensures |h| >= k && (forall y | y in h :: y.distance <= c.distance) ==> h' == h && out == multiset{c}
    ensures |h| >= k && (exists y :: y in h && c.distance < y.distance) ==>
              exists x :: x in h && (forall y | y in h :: y.distance <= x.distance)
                          && out == multiset{x} && h' + multiset{x} == h + multiset{c}
  {
    if |h| >= k && |h| > 0 {
      if c.distance < TopDistance(h) {
        var x :| IsTop(h, x) && h' == h - multiset{x} + multiset{c} && out == multiset{x};
        assert h' + multiset{x} == h + multiset{c};
      }
    }
  }

  /** The account a heap of at most `k` elements keeps of what is `lost` to it: nothing is lost as
      long as the initialization element is in the heap, and when it leaves the heap is full. */
  ghost predicate Accounted(k: nat, h: Heap, lost: Heap) {
    && 1 <= |h| <= k
    && h[SENTINEL] <= 1
    && (lost == multiset{} <==> SENTINEL in h)
    && (SENTINEL !in h ==> |h| == k)
    && (forall x | x in h && x != SENTINEL :: x.distance < FLT_MAX)
  }

  /** Every lost candidate lies at or above the top, and so above every kept one, up to `slack`. */
  ghost predicate Ordered(h: Heap, lost: Heap, slack: real)
    requires |h| > 0
  {
    forall x | x in lost :: TopDistance(h) <= x.distance + slack
  }

  lemma AbsorbedConserves(k: nat, h: Heap, c: Candidate, h': Heap, out: Heap)
    requires Absorbed(k, h, c, h', out)
    ensures h + multiset{c} == h' + out
  {
  }

  /** One absorbed candidate: nothing vanishes, the top never rises, the account is kept. */
  lemma AbsorbedKeepsAccount(k: nat, h: Heap, lost: Heap, c: Candidate, h': Heap, out: Heap)
    requires Accounted(k, h, lost) && Absorbed(k, h, c, h', out) && c.distance < FLT_MAX
    ensures h + multiset{c} == h' + out
    ensures Accounted(k, h', lost + out)
    ensures TopDistance(h') <= TopDistance(h)
  {
    if |h| < k {
      AddedKeepsAccount(k, h, lost, c);
      assert lost + out == lost;
    } else if c.distance < TopDistance(h) {
      var x :| IsTop(h, x) && h' == h - multiset{x} + multiset{c} && out == multiset{x};
      ReplacedKeepsAccount(k, h, lost, c, x);
    } else {
      TurnedDownKeepsAccount(k, h, lost, c);
    }
  }

  lemma AddedKeepsAccount(k: nat, h: Heap, lost: Heap, c: Candidate)
    requires Accounted(k, h, lost) && |h| < k && c.distance < FLT_MAX
    ensures var h' := h + multiset{c}; Accounted(k, h', lost) && TopDistance(h') <= TopDistance(h)
  {
    var h' := h + multiset{c};
    assert SENTINEL in h && SENTINEL in h';
    SentinelIsTop(k, h, lost);
    SentinelIsTop(k, h', lost);
  }

  lemma SentinelIsTop(k: nat, h: Heap, lost: Heap)
    requires Accounted(k, h, lost) && SENTINEL in h
    ensures IsTop(h, SENTINEL) && TopDistance(h) == FLT_MAX
  {
    TopIsUnique(h, SENTINEL);
  }

  lemma ReplacedKeepsAccount(k: nat, h: Heap, lost: Heap, c: Candidate, x: Candidate)
    requires Accounted(k, h, lost) && |h| == k && IsTop(h, x) && c.distance < TopDistance(h) && c.distance < FLT_MAX
    ensures var h' := h - multiset{x} + multiset{c};
            && h + multiset{c} == h' + multiset{x} && Accounted(k, h', lost + multiset{x})
            && TopDistance(h') <= TopDistance(h)
  {
    var h' := h - multiset{x} + multiset{c};
    TopIsUnique(h, x);
    if SENTINEL in h {
      SentinelIsTop(k, h, lost);
      assert x == SENTINEL;
    }
    assert |h'| == k && SENTINEL !in h';
    assert forall y | y in h' :: y in h || y == c;
  }

  lemma TurnedDownKeepsAccount(k: nat, h: Heap, lost: Heap, c: Candidate)
    requires Accounted(k, h, lost) && |h| == k && c.distance >= TopDistance(h) && c.distance < FLT_MAX
    ensures Accounted(k, h, lost + multiset{c})
  {
    if SENTINEL in h {
      SentinelIsTop(k, h, lost);
      assert false;
    }
  }

  /** One absorbed candidate keeps the order: whatever leaves lies at or above the new top. */
  lemma AbsorbedKeepsOrder(k: nat, h: Heap, lost: Heap, c: Candidate, h': Heap, out: Heap, slack: real)
    requires Accounted(k, h, lost) && Absorbed(k, h, c, h', out) && c.distance < FLT_MAX
    requires Ordered(h, lost, slack) && slack >= 0.0
    ensures |h'| > 0 && Ordered(h', lost + out, slack)
  {
    AbsorbedKeepsAccount(k, h, lost, c, h', out);
    forall x | x in out ensures TopDistance(h) <= x.distance {
      if x != c {
        TopIsUnique(h, x);
      }
    }
  }
}
