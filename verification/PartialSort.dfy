/** `std::partial_sort` on positions by their keys, as far as its result is used: the first `m` places. */
module PartialSorting {
  import opened Kernels
  import opened Multisets

  predicate Within(a: seq<nat>, n: nat) {
    forall i :: 0 <= i < |a| ==> a[i] < n
  }

  /** Every key of `a` is at most every key of `b`. */
  predicate KeysBelow(keys: seq<int>, a: seq<nat>, b: seq<nat>)
    requires Within(a, |keys|) && Within(b, |keys|)
  {
    forall i, j :: 0 <= i < |a| && 0 <= j < |b| ==> keys[a[i]] <= keys[b[j]]
  }

  ghost predicate IsPartialSort(keys: seq<int>, m: nat, order: seq<nat>, rest: seq<nat>) {
    && |order| == m && multiset(order) + multiset(rest) == multiset(Iota(|keys|))
    && Within(order, |keys|) && Within(rest, |keys|)
    && (forall i, j :: 0 <= i < j < |order| ==> keys[order[i]] <= keys[order[j]])
    && KeysBelow(keys, order, rest)
  }

  method PositionOfMinimum(keys: seq<int>, rest: seq<nat>) returns (at: nat)
    requires rest != [] && Within(rest, |keys|)
    ensures at < |rest| && forall j :: 0 <= j < |rest| ==> keys[rest[at]] <= keys[rest[j]]
  {
    at := 0;
    var i := 1;
    while i < |rest|
      invariant at < i <= |rest| && forall j :: 0 <= j < i ==> keys[rest[at]] <= keys[rest[j]]
    {
      if keys[rest[i]] < keys[rest[at]] {
        at := i;
      }
      i := i + 1;
    }
  }

  lemma OneMore(keys: seq<int>, order: seq<nat>, rest: seq<nat>, at: nat)
    requires IsPartialSort(keys, |order|, order, rest) && at < |rest|
    requires forall j :: 0 <= j < |rest| ==> keys[rest[at]] <= keys[rest[j]]
    ensures IsPartialSort(keys, |order| + 1, order + [rest[at]], rest[..at] + rest[at + 1..])
  {
    var x, left := rest[at], rest[..at] + rest[at + 1..];
    Without(rest, at);
    assert multiset(order + [x]) == multiset(order) + multiset{x};
    assert forall j :: 0 <= j < |left| ==> left[j] == rest[if j < at then j else j + 1];
  }

  method PartialSort(keys: seq<int>, m: nat) returns (order: seq<nat>, rest: seq<nat>)
    requires m <= |keys|
    ensures IsPartialSort(keys, m, order, rest)
  {
    order := [];
    var left := Iota(|keys|);
    while |order| < m
      invariant |order| <= m && IsPartialSort(keys, |order|, order, left)
    {
      LengthsAdd(order, left, |keys|);
      var at := PositionOfMinimum(keys, left);
      OneMore(keys, order, left, at);
      order, left := order + [left[at]], left[..at] + left[at + 1..];
    }
    rest := left;
  }

  lemma LengthsAdd(order: seq<nat>, rest: seq<nat>, n: nat)
    requires multiset(order) + multiset(rest) == multiset(Iota(n))
    ensures |order| + |rest| == n
  {
    assert |multiset(order) + multiset(rest)| == |order| + |rest|;
  }
}
