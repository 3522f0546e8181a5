/** The order in which the clusters of an index are probed: by the distances of their centroids, sorted
    as far as clusters are to be probed. */
module AccessOrder {
  import opened Common
  import opened Distances
  import opened Kernels
  import opened Layout
  import opened PartialSorting
  import opened Searcher
  import opened Recall

  /** The distances of the centroids, in the unit of Distances. */
  function CentroidDistances(query: seq<int>, centroids: seq<seq<int>>): (ds: seq<real>)
    requires IsMatrix(centroids, |centroids|, |query|)
    ensures |ds| == |centroids|
  {
    seq(|centroids|, c requires 0 <= c < |centroids| => SqDist(query, centroids[c], 0, |query|) as real)
  }

  lemma ConcatIsAccessOrder(order: seq<nat>, rest: seq<nat>, n: nat)
    requires multiset(order) + multiset(rest) == multiset(Iota(n))
    ensures IsAccessOrder(order + rest, n)
  {
    var all := order + rest;
    assert multiset(all) == multiset(order) + multiset(rest);
    LengthsAdd(order, rest, n);
    PermutationOfIota(all, n);
  }

  lemma PermutationOfIota(all: seq<nat>, n: nat)
    requires multiset(all) == multiset(Iota(n)) && |all| == n
    ensures IsAccessOrder(all, n)
  {
    forall i | 0 <= i < n ensures all[i] < n {
      assert all[i] in multiset(Iota(n));
    }
    forall i, j | 0 <= i < j < n ensures all[i] != all[j] {
      if all[i] == all[j] {
        TwiceIn(all, i, j);
        OnceInIota(n, all[i]);
        assert false;
      }
    }
    forall c: nat | c < n ensures c in all {
      assert Iota(n)[c] == c;
      assert c in multiset(all);
    }
  }

  lemma TwiceIn(s: seq<nat>, i: nat, j: nat)
    requires i < j < |s| && s[i] == s[j]
    ensures multiset(s)[s[i]] >= 2
  {
    assert s == s[..j] + [s[j]] + s[j + 1..];
    assert s[..j][i] == s[i];
  }

  lemma {:induction false} OnceInIota(n: nat, x: nat)
    ensures multiset(Iota(n))[x] <= 1
  {
    if n > 0 {
      assert Iota(n) == Iota(n - 1) + [n - 1];
      OnceInIota(n - 1, x);
      assert x == n - 1 ==> x !in Iota(n - 1);
    }
  }

  /** `GetClustersAccessOrderIVF`. */
  method GetClustersAccessOrder(query: seq<int>, centroids: seq<seq<int>>, nProbe: nat) returns (order: seq<nat>)
    requires IsMatrix(centroids, |centroids|, |query|)
    ensures IsAccessOrder(order, |centroids|)
    ensures SortedUpTo(order, CentroidDistances(query, centroids), nProbe)
    ensures forall i, j :: 0 <= i < j < |order| && i < nProbe ==>
              SqDist(query, centroids[order[i]], 0, |query|) <= SqDist(query, centroids[order[j]], 0, |query|)
  {
    var keys: seq<int> := [];
    while |keys| < |centroids|
      invariant |keys| <= |centroids|
      invariant forall c :: 0 <= c < |keys| ==> keys[c] == SqDist(query, centroids[c], 0, |query|)
    {
      var d := Horizontal(F32, query, centroids[|keys|]);
      keys := keys + [d];
    }
    var first, rest := PartialSort(keys, Min(nProbe, |keys|));
    ConcatIsAccessOrder(first, rest, |keys|);
    order := first + rest;
    SortedSoFar(keys, CentroidDistances(query, centroids), first, rest, nProbe);
    KeysInOrder(keys, first, rest, nProbe);
  }

  lemma KeysInOrder(keys: seq<int>, first: seq<nat>, rest: seq<nat>, nProbe: nat)
    requires IsPartialSort(keys, Min(nProbe, |keys|), first, rest) && IsAccessOrder(first + rest, |keys|)
    ensures forall i, j :: 0 <= i < j < |keys| && i < nProbe ==>
              keys[(first + rest)[i]] <= keys[(first + rest)[j]]
  {
  }

  lemma SortedSoFar(keys: seq<int>, ds: seq<real>, first: seq<nat>, rest: seq<nat>, nProbe: nat)
    requires IsPartialSort(keys, Min(nProbe, |keys|), first, rest) && IsAccessOrder(first + rest, |keys|)
    requires |ds| == |keys| && forall c :: 0 <= c < |keys| ==> ds[c] == keys[c] as real
    ensures SortedUpTo(first + rest, ds, nProbe)
  {
  }
}
