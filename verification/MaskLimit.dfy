/** The limit of the mask of the filtered full scan: whether it keeps unselected vectors out of the
    first places depends on the selected distances. */
module MaskLimit {
  import opened Common
  import opened KnnHeap
  import opened Kernels
  import opened SearchMachine
  import opened PartialSorting
  import opened GlobalStart

  /** The distances of the selected vectors, the mask at the others. */
  ghost predicate AreMasked(ctx: Context, c: Cluster, distances: seq<int>)
    requires Fits(ctx, c)
  {
    && |distances| == |c.vecs|
    && forall p :: 0 <= p < |c.vecs| ==> distances[p] == if c.sel[p] then Full(ctx, c.vecs[p]) else MaskValue(ctx)
  }

  /** Every way of sorting puts the selected vectors, and nothing else, into the first places. */
  ghost predicate SelectedFirst(c: Cluster, distances: seq<int>) {
    forall order, rest | IsPartialSort(distances, |Selected(c)|, order, rest) ::
      OnlySelectedAt(c, order)
  }

  ghost predicate OnlySelectedAt(c: Cluster, order: seq<nat>) {
    forall i :: 0 <= i < |order| ==> order[i] < |c.sel| && c.sel[order[i]]
  }

  lemma {:induction false} MinimumExists(keys: seq<int>, rest: seq<nat>) returns (at: nat)
    requires rest != [] && Within(rest, |keys|)
    ensures at < |rest| && forall j :: 0 <= j < |rest| ==> keys[rest[at]] <= keys[rest[j]]
    decreases |rest|
  {
    var n := |rest| - 1;
    at := n;
    if n > 0 {
      var before := MinimumExists(keys, rest[..n]);
      assert forall j :: 0 <= j < n ==> rest[..n][j] == rest[j];
      if keys[rest[before]] < keys[rest[n]] {
        at := before;
      }
    }
  }

  lemma {:induction false} PartialSortExists(keys: seq<int>, m: nat) returns (order: seq<nat>, rest: seq<nat>)
    requires m <= |keys|
    ensures IsPartialSort(keys, m, order, rest)
  {
    if m == 0 {
      order, rest := [], Iota(|keys|);
    } else {
      var order', rest' := PartialSortExists(keys, m - 1);
      LengthsAdd(order', rest', |keys|);
      var at := MinimumExists(keys, rest');
      OneMore(keys, order', rest', at);
      order, rest := order' + [rest'[at]], rest'[..at] + rest'[at + 1..];
    }
  }

  /** Keys in the same order, with unselected vectors ahead of selected ones of the same key. */
  function Favouring(c: Cluster, distances: seq<int>): (keys: seq<int>)
    requires |distances| == |c.sel|
    ensures |keys| == |distances|
    ensures forall p :: 0 <= p < |keys| ==> keys[p] == 2 * distances[p] + (if c.sel[p] then 1 else 0)
  {
    seq(|distances|, p requires 0 <= p < |distances| => 2 * distances[p] + (if c.sel[p] then 1 else 0))
  }

  lemma SortsBoth(c: Cluster, distances: seq<int>, m: nat, order: seq<nat>, rest: seq<nat>)
    requires |distances| == |c.sel| && IsPartialSort(Favouring(c, distances), m, order, rest)
    ensures IsPartialSort(distances, m, order, rest)
  {
  }

  lemma InOrderOrRest(order: seq<nat>, rest: seq<nat>, n: nat, p: nat)
    requires multiset(order) + multiset(rest) == multiset(Iota(n)) && p < n
    ensures p in order || p in rest
  {
    assert Iota(n)[p] == p;
    assert p in multiset(Iota(n));
  }

  /** If only selected vectors are in the first |Selected| places, all of them are. */
  lemma SelectedAreAll(c: Cluster, n: nat, order: seq<nat>, rest: seq<nat>, p: nat)
    requires n == |c.sel| && |order| == |Selected(c)| && Within(rest, n) && OnlySelectedAt(c, order)
    requires multiset(order) + multiset(rest) == multiset(Iota(n)) && p < n && c.sel[p]
    ensures p in order
  {
    AllAreSelected(c, order);
    SelectedAreSplit(c, order, rest);
    SameLength(order, OnlySelected(c, rest), Selected(c));
    InOrderOrRest(order, rest, n, p);
    if p !in order {
      var i :| 0 <= i < |rest| && rest[i] == p;
      StillSelected(c, rest, i);
    }
  }

  lemma {:induction false} StillSelected(c: Cluster, positions: seq<nat>, i: nat)
    requires Within(positions, |c.sel|) && i < |positions| && c.sel[positions[i]]
    ensures |OnlySelected(c, positions)| > 0
    decreases |positions|
  {
    var n := |positions| - 1;
    if i < n {
      StillSelected(c, positions[..n], i);
    }
  }

  lemma OvertakenLoses(ctx: Context, c: Cluster, distances: seq<int>, p: nat, q: nat)
    requires Fits(ctx, c) && AreMasked(ctx, c, distances) && Overtaken(ctx, c, p, q)
    ensures !SelectedFirst(c, distances)
  {
    var m := |Selected(c)|;
    var keys := Favouring(c, distances);
    SelectedAtMost(c);
    var order, rest := PartialSortExists(keys, m);
    SortsBoth(c, distances, m, order, rest);
    if OnlySelectedAt(c, order) {
      SelectedAreAll(c, |keys|, order, rest, p);
      InOrderOrRest(order, rest, |keys|, q);
      assert false;
    }
  }

  /** The mask keeps unselected vectors out of the first places, however ties are broken, exactly if
      there are none or every selected distance is below the mask. */
  lemma MaskDecides(ctx: Context, c: Cluster, distances: seq<int>)
    requires Fits(ctx, c) && AreMasked(ctx, c, distances)
    ensures SelectedFirst(c, distances) <==> forall p: nat, q: nat :: !Overtaken(ctx, c, p, q)
  {
    if p: nat, q: nat :| Overtaken(ctx, c, p, q) {
      OvertakenLoses(ctx, c, distances, p, q);
    } else {
      forall p, q | 0 <= p < |c.vecs| && 0 <= q < |c.vecs| && c.sel[p] && !c.sel[q]
        ensures distances[p] < distances[q]
      {
        assert !Overtaken(ctx, c, p, q);
      }
      forall order, rest | IsPartialSort(distances, |Selected(c)|, order, rest) ensures OnlySelectedAt(c, order) {
        SelectedComeFirst(ctx, c, distances, |Selected(c)|, order, rest);
      }
    }
  }
}
