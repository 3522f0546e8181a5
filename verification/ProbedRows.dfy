/** The rows of the clusters a search probes, counted over the stored clusters and the access order, and
    what a result has to do with them. */
module ProbedRows {
  import opened Common
  import opened Distances
  import opened KnnHeap
  import opened Multisets
  import opened Rounding
  import opened Layout
  import opened Kernels
  import opened SearchMachine
  import opened Interleaving
  import opened PruneSteps
  import opened GlobalStart
  import opened Searcher

  /** The rows of a stored cluster: all of them, or with a filter those among `passing`. */
  function RowsOf(st: StoredCluster, filtered: bool, passing: seq<nat>): set<nat> {
    set p: nat | p < |st.ids| && (!filtered || st.ids[p] in passing)
  }

  /** How many rows the clusters at these places hold. */
  function RowsAt(clusters: seq<StoredCluster>, places: seq<nat>, filtered: bool, passing: seq<nat>): nat
    requires forall i :: 0 <= i < |places| ==> places[i] < |clusters|
  {
    if places == [] then 0
    else |RowsOf(clusters[places[0]], filtered, passing)| + RowsAt(clusters, places[1..], filtered, passing)
  }

  lemma {:induction false} SelectedAreRows(c: Cluster, st: StoredCluster, filtered: bool, passing: seq<nat>, n: nat)
    requires |c.sel| == |st.ids| && n <= |st.ids|
    requires forall p :: 0 <= p < |st.ids| ==> (c.sel[p] <==> !filtered || st.ids[p] in passing)
    ensures |SelectedBelow(c, n)| == |set p: nat | p < n && (!filtered || st.ids[p] in passing)|
    decreases n
  {
    var all := set p: nat | p < n && (!filtered || st.ids[p] in passing);
    if n > 0 {
      SelectedAreRows(c, st, filtered, passing, n - 1);
      var fewer := set p: nat | p < n - 1 && (!filtered || st.ids[p] in passing);
      assert all == if c.sel[n - 1] then fewer + {n - 1} else fewer;
    }
  }

  lemma ProbedCount(ctx: Context, st: StoredCluster, filtered: bool, passing: seq<nat>, c: Cluster)
    requires ValidStored(ctx, st) && IsProbed(ctx, st, filtered, passing, c) && Fits(ctx, c)
    ensures |Candidates(ctx, c, Selected(c))| == |RowsOf(st, filtered, passing)|
  {
    SelectedAreRows(c, st, filtered, passing, |st.ids|);
    CandidatesCount(ctx, c, Selected(c));
  }

  lemma FirstPlace(clusters: seq<StoredCluster>, order: seq<nat>, filtered: bool, passing: seq<nat>, first: nat,
                   end: nat)
    requires (forall j :: 0 <= j < |order| ==> order[j] < |clusters|) && first < end <= |order|
    ensures RowsAt(clusters, order[first..end], filtered, passing)
            == |RowsOf(clusters[order[first]], filtered, passing)|
               + RowsAt(clusters, order[first + 1..end], filtered, passing)
  {
    assert order[first..end][1..] == order[first + 1..end];
  }

  /** The candidates of a queue of probed clusters are as many as the rows of those clusters. */
  lemma {:induction false} QueueCount(ctx: Context, clusters: seq<StoredCluster>, order: seq<nat>, filtered: bool,
                                      passing: seq<nat>, first: nat, end: nat)
    requires ValidClusters(ctx, clusters) && IsAccessOrder(order, |clusters|) && first <= end <= |order|
    ensures |QueueCandidates(ctx, ToProbe(ctx, clusters, order, filtered, passing, first, end))|
            == RowsAt(clusters, order[first..end], filtered, passing)
    decreases end - first
  {
    if first < end {
      QueueCount(ctx, clusters, order, filtered, passing, first + 1, end);
      var queue := ToProbe(ctx, clusters, order, filtered, passing, first, end);
      var c := ClusterAt(ctx, clusters, order, filtered, passing, first);
      assert queue[0] == c && queue[1..] == ToProbe(ctx, clusters, order, filtered, passing, first + 1, end);
      ProbedCount(ctx, clusters[order[first]], filtered, passing, c);
      FirstPlace(clusters, order, filtered, passing, first, end);
    }
  }

  // ---------------------------------------------------------------- every order

  lemma {:induction false} TakeOut(clusters: seq<StoredCluster>, places: seq<nat>, filtered: bool, passing: seq<nat>,
                                   i: nat)
    requires (forall j :: 0 <= j < |places| ==> places[j] < |clusters|) && i < |places|
    ensures RowsAt(clusters, places, filtered, passing)
            == |RowsOf(clusters[places[i]], filtered, passing)|
               + RowsAt(clusters, places[..i] + places[i + 1..], filtered, passing)
    decreases i
  {
    if i == 0 {
      assert places[..0] + places[1..] == places[1..];
    } else {
      TakeOut(clusters, places[1..], filtered, passing, i - 1);
      assert (places[..i] + places[i + 1..])[1..] == places[1..][..i - 1] + places[1..][i..];
    }
  }

  /** The same places in any order hold as many rows. */
  lemma {:induction false} SamePlaces(clusters: seq<StoredCluster>, a: seq<nat>, b: seq<nat>, filtered: bool,
                                      passing: seq<nat>)
    requires forall j :: 0 <= j < |a| ==> a[j] < |clusters|
    requires forall j :: 0 <= j < |b| ==> b[j] < |clusters|
    requires multiset(a) == multiset(b)
    ensures RowsAt(clusters, a, filtered, passing) == RowsAt(clusters, b, filtered, passing)
    decreases |a|
  {
    if a == [] {
      assert |multiset(b)| == 0;
    } else {
      var i := PlaceOf(a, b);
      SamePlaces(clusters, a[1..], b[..i] + b[i + 1..], filtered, passing);
      TakeOut(clusters, b, filtered, passing, i);
    }
  }

  /** Where the first element of `a` is in `b`, and that the others are the same. */
  lemma PlaceOf(a: seq<nat>, b: seq<nat>) returns (i: nat)
    requires a != [] && multiset(a) == multiset(b)
    ensures i < |b| && b[i] == a[0] && multiset(a[1..]) == multiset(b[..i] + b[i + 1..])
  {
    assert a[0] in multiset(b);
    i :| 0 <= i < |b| && b[i] == a[0];
    Without(b, i);
    Without(a, 0);
    assert a[..0] + a[1..] == a[1..];
    Cancel(multiset(a[1..]), multiset(b[..i] + b[i + 1..]), multiset{a[0]});
  }

  lemma OrderIsIota(order: seq<nat>, n: nat)
    requires IsAccessOrder(order, n)
    ensures multiset(order) == multiset(Iota(n))
  {
    forall x: nat ensures multiset(order)[x] == multiset(Iota(n))[x] {
      IotaCounts(n, x);
      if x < n {
        assert x in order;
        OnceInOrder(order, n, x);
      } else {
        assert x !in order;
      }
    }
  }

  lemma OnceInOrder(order: seq<nat>, n: nat, x: nat)
    requires IsAccessOrder(order, n) && x in order
    ensures multiset(order)[x] == 1
  {
    var i :| 0 <= i < |order| && order[i] == x;
    forall j | 0 <= j < |order| && j != i ensures order[j] != x {
      assert if i < j then order[i] != order[j] else order[j] != order[i];
    }
    OnlyOnce(order, i);
  }

  /** All clusters of an access order hold all rows of the index. */
  lemma AllRows(clusters: seq<StoredCluster>, order: seq<nat>, filtered: bool, passing: seq<nat>)
    requires IsAccessOrder(order, |clusters|)
    ensures RowsAt(clusters, order, filtered, passing) == RowsAt(clusters, Iota(|clusters|), filtered, passing)
  {
    OrderIsIota(order, |clusters|);
    SamePlaces(clusters, order, Iota(|clusters|), filtered, passing);
  }

  // ---------------------------------------------------------------- the rows of a result

  /** Row `p` of a stored cluster as a candidate: its id, and the distance of its stored vector in the
      units of the heap. */
  predicate IsStoredRow(ctx: Context, st: StoredCluster, p: nat, x: Candidate)
    requires ValidStored(ctx, st)
  {
    && p < |st.ids| && x.index == st.ids[p]
    && var d := SqDist(ctx.query, Row(ShapeOf(ctx, st), st.data, p), 0, ctx.D);
       x.distance == if ctx.quant.F32? then d as real * ctx.inverseScaleSquared
                     else FloatProduct(Rounded(d as real), ctx.inverseScaleSquared)
  }

  /** `x` is a row, passing if there is a filter, of the cluster at one of these places. */
  ghost predicate IsRowOf(ctx: Context, clusters: seq<StoredCluster>, places: seq<nat>, filtered: bool,
                          passing: seq<nat>, x: Candidate)
    requires ValidClusters(ctx, clusters) && forall i :: 0 <= i < |places| ==> places[i] < |clusters|
  {
    exists i, p :: 0 <= i < |places| && IsStoredRow(ctx, clusters[places[i]], p, x)
                   && (filtered ==> x.index in passing)
  }

  lemma SelectedIsRow(ctx: Context, st: StoredCluster, filtered: bool, passing: seq<nat>, c: Cluster, x: Candidate)
      returns (p: nat)
    requires ValidStored(ctx, st) && IsProbed(ctx, st, filtered, passing, c) && Fits(ctx, c)
    requires x in Candidates(ctx, c, Selected(c))
    ensures IsStoredRow(ctx, st, p, x) && (filtered ==> x.index in passing)
  {
    var i := CandidateIn(ctx, c, Selected(c), x);
    p := Selected(c)[i];
    StoredRowOf(ctx, st, filtered, passing, c, p);
  }

  lemma StoredRowOf(ctx: Context, st: StoredCluster, filtered: bool, passing: seq<nat>, c: Cluster, p: nat)
    requires ValidStored(ctx, st) && IsProbed(ctx, st, filtered, passing, c) && Fits(ctx, c) && p < |c.vecs|
    ensures IsStoredRow(ctx, st, p, CandidateAt(ctx, c, p))
  {
    assert c.vecs[p] == Row(ShapeOf(ctx, st), st.data, p);
  }

  /** Every candidate of the probed clusters is a row of theirs. */
  lemma QueueRow(ctx: Context, clusters: seq<StoredCluster>, order: seq<nat>, filtered: bool,
                 passing: seq<nat>, end: nat, x: Candidate)
    requires ValidClusters(ctx, clusters) && IsAccessOrder(order, |clusters|) && end <= |order|
    requires x in QueueCandidates(ctx, ToProbe(ctx, clusters, order, filtered, passing, 0, end))
    ensures IsRowOf(ctx, clusters, order[..end], filtered, passing, x)
  {
    var queue := ToProbe(ctx, clusters, order, filtered, passing, 0, end);
    ToProbeIs(ctx, clusters, order, filtered, passing, 0, end);
    var j := InSomeCluster(ctx, queue, x);
    assert IsProbed(ctx, clusters[order[0 + j]], filtered, passing, queue[j]);
    var p := SelectedIsRow(ctx, clusters[order[j]], filtered, passing, queue[j], x);
    assert order[..end][j] == order[j];
  }

  // ---------------------------------------------------------------- how many clusters are probed

  /** The number of clusters for a number of probes, of which 0 stands for all. */
  function ClustersToProbe(nProbe: nat, n: nat): (r: nat)
    ensures r <= n
  {
    if nProbe == 0 || nProbe > n then n else nProbe
  }

  /** `k` rows, or all there are, of the clusters at the first `nProbe` places of the access order; of the
      whole index if `nProbe` is 0 or exceeds the number of clusters. */
  ghost predicate AreProbedRows(k: nat, ctx: Context, clusters: seq<StoredCluster>, order: seq<nat>, filtered: bool,
                                passing: seq<nat>, nProbe: nat, result: seq<Candidate>)
    requires ValidClusters(ctx, clusters) && IsAccessOrder(order, |clusters|)
  {
    && (nProbe == 0 || nProbe > |clusters| ==>
          && |result| == Min(k, RowsAt(clusters, Iota(|clusters|), filtered, passing))
          && forall j :: 0 <= j < |result| ==> IsRowOf(ctx, clusters, order, filtered, passing, result[j]))
    && (0 < nProbe <= |clusters| ==>
          && |result| == Min(k, RowsAt(clusters, order[..nProbe], filtered, passing))
          && forall j :: 0 <= j < |result| ==> IsRowOf(ctx, clusters, order[..nProbe], filtered, passing, result[j]))
  }

  lemma FirstPlaces(k: nat, ctx: Context, clusters: seq<StoredCluster>, order: seq<nat>, filtered: bool,
                    passing: seq<nat>, nProbe: nat, result: seq<Candidate>)
    requires ValidClusters(ctx, clusters) && IsAccessOrder(order, |clusters|)
    requires var places := order[..ClustersToProbe(nProbe, |clusters|)];
             && |result| == Min(k, RowsAt(clusters, places, filtered, passing))
             && forall j :: 0 <= j < |result| ==> IsRowOf(ctx, clusters, places, filtered, passing, result[j])
    ensures AreProbedRows(k, ctx, clusters, order, filtered, passing, nProbe, result)
  {
    AllRows(clusters, order, filtered, passing);
    assert order[..|order|] == order;
  }

  /** One more place at the end. */
  lemma OneMorePlace(clusters: seq<StoredCluster>, order: seq<nat>, filtered: bool, passing: seq<nat>, n: nat)
    requires (forall j :: 0 <= j < |order| ==> order[j] < |clusters|) && n < |order|
    ensures RowsAt(clusters, order[..n + 1], filtered, passing)
            == RowsAt(clusters, order[..n], filtered, passing) + |RowsOf(clusters[order[n]], filtered, passing)|
  {
    var places := order[..n + 1];
    TakeOut(clusters, places, filtered, passing, n);
    assert places[..n] + places[n + 1..] == order[..n];
  }
}
