/** From the rows of a table of one row group to the rows a filtered query returns: the row group is
    built, a searcher made for it, and the filtered scan run. */
module BuildAndScan {
  import opened Common
  import opened Distances
  import opened KnnHeap
  import opened Layout
  import opened SearchMachine
  import opened Interleaving
  import opened SharedHeaps
  import opened PruneSteps
  import opened RowGroups
  import opened Searcher
  import opened FilteredScan
  import opened FilteredScanState
  import opened FilteredRows
  import opened GlobalSearch
  import opened OneRowGroup
  import opened BuiltRowGroups

  ghost predicate AllHaveHeadroom(ctx: Context, s: Source) {
    forall e :: 0 <= e < |s.embeddings| ==> |s.embeddings[e]| == ctx.D && Headroom(ctx, s.embeddings[e])
  }

  lemma BuiltIsRoomy(ctx: Context, s: Source, clusters: seq<StoredCluster>, metadata: seq<RowIdClusterMapping>, c: nat,
                     sel: seq<bool>)
    requires ValidSource(s) && IsBuilt(ctx, s, clusters, metadata) && AllHaveHeadroom(ctx, s) && c < |clusters|
    requires ValidStored(ctx, clusters[c]) && |sel| == |clusters[c].ids|
    ensures Roomy(ctx, View(ctx, clusters[c], sel))
  {
    var st := clusters[c];
    forall p | 0 <= p < |st.ids| ensures Headroom(ctx, View(ctx, st, sel).vecs[p]) {
      var e := SlotHolds(ctx, s, clusters, metadata, c, sel, p);
    }
  }

  lemma {:induction false} QueueElement(g: Searched, first: nat, end: nat, j: nat)
    requires ValidSearched(g) && first <= end <= |g.clusters| && j < |Queue(g, first, end)|
    ensures first + j < |g.clusters|
    ensures Queue(g, first, end)[j] == ClusterAt(g.ctx, g.clusters, g.order, true, g.passing, first + j)
    decreases end - first
  {
    var c := ClusterAt(g.ctx, g.clusters, g.order, true, g.passing, first);
    assert Queue(g, first, end) == [c] + Queue(g, first + 1, end);
    if j > 0 {
      QueueElement(g, first + 1, end, j - 1);
    }
  }

  lemma PlaceIsRoomy(s: Source, g: Searched, i: nat)
    requires ValidSource(s) && ValidSearched(g) && IsBuilt(g.ctx, s, g.clusters, g.metadata)
    requires AllHaveHeadroom(g.ctx, s) && i < |g.clusters|
    ensures Roomy(g.ctx, ClusterAt(g.ctx, g.clusters, g.order, true, g.passing, i))
  {
    var c := ClusterAt(g.ctx, g.clusters, g.order, true, g.passing, i);
    BuiltIsRoomy(g.ctx, s, g.clusters, g.metadata, g.order[i], c.sel);
  }

  lemma QueueIsValid(s: Source, g: Searched)
    requires ValidSource(s) && ValidSearched(g) && IsBuilt(g.ctx, s, g.clusters, g.metadata)
    requires AllHaveHeadroom(g.ctx, s)
    ensures ValidQueue(g.ctx, Queue(g, 0, |g.clusters|))
  {
    var queue := Queue(g, 0, |g.clusters|);
    forall j | 0 <= j < |queue| ensures Roomy(g.ctx, queue[j]) {
      QueueElement(g, 0, |g.clusters|, j);
      PlaceIsRoomy(s, g, j);
    }
  }

  /** Rows of the source, each at the distance of its embedding, nearest first. */
  ghost predicate AreNearestFirst(ctx: Context, s: Source, result: seq<Candidate>, rows: seq<nat>) {
    && rows == RowIds(result) && SortedByDistance(result)
    && forall j :: 0 <= j < |result| ==> IsSomeRow(ctx, s, result[j])
  }

  lemma ResultIsRow(s: Source, g: Searched, m: nat, result: seq<Candidate>, j: nat) returns (e: nat)
    requires ValidSource(s) && ValidSearched(g) && IsBuilt(g.ctx, s, g.clusters, g.metadata) && j < |result|
    requires m <= |g.clusters| && multiset(result) <= QueueCandidates(g.ctx, Queue(g, 0, m))
    ensures IsRow(g.ctx, s, result[j], e)
  {
    var queue := Queue(g, 0, |g.clusters|);
    QueueListingIsCandidates(g.ctx, queue);
    CandidatesJoin(g, m, |g.clusters|);
    PartIsIn(result, QueueListing(g.ctx, queue), j);
    e := CandidateIsRow(g.ctx, s, g.clusters, g.metadata, g.order, g.passing, result[j]);
  }

  lemma PartIsIn(part: seq<Candidate>, all: seq<Candidate>, j: nat)
    requires multiset(part) <= multiset(all) && j < |part|
    ensures part[j] in all
  {
    assert part[j] in multiset(part);
  }

  ghost predicate IsSomeRow(ctx: Context, s: Source, x: Candidate) {
    exists e :: IsRow(ctx, s, x, e)
  }

  /** A row group built from `s`, searched as `g` says. */
  ghost predicate BuiltAndSearched(s: Source, g: Searched) {
    ValidSource(s) && ValidSearched(g) && IsBuilt(g.ctx, s, g.clusters, g.metadata)
  }

  lemma ResultIsSomeRow(s: Source, g: Searched, m: nat, result: seq<Candidate>, rows: seq<nat>, j: nat)
    ensures BuiltAndSearched(s, g) && m <= |g.clusters| && NearestFirst(g, m, result, rows) && j < |result|
            ==> IsSomeRow(g.ctx, s, result[j])
  {
    if BuiltAndSearched(s, g) && m <= |g.clusters| && NearestFirst(g, m, result, rows) && j < |result| {
      var e := ResultIsRow(s, g, m, result, j);
    }
  }

  lemma RowsOfResult(s: Source, g: Searched, m: nat, result: seq<Candidate>, rows: seq<nat>)
    requires BuiltAndSearched(s, g) && m <= |g.clusters| && NearestFirst(g, m, result, rows)
    ensures AreNearestFirst(g.ctx, s, result, rows)
  {
    forall j | 0 <= j < |result| ensures IsSomeRow(g.ctx, s, result[j]) {
      ResultIsSomeRow(s, g, m, result, rows, j);
    }
  }

  lemma RowsOfSource(k: nat, s: Source, g: Searched, first: nat, iterations: nat, bound: nat, rows: seq<nat>)
    requires ValidSource(s) && ValidSearched(g) && IsBuilt(g.ctx, s, g.clusters, g.metadata)
    ensures IsScanned(k, g, first, iterations, bound, rows)
            ==> (exists result :: AreNearestFirst(g.ctx, s, result, rows))
                && |rows| == Min(k, |g.passing|) && NoRepeats(rows)
                && forall j :: 0 <= j < |rows| ==> rows[j] in g.passing
  {
    if IsScanned(k, g, first, iterations, bound, rows) {
      var m := Min(first + 5 * (iterations - 1), |g.clusters|);
      var result :| NearestFirst(g, m, result, rows);
      RowsOfResult(s, g, m, result, rows);
    }
  }

  /** For every assignment to clusters, access order, number of probes and set of passing rows: exactly
      min(k, n) of the n passing rows, all different, nearest first. */
  method BuildAndScan(ctx: Context, s: Source, order: seq<nat>, passing: seq<nat>, nProbe: nat, k: nat)
      returns (rows: seq<nat>)
    requires ValidSource(s) && s.numClusters >= 1 && DistinctRows(s.rowIds)
    requires IsMatrix(s.embeddings, |s.embeddings|, ctx.D) && HoldsBytes(ctx, s) && AllHaveHeadroom(ctx, s)
    requires IsAccessOrder(order, s.numClusters) && k >= 1
    requires NoRepeats(passing) && forall row :: row in passing ==> row in s.rowIds
    ensures |rows| == Min(k, |passing|) && NoRepeats(rows) && forall j :: 0 <= j < |rows| ==> rows[j] in passing
    ensures exists result :: AreNearestFirst(ctx, s, result, rows)
  {
    var rowGroup := new RowGroup();
    rowGroup.SetUp(s.rowIds, s.embeddings, s.assignment, s.numClusters, ctx.quant, ctx.V, ctx.H);
    var metadata := rowGroup.rowIdMetadata[..];
    var searcher := new PDXearch(rowGroup.clusters, ctx);
    ghost var g := Searched(ctx, searcher.clusters, metadata, order, passing);
    BuiltIsSearchable(ctx, s, searcher.clusters, metadata, order, passing);
    QueueIsValid(s, g);
    var iterations;
    rows, iterations := FilteredScanRowGroup(searcher, ctx, metadata, order, passing, nProbe, k);
    ghost var n := |searcher.clusters|;
    ghost var first := if nProbe == 0 || nProbe > n then n else nProbe;
    RowsOfSource(k, s, g, first, iterations, MaxProbeIterations(0, n), rows);
  }
}
