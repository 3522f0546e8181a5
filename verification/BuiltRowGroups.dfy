/** A row group that has been built is one that can be searched: its passing rows are its candidates,
    at the distances of their embeddings. */
module BuiltRowGroups {
  import opened Common
  import opened Distances
  import opened KnnHeap
  import opened Layout
  import opened SearchMachine
  import opened PruneSteps
  import opened RowGroups
  import opened Searcher
  import opened FilteredRows

  /** What a row group was built from. */
  datatype Source = Source(rowIds: seq<nat>, embeddings: seq<seq<int>>, assignment: seq<nat>, numClusters: nat)

  ghost predicate ValidSource(s: Source) {
    |s.assignment| == |s.rowIds| == |s.embeddings| && ValidAssignment(s.assignment, s.numClusters)
  }

  /** What the set-up leaves, for the dimension split and element type of `ctx`. */
  ghost predicate IsBuilt(ctx: Context, s: Source, clusters: seq<StoredCluster>, metadata: seq<RowIdClusterMapping>)
    requires ValidSource(s)
  {
    && Mapped(s.assignment, s.rowIds, s.numClusters, 0, metadata)
    && AllStored(clusters, s.numClusters, s.rowIds, s.embeddings, s.assignment, ctx.quant, ctx.V, ctx.H)
  }

  /** U8 values and queries are bytes. */
  ghost predicate HoldsBytes(ctx: Context, s: Source) {
    ctx.quant.U8? ==> Bytes(ctx.query) && forall e :: 0 <= e < |s.embeddings| ==> Bytes(s.embeddings[e])
  }

  lemma BytesOfRows(s: Shape, data: seq<int>)
    requires |data| == s.D() * s.n && forall i :: 0 <= i < s.n ==> Bytes(Rows(s, data)[i])
    ensures Bytes(data)
  {
    forall p | 0 <= p < |data| ensures 0 <= data[p] <= 255 {
      SizePositive(s, p);
      PositionIsSurjective(s, p);
      assert data[p] == Rows(s, data)[VectorAt(s, p)][DimensionAt(s, p)];
    }
  }

  lemma MembersAreEmbeddings(s: Source, c: nat)
    requires ValidSource(s)
    ensures forall i :: 0 <= i < |Members(s.assignment, c)| ==> Members(s.assignment, c)[i] < |s.rowIds|
  {
    MembersHaveRanks(s.assignment, |s.assignment|, c);
  }

  /** Every built cluster is stored as the search expects it. */
  lemma BuiltIsStored(ctx: Context, s: Source, clusters: seq<StoredCluster>, metadata: seq<RowIdClusterMapping>, c: nat)
    requires ValidSource(s) && IsBuilt(ctx, s, clusters, metadata) && HoldsBytes(ctx, s) && c < |clusters|
    ensures ValidStored(ctx, clusters[c])
  {
    var st, members := clusters[c], Members(s.assignment, c);
    MembersAreEmbeddings(s, c);
    assert StoredAs(st, s.rowIds, s.embeddings, members, ctx.quant, ctx.V, ctx.H);
    if ctx.quant.U8? {
      BytesOfRows(ShapeOf(ctx, st), st.data);
    }
  }

  /** For any distinct passing rows among those it was built from, a row group can be searched. */
  lemma BuiltIsSearchable(ctx: Context, s: Source, clusters: seq<StoredCluster>, metadata: seq<RowIdClusterMapping>,
                          order: seq<nat>, passing: seq<nat>)
    requires ValidSource(s) && IsBuilt(ctx, s, clusters, metadata) && HoldsBytes(ctx, s)
    requires IsAccessOrder(order, |clusters|) && NoRepeats(passing)
    requires forall row :: row in passing ==> row in s.rowIds
    ensures ValidSearched(Searched(ctx, clusters, metadata, order, passing))
  {
    forall c | 0 <= c < |clusters| ensures ValidStored(ctx, clusters[c]) {
      BuiltIsStored(ctx, s, clusters, metadata, c);
    }
    SetUpMapsBack(clusters, metadata, s.rowIds, s.embeddings, s.assignment, s.numClusters, ctx.quant, ctx.V, ctx.H);
    forall j | 0 <= j < |passing| ensures Indexed(clusters, metadata, passing[j]) {
      assert passing[j] in s.rowIds;
      var e :| 0 <= e < |s.rowIds| && s.rowIds[e] == passing[j];
      assert StoredWhereMapped(clusters, metadata, s.rowIds[e], s.assignment[e], s.embeddings[e], ctx.quant, ctx.V,
                               ctx.H);
    }
  }

  lemma {:induction false} ListedAt(g: Searched, first: nat, end: nat, x: Candidate) returns (i: nat)
    requires ValidSearched(g) && first <= end <= |g.clusters| && x in QueueListing(g.ctx, Queue(g, first, end))
    ensures i < |g.clusters|
    ensures var c := ClusterAt(g.ctx, g.clusters, g.order, true, g.passing, i); x in Listing(g.ctx, c, |c.sel|)
    decreases end - first
  {
    var queue := Queue(g, first, end);
    var c := ClusterAt(g.ctx, g.clusters, g.order, true, g.passing, first);
    assert queue[0] == c && queue[1..] == Queue(g, first + 1, end);
    if x in Listing(g.ctx, c, |c.sel|) {
      i := first;
    } else {
      i := ListedAt(g, first + 1, end, x);
    }
  }

  /** `x` is row `e` of the source, at the distance of its embedding. */
  predicate IsRow(ctx: Context, s: Source, x: Candidate, e: nat) {
    && e < |s.rowIds| == |s.embeddings| && |s.embeddings[e]| == ctx.D
    && x == Candidate(s.rowIds[e], Published(ctx, SqDist(ctx.query, s.embeddings[e], 0, ctx.D)))
  }

  /** The vector at a slot is the embedding of its row. */
  lemma SlotHolds(ctx: Context, s: Source, clusters: seq<StoredCluster>, metadata: seq<RowIdClusterMapping>, c: nat,
                  sel: seq<bool>, p: nat)
      returns (e: nat)
    requires ValidSource(s) && IsBuilt(ctx, s, clusters, metadata) && c < |clusters|
    requires ValidStored(ctx, clusters[c]) && |sel| == |clusters[c].ids| && p < |clusters[c].ids|
    ensures e < |s.rowIds| && clusters[c].ids[p] == s.rowIds[e]
    ensures View(ctx, clusters[c], sel).vecs[p] == s.embeddings[e]
  {
    var st, members := clusters[c], Members(s.assignment, c);
    MembersAreEmbeddings(s, c);
    assert StoredAs(st, s.rowIds, s.embeddings, members, ctx.quant, ctx.V, ctx.H);
    e := members[p];
    assert View(ctx, st, sel).vecs[p] == Rows(ShapeOf(ctx, st), st.data)[p] == s.embeddings[e];
  }

  lemma SlotIsRow(ctx: Context, s: Source, clusters: seq<StoredCluster>, metadata: seq<RowIdClusterMapping>, c: nat,
                  sel: seq<bool>, p: nat)
      returns (e: nat)
    requires ValidSource(s) && IsBuilt(ctx, s, clusters, metadata) && c < |clusters|
    requires ValidStored(ctx, clusters[c]) && |sel| == |clusters[c].ids| && p < |clusters[c].ids|
    ensures IsRow(ctx, s, CandidateAt(ctx, View(ctx, clusters[c], sel), p), e)
  {
    e := SlotHolds(ctx, s, clusters, metadata, c, sel, p);
  }

  /** Every candidate of a built row group is one of its rows, at the distance of its embedding. */
  lemma CandidateIsRow(ctx: Context, s: Source, clusters: seq<StoredCluster>, metadata: seq<RowIdClusterMapping>,
                       order: seq<nat>, passing: seq<nat>, x: Candidate)
      returns (e: nat)
    requires ValidSource(s) && IsBuilt(ctx, s, clusters, metadata)
    requires ValidSearched(Searched(ctx, clusters, metadata, order, passing))
    requires x in QueueListing(ctx, Queue(Searched(ctx, clusters, metadata, order, passing), 0, |clusters|))
    ensures IsRow(ctx, s, x, e)
  {
    var g := Searched(ctx, clusters, metadata, order, passing);
    var i := ListedAt(g, 0, |clusters|, x);
    var c := ClusterAt(ctx, clusters, order, true, passing, i);
    var p := ListedPlace(ctx, c, |c.sel|, x);
    e := SlotIsRow(ctx, s, clusters, metadata, order[i], c.sel, p);
  }

  /** The candidates of a built row group are exactly its passing rows, one each, at the distances of
      their embeddings. */
  lemma BuiltCandidates(ctx: Context, s: Source, clusters: seq<StoredCluster>, metadata: seq<RowIdClusterMapping>,
                        order: seq<nat>, passing: seq<nat>)
    requires ValidSource(s) && IsBuilt(ctx, s, clusters, metadata) && HoldsBytes(ctx, s)
    requires IsAccessOrder(order, |clusters|) && NoRepeats(passing)
    requires forall row :: row in passing ==> row in s.rowIds
    ensures var g := Searched(ctx, clusters, metadata, order, passing);
            && ValidSearched(g)
            && var xs := QueueListing(ctx, Queue(g, 0, |clusters|));
               && DistinctIndices(xs) && |xs| == |passing|
               && forall x :: x in xs ==> x.index in passing && exists e :: IsRow(ctx, s, x, e)
  {
    var g := Searched(ctx, clusters, metadata, order, passing);
    BuiltIsSearchable(ctx, s, clusters, metadata, order, passing);
    RowGroupCandidates(g);
    var xs := QueueListing(ctx, Queue(g, 0, |clusters|));
    forall x | x in xs ensures exists e :: IsRow(ctx, s, x, e) {
      var e := CandidateIsRow(ctx, s, clusters, metadata, order, passing, x);
    }
  }
}
