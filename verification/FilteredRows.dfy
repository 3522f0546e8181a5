/** The rows the filtered scan returns, end to end: from the predicate's passing rows, through the
    row groups' selection vectors, to the emitted row ids. */
module FilteredRows {
  import opened Common
  import opened KnnHeap
  import opened SearchMachine
  import opened Interleaving
  import opened PruneSteps
  import opened SharedHeaps
  import opened RowGroups
  import opened Searcher
  import opened FilteredScan

  // ---------------------------------------------------------------- listings of candidates

  function Listing(ctx: Context, c: Cluster, n: nat): (xs: seq<Candidate>)
    requires Fits(ctx, c) && n <= |c.sel|
  {
    if n == 0 then []
    else if c.sel[n - 1] then Listing(ctx, c, n - 1) + [CandidateAt(ctx, c, n - 1)]
    else Listing(ctx, c, n - 1)
  }

  lemma ListingStep(ctx: Context, c: Cluster, n: nat)
    requires Fits(ctx, c) && 0 < n <= |c.sel|
    requires multiset(Listing(ctx, c, n - 1)) == Candidates(ctx, c, SelectedBelow(c, n - 1))
    ensures multiset(Listing(ctx, c, n)) == Candidates(ctx, c, SelectedBelow(c, n))
  {
    var xs, alive := Listing(ctx, c, n - 1), SelectedBelow(c, n - 1);
    if c.sel[n - 1] {
      ListedOneMore(ctx, c, xs, alive, n - 1);
      assert SelectedBelow(c, n) == alive + [n - 1];
    } else {
      assert SelectedBelow(c, n) == alive;
    }
  }

  lemma {:induction false} ListingIsCandidates(ctx: Context, c: Cluster, n: nat)
    requires Fits(ctx, c) && n <= |c.sel|
    ensures multiset(Listing(ctx, c, n)) == Candidates(ctx, c, SelectedBelow(c, n))
    decreases n
  {
    if n > 0 {
      ListingIsCandidates(ctx, c, n - 1);
      ListingStep(ctx, c, n);
    }
  }

  lemma ListedOneMore(ctx: Context, c: Cluster, xs: seq<Candidate>, alive: seq<nat>, p: nat)
    requires Fits(ctx, c) && ValidAlive(c, alive) && p < |c.vecs| && multiset(xs) == Candidates(ctx, c, alive)
    ensures multiset(xs + [CandidateAt(ctx, c, p)]) == Candidates(ctx, c, alive + [p])
  {
    CandidatesOfOneMore(ctx, c, alive, p);
  }

  function QueueListing(ctx: Context, queue: seq<Cluster>): seq<Candidate>
    requires forall i :: 0 <= i < |queue| ==> Fits(ctx, queue[i])
  {
    if queue == [] then [] else Listing(ctx, queue[0], |queue[0].sel|) + QueueListing(ctx, queue[1..])
  }

  lemma {:induction false} QueueListingIsCandidates(ctx: Context, queue: seq<Cluster>)
    requires forall i :: 0 <= i < |queue| ==> Fits(ctx, queue[i])
    ensures multiset(QueueListing(ctx, queue)) == QueueCandidates(ctx, queue)
  {
    if queue != [] {
      ListingIsCandidates(ctx, queue[0], |queue[0].sel|);
      QueueListingIsCandidates(ctx, queue[1..]);
    }
  }

  lemma {:induction false} ListedPlace(ctx: Context, c: Cluster, n: nat, x: Candidate) returns (p: nat)
    requires Fits(ctx, c) && n <= |c.sel| && x in Listing(ctx, c, n)
    ensures p < n && c.sel[p] && x == CandidateAt(ctx, c, p)
  {
    if c.sel[n - 1] && x == CandidateAt(ctx, c, n - 1) {
      p := n - 1;
    } else {
      p := ListedPlace(ctx, c, n - 1, x);
    }
  }

  lemma {:induction false} PlaceIsListed(ctx: Context, c: Cluster, n: nat, p: nat)
    requires Fits(ctx, c) && p < n <= |c.sel| && c.sel[p]
    ensures CandidateAt(ctx, c, p) in Listing(ctx, c, n)
  {
    if p < n - 1 {
      PlaceIsListed(ctx, c, n - 1, p);
    }
  }

  /** No two candidates with the same row id. */
  predicate DistinctIndices(xs: seq<Candidate>) {
    forall i, j :: 0 <= i < j < |xs| ==> xs[i].index != xs[j].index
  }

  lemma {:induction false} ListingIsDistinct(ctx: Context, c: Cluster, n: nat)
    requires Fits(ctx, c) && n <= |c.sel| && NoRepeats(c.ids)
    ensures DistinctIndices(Listing(ctx, c, n))
  {
    if n > 0 {
      ListingIsDistinct(ctx, c, n - 1);
      if c.sel[n - 1] {
        forall x | x in Listing(ctx, c, n - 1) ensures x.index != c.ids[n - 1] {
          var p := ListedPlace(ctx, c, n - 1, x);
        }
      }
    }
  }

  lemma DistinctJoin(a: seq<Candidate>, b: seq<Candidate>)
    requires DistinctIndices(a) && DistinctIndices(b)
    requires forall x, y :: x in a && y in b ==> x.index != y.index
    ensures DistinctIndices(a + b)
  {
  }

  // ---------------------------------------------------------------- one row group

  /** A row group as built, with the order of its clusters for the query and its passing rows. */
  datatype Searched = Searched(ctx: Context, clusters: seq<StoredCluster>, metadata: seq<RowIdClusterMapping>,
                               order: seq<nat>, passing: seq<nat>)

  ghost predicate ValidSearched(g: Searched) {
    && ValidClusters(g.ctx, g.clusters) && IsAccessOrder(g.order, |g.clusters|)
    && MapsBack(g.clusters, g.metadata)
    && NoRepeats(g.passing) && forall j :: 0 <= j < |g.passing| ==> Indexed(g.clusters, g.metadata, g.passing[j])
  }

  function Queue(g: Searched, first: nat, end: nat): (queue: seq<Cluster>)
    requires ValidClusters(g.ctx, g.clusters) && IsAccessOrder(g.order, |g.clusters|) && first <= end <= |g.clusters|
    ensures forall j :: 0 <= j < |queue| ==> Fits(g.ctx, queue[j])
  {
    ToProbe(g.ctx, g.clusters, g.order, true, g.passing, first, end)
  }

  /** The clusters the rows of a probe queue come from. */
  ghost predicate ComesFrom(g: Searched, first: nat, end: nat, x: Candidate)
    requires ValidSearched(g)
  {
    && x.index in g.passing
    && exists i :: first <= i < end && i < |g.order|
                   && g.metadata[x.index % DEFAULT_ROW_GROUP_SIZE].clusterId == g.order[i]
  }

  lemma PlaceComesFrom(g: Searched, i: nat, x: Candidate)
    requires ValidSearched(g) && i < |g.clusters|
    requires var c := ClusterAt(g.ctx, g.clusters, g.order, true, g.passing, i); x in Listing(g.ctx, c, |c.sel|)
    ensures x.index in g.passing && g.metadata[x.index % DEFAULT_ROW_GROUP_SIZE].clusterId == g.order[i]
  {
    var c := ClusterAt(g.ctx, g.clusters, g.order, true, g.passing, i);
    var p := ListedPlace(g.ctx, c, |c.sel|, x);
    assert x.index == g.clusters[g.order[i]].ids[p];
  }

  lemma ListingOfFirst(g: Searched, first: nat, end: nat)
    requires ValidSearched(g) && first < end <= |g.clusters|
    ensures var c := ClusterAt(g.ctx, g.clusters, g.order, true, g.passing, first);
            QueueListing(g.ctx, Queue(g, first, end))
            == Listing(g.ctx, c, |c.sel|) + QueueListing(g.ctx, Queue(g, first + 1, end))
  {
    var queue := Queue(g, first, end);
    assert queue[0] == ClusterAt(g.ctx, g.clusters, g.order, true, g.passing, first);
    assert queue[1..] == Queue(g, first + 1, end);
  }

  lemma {:induction false} QueueComesFrom(g: Searched, first: nat, end: nat, x: Candidate)
    requires ValidSearched(g) && first <= end <= |g.clusters| && x in QueueListing(g.ctx, Queue(g, first, end))
    ensures ComesFrom(g, first, end, x)
    decreases end - first
  {
    var c := ClusterAt(g.ctx, g.clusters, g.order, true, g.passing, first);
    ListingOfFirst(g, first, end);
    if x in Listing(g.ctx, c, |c.sel|) {
      PlaceComesFrom(g, first, x);
    } else {
      QueueComesFrom(g, first + 1, end, x);
    }
  }

  lemma IdsAreDistinct(g: Searched, c: nat)
    requires ValidSearched(g) && c < |g.clusters|
    ensures NoRepeats(g.clusters[c].ids)
  {
    var ids := g.clusters[c].ids;
    forall i, j | 0 <= i < j < |ids| ensures ids[i] != ids[j] {
      assert g.metadata[ids[i] % DEFAULT_ROW_GROUP_SIZE] == Mapping(c, i);
      assert g.metadata[ids[j] % DEFAULT_ROW_GROUP_SIZE] == Mapping(c, j);
    }
  }

  lemma PlacesAreApart(g: Searched, first: nat, end: nat, x: Candidate, y: Candidate)
    requires ValidSearched(g) && first < end <= |g.clusters|
    requires var c := ClusterAt(g.ctx, g.clusters, g.order, true, g.passing, first); x in Listing(g.ctx, c, |c.sel|)
    requires y in QueueListing(g.ctx, Queue(g, first + 1, end))
    ensures x.index != y.index
  {
    PlaceComesFrom(g, first, x);
    QueueComesFrom(g, first + 1, end, y);
  }

  /** The listing of a cluster has no row in common with those of the later ones. */
  lemma ListingsAreApart(g: Searched, first: nat, end: nat, rest: seq<Candidate>, xs: seq<Candidate>)
    requires ValidSearched(g) && first < end <= |g.clusters|
    requires rest == QueueListing(g.ctx, Queue(g, first + 1, end)) && DistinctIndices(rest)
    requires var c := ClusterAt(g.ctx, g.clusters, g.order, true, g.passing, first);
             xs == Listing(g.ctx, c, |c.sel|) + rest
    ensures DistinctIndices(xs)
  {
    var c := ClusterAt(g.ctx, g.clusters, g.order, true, g.passing, first);
    var listing := Listing(g.ctx, c, |c.sel|);
    IdsAreDistinct(g, g.order[first]);
    ListingIsDistinct(g.ctx, c, |c.sel|);
    forall x: Candidate, y: Candidate | x in listing && y in rest ensures x.index != y.index {
      PlacesAreApart(g, first, end, x, y);
    }
    DistinctJoin(listing, rest);
  }

  lemma {:induction false} QueueIsDistinct(g: Searched, first: nat, end: nat, xs: seq<Candidate>)
    requires ValidSearched(g) && first <= end <= |g.clusters| && xs == QueueListing(g.ctx, Queue(g, first, end))
    ensures DistinctIndices(xs)
    decreases end - first
  {
    if first == end {
      assert xs == [];
    } else {
      var rest := QueueListing(g.ctx, Queue(g, first + 1, end));
      QueueIsDistinct(g, first + 1, end, rest);
      ListingOfFirst(g, first, end);
      ListingsAreApart(g, first, end, rest, xs);
    }
  }

  lemma {:induction false} PlaceIsQueued(g: Searched, first: nat, end: nat, i: nat, x: Candidate)
    requires ValidSearched(g) && first <= i < end <= |g.clusters|
    requires var c := ClusterAt(g.ctx, g.clusters, g.order, true, g.passing, i); x in Listing(g.ctx, c, |c.sel|)
    ensures x in QueueListing(g.ctx, Queue(g, first, end))
    decreases i - first
  {
    ListingOfFirst(g, first, end);
    if first < i {
      PlaceIsQueued(g, first + 1, end, i, x);
    }
  }

  /** Every passing row is a selected candidate of some cluster. */
  lemma PassingIsQueued(g: Searched, row: nat) returns (x: Candidate)
    requires ValidSearched(g) && row in g.passing
    ensures x.index == row && x in QueueListing(g.ctx, Queue(g, 0, |g.clusters|))
  {
    var j :| 0 <= j < |g.passing| && g.passing[j] == row;
    assert Indexed(g.clusters, g.metadata, g.passing[j]);
    var m := g.metadata[row % DEFAULT_ROW_GROUP_SIZE];
    assert m.clusterId in g.order;
    var i :| 0 <= i < |g.order| && g.order[i] == m.clusterId;
    var c := ClusterAt(g.ctx, g.clusters, g.order, true, g.passing, i);
    PlaceIsListed(g.ctx, c, |c.sel|, m.indexInCluster);
    x := CandidateAt(g.ctx, c, m.indexInCluster);
    PlaceIsQueued(g, 0, |g.clusters|, i, x);
  }

  // ---------------------------------------------------------------- counting rows

  lemma SameRowsSameCount(xs: seq<Candidate>, rows: seq<nat>)
    requires DistinctIndices(xs) && NoRepeats(rows)
    requires forall x :: x in xs ==> x.index in rows
    requires forall row :: row in rows ==> exists x :: x in xs && x.index == row
    ensures |xs| == |rows|
  {
    var indices := RowIds(xs);
    NoRepeatsCounts(indices);
    NoRepeatsCounts(rows);
    forall row ensures row in SetOf(indices) <==> row in SetOf(rows) {
      if row in rows {
        var x :| x in xs && x.index == row;
        var i :| 0 <= i < |xs| && xs[i] == x;
        assert indices[i] == row;
      }
    }
    assert SetOf(indices) == SetOf(rows);
  }

  /** The candidates of a row group are its passing rows, one each. */
  lemma RowGroupCandidates(g: Searched)
    requires ValidSearched(g)
    ensures var xs := QueueListing(g.ctx, Queue(g, 0, |g.clusters|));
            DistinctIndices(xs) && |xs| == |g.passing| && forall x :: x in xs ==> x.index in g.passing
  {
    var xs := QueueListing(g.ctx, Queue(g, 0, |g.clusters|));
    QueueIsDistinct(g, 0, |g.clusters|, QueueListing(g.ctx, Queue(g, 0, |g.clusters|)));
    forall x | x in xs ensures x.index in g.passing {
      QueueComesFrom(g, 0, |g.clusters|, x);
    }
    forall row | row in g.passing ensures exists x :: x in xs && x.index == row {
      var x := PassingIsQueued(g, row);
    }
    SameRowsSameCount(xs, g.passing);
  }

  // ---------------------------------------------------------------- all row groups

  ghost predicate AllSearched(gs: seq<Searched>) {
    && (forall i :: 0 <= i < |gs| ==> ValidSearched(gs[i]))
    && (forall i, j, x, y :: 0 <= i < j < |gs| && x in gs[i].passing && y in gs[j].passing ==> x != y)
  }

  function AllPassing(gs: seq<Searched>): seq<nat> {
    if gs == [] then [] else AllPassing(gs[..|gs| - 1]) + gs[|gs| - 1].passing
  }

  ghost function AllListed(gs: seq<Searched>): seq<Candidate>
    requires AllSearched(gs)
  {
    if gs == [] then []
    else
      var g := gs[|gs| - 1];
      AllListed(gs[..|gs| - 1]) + QueueListing(g.ctx, Queue(g, 0, |g.clusters|))
  }

  lemma {:induction false} PassingOfSome(gs: seq<Searched>, row: nat) returns (i: nat)
    requires row in AllPassing(gs)
    ensures i < |gs| && row in gs[i].passing
  {
    var n := |gs| - 1;
    if row in gs[n].passing {
      i := n;
    } else {
      i := PassingOfSome(gs[..n], row);
    }
  }

  lemma {:induction false} AllListedIsPassing(gs: seq<Searched>)
    requires AllSearched(gs)
    ensures DistinctIndices(AllListed(gs)) && |AllListed(gs)| == |AllPassing(gs)|
    ensures forall x :: x in AllListed(gs) ==> x.index in AllPassing(gs)
  {
    if gs != [] {
      var n := |gs| - 1;
      var g := gs[n];
      AllListedIsPassing(gs[..n]);
      RowGroupCandidates(g);
      var xs := QueueListing(g.ctx, Queue(g, 0, |g.clusters|));
      forall x, y | x in AllListed(gs[..n]) && y in xs ensures x.index != y.index {
        var i := PassingOfSome(gs[..n], x.index);
        assert gs[..n][i] == gs[i];
      }
      DistinctJoin(AllListed(gs[..n]), xs);
    }
  }

  // ---------------------------------------------------------------- the scan

  lemma {:induction false} QueueJoin(g: Searched, first: nat, mid: nat, end: nat)
    requires ValidSearched(g) && first <= mid <= end <= |g.clusters|
    ensures Queue(g, first, end) == Queue(g, first, mid) + Queue(g, mid, end)
    decreases mid - first
  {
    if first < mid {
      QueueJoin(g, first + 1, mid, end);
    }
  }

  /** The operator starts on these row groups: each is asked for its first clusters. */
  ghost predicate StartsOn(gs: seq<Searched>, first: nat, clusters: nat, s: OpState)
    requires AllSearched(gs)
  {
    && |s.core.tasks| == |s.rest| == |gs|
    && forall i :: 0 <= i < |gs| ==>
         && |gs[i].clusters| == clusters
         && s.core.tasks[i] == Task(gs[i].ctx, Queue(gs[i], 0, Min(first, clusters)), Idle)
         && s.rest[i] == Queue(gs[i], Min(first, clusters), clusters)
  }

  ghost function Shared(gs: seq<Searched>): seq<Heap>
    requires AllSearched(gs)
  {
    seq(|gs|, i requires 0 <= i < |gs| =>
      multiset(QueueListing(gs[i].ctx, Queue(gs[i], 0, |gs[i].clusters|))))
  }

  lemma SharedPrefix(gs: seq<Searched>, n: nat)
    requires AllSearched(gs) && n <= |gs|
    ensures AllSearched(gs[..n]) && Shared(gs[..n]) == Shared(gs)[..n]
  {
  }

  lemma SumOfLast(hs: seq<Heap>, n: nat)
    requires n + 1 == |hs|
    ensures Sum(hs) == Sum(hs[..n]) + hs[n]
  {
  }

  lemma ListedLast(gs: seq<Searched>, n: nat)
    requires AllSearched(gs) && n + 1 == |gs| && AllSearched(gs[..n])
    ensures multiset(AllListed(gs)) == multiset(AllListed(gs[..n])) + Shared(gs)[n]
  {
    var xs := QueueListing(gs[n].ctx, Queue(gs[n], 0, |gs[n].clusters|));
    assert AllListed(gs) == AllListed(gs[..n]) + xs;
  }

  lemma {:induction false} SumOfShared(gs: seq<Searched>)
    requires AllSearched(gs)
    ensures Sum(Shared(gs)) == multiset(AllListed(gs))
    decreases |gs|
  {
    if gs != [] {
      var n := |gs| - 1;
      SharedPrefix(gs, n);
      SumOfShared(gs[..n]);
      SumOfLast(Shared(gs), n);
      ListedLast(gs, n);
    }
  }

  lemma TotalIsListed(gs: seq<Searched>, first: nat, clusters: nat, s: OpState)
    requires AllSearched(gs) && StartsOn(gs, first, clusters, s) && ValidOp(s)
    ensures Total(s) == multiset(AllListed(gs))
  {
    forall i | 0 <= i < |gs|
      ensures Shared(gs)[i] == Shares(s.core.tasks)[i] + RestHeld(s.core.tasks, s.rest)[i]
    {
      GroupShare(gs[i], Min(first, clusters));
    }
    SumOfSums(Shares(s.core.tasks), RestHeld(s.core.tasks, s.rest), Shared(gs));
    SumOfShared(gs);
  }

  lemma GroupShare(g: Searched, mid: nat)
    requires ValidSearched(g) && mid <= |g.clusters|
    ensures multiset(QueueListing(g.ctx, Queue(g, 0, |g.clusters|)))
            == QueueCandidates(g.ctx, Queue(g, 0, mid)) + QueueCandidates(g.ctx, Queue(g, mid, |g.clusters|))
  {
    QueueListingIsCandidates(g.ctx, Queue(g, 0, |g.clusters|));
    QueueJoin(g, 0, mid, |g.clusters|);
    QueueSplit(g.ctx, Queue(g, 0, mid), Queue(g, mid, |g.clusters|));
  }

  lemma SubListingIsDistinct(all: seq<Candidate>, part: seq<Candidate>)
    requires DistinctIndices(all) && multiset(part) <= multiset(all)
    ensures DistinctIndices(part) && forall x :: x in part ==> x in all
  {
    forall x | x in part ensures x in all {
      assert multiset(part)[x] > 0;
    }
    forall i, j | 0 <= i < j < |part| ensures part[i].index != part[j].index {
      if part[i].index == part[j].index {
        assert part[i] in all && part[j] in all;
        assert part[i] == part[j];
        TwiceInPart(part, i, j);
        OnceInAll(all, part[i]);
      }
    }
  }

  lemma TwiceInPart(s: seq<Candidate>, i: nat, j: nat)
    requires i < j < |s| && s[i] == s[j]
    ensures multiset(s)[s[i]] >= 2
  {
    assert s == s[..i] + [s[i]] + s[i + 1..j] + [s[j]] + s[j + 1..];
  }

  lemma {:induction false} OnceInAll(s: seq<Candidate>, x: Candidate)
    requires DistinctIndices(s)
    ensures multiset(s)[x] <= 1
  {
    if s != [] {
      var n := |s| - 1;
      assert s == s[..n] + [s[n]];
      OnceInAll(s[..n], x);
    }
  }

  /** For every probe count, bound, number of clusters and row groups, pruner and schedule: the
      filtered scan returns exactly min(k, number of passing rows) rows, all different, all passing,
      nearest first. */
  lemma FilteredScanReturnsPassingRows(k: nat, gs: seq<Searched>, assumed: nat, first: nat, clusters: nat,
                                       run: seq<OpState>)
    requires AllSearched(gs) && assumed <= first
    requires IsOpRun(k, MaxProbeIterations(assumed, clusters), run) && OpInitial(k, first, clusters, run[0])
    requires StartsOn(gs, first, clusters, run[0]) && run[|run| - 1].Emitting?
    ensures var result := run[|run| - 1].result;
            && |result| == Min(k, |AllPassing(gs)|)
            && DistinctIndices(result) && SortedByDistance(result)
            && forall x :: x in result ==> x.index in AllPassing(gs)
  {
    var result := run[|run| - 1].result;
    EveryFilteredScanCounts(k, assumed, first, clusters, run);
    TotalIsListed(gs, first, clusters, run[0]);
    AllListedIsPassing(gs);
    SubListingIsDistinct(AllListed(gs), result);
    assert |multiset(result)| == |result|;
    assert |multiset(AllListed(gs))| == |AllListed(gs)|;
  }
}
