/** The imperative operators from end to end, for a table of one row group: a fresh heap, one
    searcher, and the rows returned. */
module OneRowGroup {
  import opened Common
  import opened KnnHeap
  import opened SearchMachine
  import opened Interleaving
  import opened Exactness
  import opened LocalRuns
  import opened SharedHeaps
  import opened PruneSteps
  import opened RowGroups
  import opened Searcher
  import opened FilteredScan
  import opened FilteredScanState
  import opened FilteredRows
  import opened ProbedRows
  import opened GlobalSearch

  lemma QueueTask(ctx: Context, queue: seq<Cluster>)
    requires ValidQueue(ctx, queue)
    ensures var t := Task(ctx, queue, Idle);
            ValidTask(t) && RoomyTask(t) && ValidTasks([t]) && HeldBy([t]) == QueueCandidates(ctx, queue)
  {
    HeldByOne(Task(ctx, queue, Idle));
  }

  lemma FirstMoment(k: nat, ctx: Context, queue: seq<Cluster>)
    requires ValidQueue(ctx, queue) && k >= 1
    ensures var s := Alone(Moment(Task(ctx, queue, Idle), multiset{SENTINEL}), multiset{});
            Inv(k, s, QueueCandidates(ctx, queue)) && Ordered(s.heap, s.lost, 0.0)
  {
    QueueTask(ctx, queue);
    InitialInv(k, Alone(Moment(Task(ctx, queue, Idle), multiset{SENTINEL}), multiset{}));
  }

  /** A search alone on a fresh heap ends with min(k, n) of the n selected vectors. */
  lemma AloneCounts(k: nat, ctx: Context, queue: seq<Cluster>, h: Heap) returns (lost: Heap)
    requires ValidQueue(ctx, queue) && k >= 1
    requires Leads(k, Origin(Moment(Task(ctx, queue, Idle), multiset{SENTINEL}), true), Moment(Task(ctx, [], Idle), h))
    ensures Accounted(k, h, lost) && CountsRight(k, Kept(h), QueueCandidates(ctx, queue))
  {
    var first, last := Moment(Task(ctx, queue, Idle), multiset{SENTINEL}), Moment(Task(ctx, [], Idle), h);
    var all := QueueCandidates(ctx, queue);
    FirstMoment(k, ctx, queue);
    AloneKeepsInv(k, Origin(first, true), last, all);
    lost :| Inv(k, Alone(last, lost), all);
    DoneCounts(k, Alone(last, lost), all);
  }

  lemma OwnUnitsFaithful(ctx: Context, queue: seq<Cluster>)
    requires ValidQueue(ctx, queue) && LosslessAlone(ctx)
    ensures AllFaithful([Task(ctx, queue, Idle)], QueueCandidates(ctx, queue), 0.0)
  {
    var tasks := [Task(ctx, queue, Idle)];
    QueueTask(ctx, queue);
    if ctx.quant.U8? {
      assert ScalesOf(tasks) == [ScaleOf(ctx)];
      assert AreBytes(ctx.D, tasks) && Compatible(ctx.D, ScalesOf(tasks));
    }
    CommonUnitsFaithful(tasks);
  }

  /** With a lossless pruner they are the nearest ones. */
  lemma AloneNearest(k: nat, ctx: Context, queue: seq<Cluster>, h: Heap)
    requires ValidQueue(ctx, queue) && k >= 1 && LosslessAlone(ctx)
    requires Leads(k, Origin(Moment(Task(ctx, queue, Idle), multiset{SENTINEL}), true), Moment(Task(ctx, [], Idle), h))
    ensures NearestUpTo(k, Kept(h), QueueCandidates(ctx, queue), 0.0)
  {
    var first, last := Moment(Task(ctx, queue, Idle), multiset{SENTINEL}), Moment(Task(ctx, [], Idle), h);
    var all := QueueCandidates(ctx, queue);
    FirstIsOrdered(k, ctx, queue);
    AloneKeepsOrder(k, Origin(first, true), last, all);
    LastIsNearest(k, ctx, h, all);
  }

  lemma FirstIsOrdered(k: nat, ctx: Context, queue: seq<Cluster>)
    requires ValidQueue(ctx, queue) && k >= 1 && LosslessAlone(ctx)
    ensures AloneOrderInv(k, Moment(Task(ctx, queue, Idle), multiset{SENTINEL}), QueueCandidates(ctx, queue))
  {
    FirstMoment(k, ctx, queue);
    OwnUnitsFaithful(ctx, queue);
    assert OrderInv(k, Alone(Moment(Task(ctx, queue, Idle), multiset{SENTINEL}), multiset{}),
                    QueueCandidates(ctx, queue), 0.0);
  }

  lemma LastIsNearest(k: nat, ctx: Context, h: Heap, all: Heap)
    requires AloneOrderInv(k, Moment(Task(ctx, [], Idle), h), all)
    ensures NearestUpTo(k, Kept(h), all, 0.0)
  {
    var last := Moment(Task(ctx, [], Idle), h);
    var lost :| OrderInv(k, Alone(last, lost), all, 0.0);
    DoneIsNearest(k, Alone(last, lost), all, 0.0);
  }

  /** Exactly min(k, n) of the selected candidates in the queue, nearest first; with a lossless pruner
      a k-nearest set of them. */
  ghost predicate IsSearchResult(k: nat, ctx: Context, queue: seq<Cluster>, result: seq<Candidate>)
    requires ValidQueue(ctx, queue)
  {
    var all := QueueCandidates(ctx, queue);
    && CountsRight(k, multiset(result), all) && SortedByDistance(result)
    && (LosslessAlone(ctx) ==> NearestUpTo(k, multiset(result), all, 0.0))
  }

  lemma DrainedIsResult(k: nat, ctx: Context, queue: seq<Cluster>, h: Heap, proper: Heap, left: Heap,
                        result: seq<Candidate>)
    requires ValidQueue(ctx, queue) && k >= 1
    requires Leads(k, Origin(Moment(Task(ctx, queue, Idle), multiset{SENTINEL}), true), Moment(Task(ctx, [], Idle), h))
    requires WithoutTopElement(h, proper) && |result| == Min(|proper|, k) && Drained(proper, left, result)
    ensures IsSearchResult(k, ctx, queue, result)
  {
    var lost := AloneCounts(k, ctx, queue, h);
    ResultIsKept(k, h, lost, proper);
    NothingLeft(proper, left, result);
    if LosslessAlone(ctx) {
      AloneNearest(k, ctx, queue, h);
    }
  }

  lemma SearchIsProbed(k: nat, ctx: Context, clusters: seq<StoredCluster>, order: seq<nat>, nProbe: nat,
                       result: seq<Candidate>)
    requires ValidClusters(ctx, clusters) && IsAccessOrder(order, |clusters|)
    requires var queue := ToProbe(ctx, clusters, order, false, [], 0, ClustersToProbe(nProbe, |clusters|));
             ValidQueue(ctx, queue) && CountsRight(k, multiset(result), QueueCandidates(ctx, queue))
    ensures AreProbedRows(k, ctx, clusters, order, false, [], nProbe, result)
  {
    var n := ClustersToProbe(nProbe, |clusters|);
    QueueCount(ctx, clusters, order, false, [], 0, n);
    assert order[0..n] == order[..n] && |multiset(result)| == |result|;
    forall j | 0 <= j < |result| ensures IsRowOf(ctx, clusters, order[..n], false, [], result[j]) {
      assert result[j] in multiset(result);
      QueueRow(ctx, clusters, order, false, [], n, result[j]);
    }
    FirstPlaces(k, ctx, clusters, order, false, [], nProbe, result);
  }

  /** What the unfiltered scan does on a table of one row group. */
  method SearchRowGroup(searcher: PDXearch, ctx: Context, order: seq<nat>, nProbe: nat, k: nat)
      returns (result: seq<Candidate>)
    requires searcher.Valid() && ValidClusters(ctx, searcher.clusters) && k >= 1
    requires IsAccessOrder(order, |searcher.clusters|)
    requires ValidQueue(ctx, ToProbe(ctx, searcher.clusters, order, false, [], 0,
                                     ClustersToProbe(nProbe, |searcher.clusters|)))
    modifies searcher
    ensures IsSearchResult(k, ctx, ToProbe(ctx, searcher.clusters, order, false, [], 0,
                                           ClustersToProbe(nProbe, |searcher.clusters|)), result)
    ensures AreProbedRows(k, ctx, searcher.clusters, order, false, [], nProbe, result)
  {
    var n := ClustersToProbe(nProbe, |searcher.clusters|);
    var heap := new SharedHeap([]);
    searcher.InitializeSearch(ctx, k, heap, order, null);
    searcher.Search(n);
    ghost var h := heap.items;
    ghost var proper;
    result, proper := heap.BuildResultSet(k);
    DrainedIsResult(k, ctx, ToProbe(ctx, searcher.clusters, order, false, [], 0, n), h, proper, heap.items, result);
    SearchIsProbed(k, ctx, searcher.clusters, order, nProbe, result);
  }

  // ---------------------------------------------------------------- the filtered scan

  ghost predicate ReadyToScan(k: nat, g: Searched) {
    k >= 1 && ValidSearched(g) && ValidQueue(g.ctx, Queue(g, 0, |g.clusters|))
  }

  /** The heap accounts for the passing rows in the first `offset` clusters. */
  ghost predicate ScanInv(k: nat, g: Searched, offset: nat, h: Heap)
    requires ValidSearched(g)
  {
    offset <= |g.clusters|
    && exists lost :: Inv(k, Alone(Moment(Task(g.ctx, [], Idle), h), lost), QueueCandidates(g.ctx, Queue(g, 0, offset)))
  }

  lemma PartOfQueue(k: nat, g: Searched, first: nat, end: nat)
    requires ReadyToScan(k, g) && first <= end <= |g.clusters|
    ensures ValidQueue(g.ctx, Queue(g, first, end))
  {
    QueueJoin(g, 0, first, |g.clusters|);
    QueueJoin(g, first, end, |g.clusters|);
    var all, before, part := Queue(g, 0, |g.clusters|), Queue(g, 0, first), Queue(g, first, end);
    forall i | 0 <= i < |part| ensures Fits(g.ctx, part[i]) && Roomy(g.ctx, part[i]) {
      assert all[|before| + i] == part[i];
    }
  }

  lemma CandidatesJoin(g: Searched, first: nat, end: nat)
    requires ValidSearched(g) && first <= end <= |g.clusters|
    ensures QueueCandidates(g.ctx, Queue(g, 0, end))
            == QueueCandidates(g.ctx, Queue(g, 0, first)) + QueueCandidates(g.ctx, Queue(g, first, end))
  {
    QueueJoin(g, 0, first, end);
    QueueSplit(g.ctx, Queue(g, 0, first), Queue(g, first, end));
  }

  lemma ScanStarts(k: nat, g: Searched)
    requires ReadyToScan(k, g)
    ensures ScanInv(k, g, 0, multiset{SENTINEL})
  {
    FirstMoment(k, g.ctx, []);
  }

  lemma QueueScheduled(k: nat, ctx: Context, h: Heap, lost: Heap, all: Heap, queue: seq<Cluster>)
    requires ValidQueue(ctx, queue) && Inv(k, Alone(Moment(Task(ctx, [], Idle), h), lost), all)
    ensures Inv(k, Alone(Moment(Task(ctx, queue, Idle), h), lost), all + QueueCandidates(ctx, queue))
  {
    QueueTask(ctx, queue);
    QueueIsFinite(ctx, queue);
    ScheduleKeepsInv(k, Alone(Moment(Task(ctx, [], Idle), h), lost), all,
                     Alone(Moment(Task(ctx, queue, Idle), h), lost));
  }

  /** One call of `FilteredSearch` extends what the heap accounts for by the clusters it probes. */
  lemma ScanContinues(k: nat, g: Searched, first: nat, end: nat, h: Heap, h': Heap)
    requires ReadyToScan(k, g) && ScanInv(k, g, first, h) && first <= end <= |g.clusters|
    requires Leads(k, Origin(Moment(Task(g.ctx, Queue(g, first, end), Idle), h), true),
                   Moment(Task(g.ctx, [], Idle), h'))
    ensures ScanInv(k, g, end, h')
  {
    var queue, all := Queue(g, first, end), QueueCandidates(g.ctx, Queue(g, 0, first));
    PartOfQueue(k, g, first, end);
    CandidatesJoin(g, first, end);
    var lost :| Inv(k, Alone(Moment(Task(g.ctx, [], Idle), h), lost), all);
    QueueScheduled(k, g.ctx, h, lost, all, queue);
    AloneKeepsInv(k, Origin(Moment(Task(g.ctx, queue, Idle), h), true), Moment(Task(g.ctx, [], Idle), h'),
                  all + QueueCandidates(g.ctx, queue));
  }

  lemma CoreCounts(k: nat, ctx: Context, h: Heap, lost: Heap, all: Heap, total: Heap)
    requires Inv(k, Alone(Moment(Task(ctx, [], Idle), h), lost), all) && all <= total && |h| > 0
    requires all == total || (|h| == k && TopDistance(h) != FLT_MAX)
    ensures CountsRight(k, Kept(h), total)
  {
    var core := Alone(Moment(Task(ctx, [], Idle), h), lost);
    if all == total {
      DoneCounts(k, core, all);
    } else {
      FullHeapCounts(k, core, all, total);
    }
  }

  /** When the operator is ready, the kept candidates are right for all clusters, probed or not. */
  lemma ReadyCounts(k: nat, g: Searched, offset: nat, h: Heap, total: Heap)
    requires ValidSearched(g) && ScanInv(k, g, offset, h) && |h| > 0
    requires offset == |g.clusters| || (|h| == k && TopDistance(h) != FLT_MAX)
    requires total == QueueCandidates(g.ctx, Queue(g, 0, |g.clusters|))
    ensures CountsRight(k, Kept(h), total)
  {
    var all := QueueCandidates(g.ctx, Queue(g, 0, offset));
    var lost :| Inv(k, Alone(Moment(Task(g.ctx, [], Idle), h), lost), all);
    CandidatesJoin(g, offset, |g.clusters|);
    CoreCounts(k, g.ctx, h, lost, all, total);
  }

  /** Exactly min(k, n) of the n passing rows, all different, nearest first, and all from the first `m`
      clusters. */
  ghost predicate AreRows(k: nat, g: Searched, m: nat, rows: seq<nat>)
    requires ValidSearched(g) && m <= |g.clusters|
  {
    && |rows| == Min(k, |g.passing|) && NoRepeats(rows) && (forall j :: 0 <= j < |rows| ==> rows[j] in g.passing)
    && exists result :: NearestFirst(g, m, result, rows)
  }

  /** The rows of candidates in the first `m` clusters that are sorted by distance. */
  ghost predicate NearestFirst(g: Searched, m: nat, result: seq<Candidate>, rows: seq<nat>)
    requires ValidSearched(g) && m <= |g.clusters|
  {
    && rows == RowIds(result) && SortedByDistance(result)
    && multiset(result) <= QueueCandidates(g.ctx, Queue(g, 0, m))
  }

  lemma CoreResult(k: nat, ctx: Context, h: Heap, lost: Heap, all: Heap, result: seq<Candidate>)
    requires Inv(k, Alone(Moment(Task(ctx, [], Idle), h), lost), all) && FilteredScan.IsResult(k, h, result)
    ensures multiset(result) == Kept(h) <= all && SortedByDistance(result)
  {
    ResultIsAllKept(k, Alone(Moment(Task(ctx, [], Idle), h), lost), all, result);
    DoneCounts(k, Alone(Moment(Task(ctx, [], Idle), h), lost), all);
  }

  /** Distinct rows of a listing of the candidates of the passing rows. */
  lemma PartOfListing(k: nat, g: Searched, listing: seq<Candidate>, result: seq<Candidate>)
    requires DistinctIndices(listing) && |listing| == |g.passing| && forall x :: x in listing ==> x.index in g.passing
    requires CountsRight(k, multiset(result), multiset(listing))
    ensures var rows := RowIds(result);
            |rows| == Min(k, |g.passing|) && NoRepeats(rows) && forall j :: 0 <= j < |rows| ==> rows[j] in g.passing
  {
    SubListingIsDistinct(listing, result);
    assert |multiset(listing)| == |listing|;
    var rows := RowIds(result);
    forall j | 0 <= j < |rows| ensures rows[j] in g.passing {
      assert result[j] in listing;
    }
  }

  lemma ResultRows(k: nat, g: Searched, m: nat, result: seq<Candidate>)
    requires ValidSearched(g) && SortedByDistance(result) && m <= |g.clusters|
    requires CountsRight(k, multiset(result), QueueCandidates(g.ctx, Queue(g, 0, |g.clusters|)))
    requires multiset(result) <= QueueCandidates(g.ctx, Queue(g, 0, m))
    ensures AreRows(k, g, m, RowIds(result))
  {
    var queue := Queue(g, 0, |g.clusters|);
    QueueListingIsCandidates(g.ctx, queue);
    RowGroupCandidates(g);
    PartOfListing(k, g, QueueListing(g.ctx, queue), result);
    assert NearestFirst(g, m, result, RowIds(result));
  }

  /** What the operator emits once it is ready. */
  lemma EmittedRows(k: nat, g: Searched, offset: nat, h: Heap, result: seq<Candidate>)
    requires ValidSearched(g) && ScanInv(k, g, offset, h) && |h| > 0 && FilteredScan.IsResult(k, h, result)
    requires offset == |g.clusters| || (|h| == k && TopDistance(h) != FLT_MAX)
    ensures AreRows(k, g, offset, RowIds(result))
  {
    var all := QueueCandidates(g.ctx, Queue(g, 0, offset));
    var lost :| Inv(k, Alone(Moment(Task(g.ctx, [], Idle), h), lost), all);
    CoreResult(k, g.ctx, h, lost, all, result);
    ReadyCounts(k, g, offset, h, QueueCandidates(g.ctx, Queue(g, 0, |g.clusters|)));
    ResultRows(k, g, offset, result);
  }

  // ---------------------------------------------------------------- when it stops

  /** How many passing rows the first `m` clusters hold ... */
  ghost function PassingIn(g: Searched, m: nat): nat
    requires ValidSearched(g) && m <= |g.clusters|
  {
    |QueueCandidates(g.ctx, Queue(g, 0, m))|
  }

  /** ... and those probed once `n` follow-up iterations are over. */
  ghost function PassingAfter(g: Searched, first: nat, n: nat): nat
    requires ValidSearched(g)
  {
    PassingIn(g, Min(first + 5 * n, |g.clusters|))
  }

  /** `followUps` is the least number of follow-up iterations after which k passing rows have been probed,
      or the last one within the bound. */
  ghost predicate StopsAfter(k: nat, g: Searched, first: nat, followUps: nat, bound: nat)
    requires ValidSearched(g)
  {
    && followUps + 1 <= bound && (forall n: nat :: n < followUps ==> PassingAfter(g, first, n) < k)
    && (followUps + 1 == bound || PassingAfter(g, first, followUps) >= k)
  }

  /** What a filtered scan with `iterations` iterations returns. */
  ghost predicate IsScanned(k: nat, g: Searched, first: nat, iterations: nat, bound: nat, rows: seq<nat>)
    requires ValidSearched(g)
  {
    && iterations >= 1 && StopsAfter(k, g, first, iterations - 1, bound)
    && AreRows(k, g, Min(first + 5 * (iterations - 1), |g.clusters|), rows)
  }

  lemma FullCore(k: nat, ctx: Context, h: Heap, lost: Heap, all: Heap, count: nat)
    requires |all| == count
    ensures Inv(k, Alone(Moment(Task(ctx, [], Idle), h), lost), all) ==> IsFull(k, h, count >= k)
  {
    FullDecides(k, Alone(Moment(Task(ctx, [], Idle), h), lost), all);
  }

  /** The heap is full of valid rows exactly if the clusters probed hold k passing rows. */
  lemma FullAfter(k: nat, g: Searched, offset: nat, h: Heap)
    requires ValidSearched(g) && ScanInv(k, g, offset, h)
    ensures IsFull(k, h, PassingIn(g, offset) >= k)
  {
    var all := QueueCandidates(g.ctx, Queue(g, 0, offset));
    var lost :| Inv(k, Alone(Moment(Task(g.ctx, [], Idle), h), lost), all);
    FullCore(k, g.ctx, h, lost, all, PassingIn(g, offset));
  }

  /** The searcher works for the operator, which has not emitted and may go on. */
  ghost predicate Between(searcher: PDXearch, g: Searched, state: GlobalSinkState, k: nat)
    requires ValidSearched(g)
    reads searcher, searcher.bestK, state
    reads if searcher.evaluator == null then {}
          else {searcher.evaluator.nPassingTuples, searcher.evaluator.selectionVector}
  {
    && searcher.Ready() && searcher.k == state.limit == k && searcher.bestK == state.globalHeap
    && searcher.bestK.others == []
    && searcher.ctx == g.ctx && searcher.clusters == g.clusters && searcher.accessOrder == g.order
    && searcher.evaluator != null && searcher.evaluator.Evaluates(g.clusters, g.passing)
    && !state.hasRowIds && state.rowIdsIdx == 0 && state.iterationsPerformed < state.maxIterations
    && ScanInv(k, g, searcher.accessOrderOffset, searcher.bestK.items)
  }

  /** What is left of the bound suffices for the clusters beyond `offset`. */
  predicate Covered(offset: nat, iterationsLeft: int, clusters: nat) {
    offset + PARTITIONS_PER_FOLLOW_UP_ITERATION * iterationsLeft >= clusters
  }

  /** Probes the next clusters. */
  method Probe(searcher: PDXearch, ghost g: Searched, state: GlobalSinkState, count: nat, k: nat)
    requires ReadyToScan(k, g) && Between(searcher, g, state, k)
    modifies searcher, state.globalHeap
    ensures Between(searcher, g, state, k) && searcher.evaluator == old(searcher.evaluator)
    ensures searcher.accessOrderOffset == Min(old(searcher.accessOrderOffset) + count, |g.clusters|)
  {
    ghost var first, before := searcher.accessOrderOffset, searcher.bestK.items;
    searcher.FilteredSearch(count, g.passing);
    ScanContinues(k, g, first, searcher.accessOrderOffset, before, searcher.bestK.items);
  }

  /** Counts the iteration and decides. */
  method Decide(searcher: PDXearch, ghost g: Searched, state: GlobalSinkState, k: nat) returns (again: bool)
    requires ReadyToScan(k, g) && Between(searcher, g, state, k)
    requires Covered(searcher.accessOrderOffset, state.maxIterations - state.iterationsPerformed - 1, |g.clusters|)
    modifies state, state.globalHeap
    ensures state.iterationsPerformed == old(state.iterationsPerformed) + 1
    ensures again ==> Between(searcher, g, state, k)
    ensures !again ==> state.hasRowIds && state.rowIdsIdx == 0
                       && AreRows(k, g, searcher.accessOrderOffset, state.rowIds)
    ensures again <==> PassingIn(g, searcher.accessOrderOffset) < k
                       && state.iterationsPerformed != state.maxIterations
  {
    ghost var h, offset := searcher.bestK.items, searcher.accessOrderOffset;
    FullAfter(k, g, offset, h);
    again := state.FinishIteration();
    if !again {
      ghost var result :| FilteredScan.IsResult(k, h, result) && state.rowIds == RowIds(result);
      EmittedRows(k, g, offset, h, result);
    }
  }

  /** One iteration. */
  method Iterate(searcher: PDXearch, ghost g: Searched, state: GlobalSinkState, count: nat, k: nat)
      returns (again: bool)
    requires ReadyToScan(k, g) && Between(searcher, g, state, k)
    requires Covered(searcher.accessOrderOffset + count, state.maxIterations - state.iterationsPerformed - 1,
                     |g.clusters|)
    modifies searcher, state, state.globalHeap
    ensures searcher.evaluator == old(searcher.evaluator)
    ensures searcher.accessOrderOffset == Min(old(searcher.accessOrderOffset) + count, |g.clusters|)
    ensures state.iterationsPerformed == old(state.iterationsPerformed) + 1
    ensures again ==> Between(searcher, g, state, k)
                      && Covered(searcher.accessOrderOffset, state.maxIterations - state.iterationsPerformed,
                                 |g.clusters|)
    ensures !again ==> state.hasRowIds && state.rowIdsIdx == 0
                       && AreRows(k, g, searcher.accessOrderOffset, state.rowIds)
    ensures again <==> PassingIn(g, searcher.accessOrderOffset) < k
                       && state.iterationsPerformed != state.maxIterations
  {
    Probe(searcher, g, state, count, k);
    again := Decide(searcher, g, state, k);
  }

  /** After `n` follow-up iterations: where the searcher stands, and that it had to go on so far. */
  ghost predicate WentOn(k: nat, g: Searched, first: nat, n: nat, offset: nat)
    requires ValidSearched(g)
  {
    offset == Min(first + 5 * n, |g.clusters|) && forall i: nat :: i < n ==> PassingAfter(g, first, i) < k
  }

  lemma GoesOn(k: nat, g: Searched, first: nat, n: nat, offset: nat, next: nat)
    requires ValidSearched(g) && WentOn(k, g, first, n, offset)
    requires PassingIn(g, offset) < k && next == Min(offset + 5, |g.clusters|)
    ensures WentOn(k, g, first, n + 1, next)
  {
    NextOffset(first, n, |g.clusters|, offset, next);
    assert PassingAfter(g, first, n) == PassingIn(g, offset);
  }

  lemma NextOffset(first: nat, n: nat, clusters: nat, offset: nat, next: nat)
    requires offset == Min(first + 5 * n, clusters) && next == Min(offset + 5, clusters)
    ensures next == Min(first + 5 * (n + 1), clusters)
  {
  }

  lemma StopsHere(k: nat, g: Searched, first: nat, n: nat, offset: nat, bound: nat, rows: seq<nat>)
    requires ValidSearched(g) && WentOn(k, g, first, n, offset) && n + 1 <= bound
    requires (n + 1 == bound || PassingIn(g, offset) >= k) && AreRows(k, g, offset, rows)
    ensures IsScanned(k, g, first, n + 1, bound, rows)
  {
    assert PassingAfter(g, first, n) == PassingIn(g, offset);
    assert StopsAfter(k, g, first, n, bound);
  }

  /** After the iteration that follows `n` follow-up iterations; `again` says whether one more is needed. */
  ghost predicate Progress(searcher: PDXearch, g: Searched, state: GlobalSinkState, k: nat, first: nat, n: nat,
                           again: bool)
    requires ValidSearched(g)
    reads searcher, searcher.bestK, state
    reads if searcher.evaluator == null then {}
          else {searcher.evaluator.nPassingTuples, searcher.evaluator.selectionVector}
  {
    && state.iterationsPerformed == n + 1 <= state.maxIterations
    && WentOn(k, g, first, n, searcher.accessOrderOffset)
    && (again <==> PassingIn(g, searcher.accessOrderOffset) < k && state.iterationsPerformed != state.maxIterations)
    && (again ==> Between(searcher, g, state, k)
                  && Covered(searcher.accessOrderOffset, state.maxIterations - state.iterationsPerformed,
                             |g.clusters|))
    && (!again ==> state.hasRowIds && state.rowIdsIdx == 0
                   && AreRows(k, g, searcher.accessOrderOffset, state.rowIds))
  }

  /** A follow-up iteration. */
  method IterateAgain(searcher: PDXearch, ghost g: Searched, state: GlobalSinkState, k: nat, ghost first: nat,
                      ghost n: nat)
      returns (again: bool)
    requires ReadyToScan(k, g) && Progress(searcher, g, state, k, first, n, true)
    modifies searcher, state, state.globalHeap
    ensures Progress(searcher, g, state, k, first, n + 1, again)
    ensures searcher.evaluator == old(searcher.evaluator)
  {
    ghost var offset := searcher.accessOrderOffset;
    again := Iterate(searcher, g, state, PARTITIONS_PER_FOLLOW_UP_ITERATION, k);
    GoesOn(k, g, first, n, offset, searcher.accessOrderOffset);
  }

  /** The first iteration. */
  method IterateFirst(searcher: PDXearch, ghost g: Searched, state: GlobalSinkState, k: nat) returns (again: bool)
    requires ReadyToScan(k, g) && Between(searcher, g, state, k)
    requires searcher.accessOrderOffset == 0 && state.iterationsPerformed == 0
    requires Covered(state.partitionsToProbeOnFirstIteration, state.maxIterations - 1, |g.clusters|)
    modifies searcher, state, state.globalHeap
    ensures Progress(searcher, g, state, k, old(state.partitionsToProbeOnFirstIteration), 0, again)
    ensures searcher.evaluator == old(searcher.evaluator)
  {
    again := Iterate(searcher, g, state, state.partitionsToProbeOnFirstIteration, k);
  }

  /** The follow-up iterations. */
  method IterateOn(searcher: PDXearch, ghost g: Searched, state: GlobalSinkState, k: nat, ghost first: nat,
                   atAll: bool)
      returns (ghost n: nat)
    requires ReadyToScan(k, g) && Progress(searcher, g, state, k, first, 0, atAll)
    modifies searcher, state, state.globalHeap
    ensures Progress(searcher, g, state, k, first, n, false)
  {
    n := 0;
    var again := atAll;
    while again
      invariant Progress(searcher, g, state, k, first, n, again)
      invariant searcher.evaluator == old(searcher.evaluator)
      decreases state.maxIterations - state.iterationsPerformed
    {
      again := IterateAgain(searcher, g, state, k, first, n);
      n := n + 1;
    }
  }

  /** The iterations of the operator. */
  method IterateUntilReady(searcher: PDXearch, ghost g: Searched, state: GlobalSinkState, k: nat)
    requires ReadyToScan(k, g) && Between(searcher, g, state, k)
    requires searcher.accessOrderOffset == 0 && state.iterationsPerformed == 0
    requires Covered(state.partitionsToProbeOnFirstIteration, state.maxIterations - 1, |g.clusters|)
    modifies searcher, state, state.globalHeap
    ensures state.hasRowIds && state.rowIdsIdx == 0
    ensures IsScanned(k, g, old(state.partitionsToProbeOnFirstIteration), state.iterationsPerformed,
                      state.maxIterations, state.rowIds)
  {
    ghost var first := state.partitionsToProbeOnFirstIteration;
    var again := IterateFirst(searcher, g, state, k);
    ghost var n := IterateOn(searcher, g, state, k, first, again);
    StopsHere(k, g, first, n, searcher.accessOrderOffset, state.maxIterations, state.rowIds);
  }

  /** The filtered scan on a table of one row group: evaluates the predicate's rows, probes iteration by
      iteration until the operator is ready, and drains the source. */
  method FilteredScanRowGroup(searcher: PDXearch, ctx: Context, metadata: seq<RowIdClusterMapping>, order: seq<nat>,
                              passing: seq<nat>, nProbe: nat, k: nat)
      returns (rows: seq<nat>, iterations: nat)
    requires searcher.Valid() && ReadyToScan(k, Searched(ctx, searcher.clusters, metadata, order, passing))
    modifies searcher
    ensures var n := |searcher.clusters|;
            IsScanned(k, Searched(ctx, searcher.clusters, metadata, order, passing),
                      if nProbe == 0 || nProbe > n then n else nProbe, iterations, MaxProbeIterations(0, n), rows)
  {
    ghost var g := Searched(ctx, searcher.clusters, metadata, order, passing);
    var state := new GlobalSinkState(k, nProbe, |searcher.clusters|, []);
    var evaluator := CreatePredicateEvaluator(passing, searcher.clusters, searcher.clusterOffsets, metadata);
    searcher.InitializeSearch(ctx, k, state.globalHeap, order, evaluator);
    ScanStarts(k, g);
    IterateUntilReady(searcher, g, state, k);
    iterations := state.iterationsPerformed;
    rows := state.Drain();
  }
}
