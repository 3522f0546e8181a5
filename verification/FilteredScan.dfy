/** The filtered-scan operator: searches in iterations, in each of which every row group probes its
    next clusters under an arbitrary interleaving, until the heap holds k valid rows or every
    cluster has been probed. */
module FilteredScan {
  import opened Common
  import opened KnnHeap
  import opened Multisets
  import opened SearchMachine
  import opened Interleaving
  import opened SharedHeaps
  import opened Searcher

  const PARTITIONS_PER_FOLLOW_UP_ITERATION: nat := 5

  // ---------------------------------------------------------------- the iteration bound

  /** Division rounding up. */
  function CeilDiv(a: nat, b: nat): nat
    requires b > 0
  {
    (a + b - 1) / b
  }

  /** The bound on the number of iterations for `first` clusters on the first one. */
  function MaxProbeIterations(first: nat, clusters: nat): nat {
    if first >= clusters then 1
    else 1 + CeilDiv(clusters - first, PARTITIONS_PER_FOLLOW_UP_ITERATION)
  }

  /** How many clusters of each row group are scheduled once `iterations` iterations are over and
      the next has begun. */
  function Scheduled(first: nat, iterations: nat): nat {
    first + PARTITIONS_PER_FOLLOW_UP_ITERATION * iterations
  }

  /** Computed with any `assumed` number of first clusters up to the real one, the bound covers all
      clusters; the operator computes it while that number still is 0. */
  lemma BoundCoversAllClusters(assumed: nat, first: nat, clusters: nat)
    requires assumed <= first
    ensures MaxProbeIterations(assumed, clusters) >= 1
    ensures Scheduled(first, MaxProbeIterations(assumed, clusters) - 1) >= clusters
  {
    if assumed < clusters {
      var left := clusters - assumed;
      assert 5 * ((left + 4) / 5) >= left;
    }
  }

  // ---------------------------------------------------------------- the operator's state

  /** Emit now: the heap is full of valid rows, or all partitions have been probed. */
  predicate ReadyToEmit(k: nat, size: nat, top: real, iterations: nat, maxIterations: nat) {
    (size == k && top != FLT_MAX) || iterations == maxIterations
  }

  /** `rest[i]`: the clusters task `i` has not been asked to probe yet, in access order. */
  datatype OpState =
    | Probing(core: State, rest: seq<seq<Cluster>>, iterations: nat)
    | Emitting(core: State, rest: seq<seq<Cluster>>, iterations: nat, result: seq<Candidate>)

  ghost predicate ValidRest(tasks: seq<Task>, rest: seq<seq<Cluster>>) {
    && |rest| == |tasks|
    && forall i, j :: 0 <= i < |rest| && 0 <= j < |rest[i]| ==>
         Fits(tasks[i].ctx, rest[i][j]) && Roomy(tasks[i].ctx, rest[i][j])
  }

  ghost predicate ValidOp(s: OpState) {
    ValidTasks(s.core.tasks) && ValidRest(s.core.tasks, s.rest)
  }

  /** Splits off the clusters of the next iteration. */
  function Batch(rest: seq<Cluster>): seq<Cluster> {
    rest[..Min(PARTITIONS_PER_FOLLOW_UP_ITERATION, |rest|)]
  }

  function Remaining(rest: seq<Cluster>): seq<Cluster> {
    rest[Min(PARTITIONS_PER_FOLLOW_UP_ITERATION, |rest|)..]
  }

  /** A search-iteration event gives each row group its next clusters. */
  ghost predicate NextIteration(s: OpState, s': OpState) {
    && s'.Probing? && |s'.core.tasks| == |s.core.tasks| == |s.rest| == |s'.rest|
    && s'.core.heap == s.core.heap && s'.core.lost == s.core.lost
    && forall i :: 0 <= i < |s.rest| ==>
         && s'.core.tasks[i] == s.core.tasks[i].(queue := Batch(s.rest[i]))
         && s'.rest[i] == Remaining(s.rest[i])
  }

  /** What `BuildResultSetFromHeap` may return. */
  ghost predicate IsResult(k: nat, h: Heap, result: seq<Candidate>) {
    exists proper, left ::
      WithoutTopElement(h, proper) && |result| == Min(|proper|, k) && Drained(proper, left, result)
  }

  /** A step of some task, or, when all are done, the end of the iteration. */
  ghost predicate OpNext(k: nat, maxIterations: nat, s: OpState, s': OpState)
    requires ValidOp(s)
  {
    s.Probing?
    && if !Done(s.core) then
         s'.Probing? && Next(k, s.core, s'.core) && s'.rest == s.rest && s'.iterations == s.iterations
       else if |s.core.heap| > 0
               && ReadyToEmit(k, |s.core.heap|, TopDistance(s.core.heap), s.iterations + 1, maxIterations) then
         && s'.Emitting? && s'.core == s.core && s'.rest == s.rest
         && s'.iterations == s.iterations + 1 && IsResult(k, s.core.heap, s'.result)
       else
         NextIteration(s, s') && s'.iterations == s.iterations + 1
  }

  // ---------------------------------------------------------------- what is still to come

  ghost function RestHeld(tasks: seq<Task>, rest: seq<seq<Cluster>>): seq<Heap>
    requires ValidRest(tasks, rest)
  {
    seq(|rest|, i requires 0 <= i < |rest| => QueueCandidates(tasks[i].ctx, rest[i]))
  }

  ghost function ToCome(s: OpState): Heap
    requires ValidOp(s)
  {
    Sum(RestHeld(s.core.tasks, s.rest))
  }

  lemma {:induction false} QueueSplit(ctx: Context, a: seq<Cluster>, b: seq<Cluster>)
    requires forall i :: 0 <= i < |a + b| ==> Fits(ctx, (a + b)[i])
    ensures (forall i :: 0 <= i < |a| ==> Fits(ctx, a[i])) && (forall i :: 0 <= i < |b| ==> Fits(ctx, b[i]))
    ensures QueueCandidates(ctx, a + b) == QueueCandidates(ctx, a) + QueueCandidates(ctx, b)
  {
    forall i | 0 <= i < |a| ensures Fits(ctx, a[i]) {
      assert (a + b)[i] == a[i];
    }
    forall i | 0 <= i < |b| ensures Fits(ctx, b[i]) {
      assert (a + b)[|a| + i] == b[i];
    }
    if a == [] {
      assert a + b == b;
    } else {
      assert (a + b)[1..] == a[1..] + b;
      QueueSplit(ctx, a[1..], b);
    }
  }

  lemma BatchAndRemaining(ctx: Context, rest: seq<Cluster>)
    requires forall i :: 0 <= i < |rest| ==> Fits(ctx, rest[i])
    ensures QueueCandidates(ctx, rest) == QueueCandidates(ctx, Batch(rest)) + QueueCandidates(ctx, Remaining(rest))
  {
    assert rest == Batch(rest) + Remaining(rest);
    QueueSplit(ctx, Batch(rest), Remaining(rest));
  }

  lemma {:induction false} SumOfSums(a: seq<Heap>, b: seq<Heap>, c: seq<Heap>)
    requires |a| == |b| == |c| && forall i :: 0 <= i < |a| ==> c[i] == a[i] + b[i]
    ensures Sum(c) == Sum(a) + Sum(b)
    decreases |a|
  {
    if a != [] {
      var n := |a| - 1;
      SumOfSums(a[..n], b[..n], c[..n]);
      Interchange(Sum(a[..n]), Sum(b[..n]), a[n], b[n]);
    }
  }

  lemma Interchange(a: Heap, b: Heap, c: Heap, d: Heap)
    ensures (a + b) + (c + d) == (a + c) + (b + d)
  {
  }

  // ---------------------------------------------------------------- the invariant

  /** How many clusters of each row group are still to come. */
  function LeftToSchedule(first: nat, clusters: nat, iterations: nat): nat {
    if Scheduled(first, iterations) >= clusters then 0 else clusters - Scheduled(first, iterations)
  }

  /** `total`: all selected candidates of the row groups with passing rows; `first` clusters are
      probed on the first iteration, each row group has `clusters`. */
  ghost predicate OpInv(k: nat, maxIterations: nat, first: nat, clusters: nat, total: Heap, s: OpState) {
    && ValidOp(s)
    && ToCome(s) <= total && Inv(k, s.core, total - ToCome(s)) && AllFinite(total)
    && (s.Probing? ==> s.iterations < maxIterations)
    && s.iterations <= maxIterations
    && (s.Probing? ==> forall i :: 0 <= i < |s.rest| ==> |s.rest[i]| == LeftToSchedule(first, clusters, s.iterations))
    && (s.Emitting? ==> CountsRight(k, multiset(s.result), total) && SortedByDistance(s.result)
                        && multiset(s.result) == Kept(s.core.heap))
  }

  lemma StepKeepsContexts(k: nat, core: State, core': State)
    requires ValidTasks(core.tasks) && Next(k, core, core')
    ensures |core'.tasks| == |core.tasks|
    ensures forall j :: 0 <= j < |core.tasks| ==> core'.tasks[j].ctx == core.tasks[j].ctx
  {
    var i, out :| 0 <= i < |core.tasks| && StepOf(k, core, i, core', out);
    TaskStepKeepsValid(k, core.tasks[i], core.heap, core'.tasks[i], core'.heap, out);
  }

  lemma SameRest(tasks: seq<Task>, tasks': seq<Task>, rest: seq<seq<Cluster>>)
    requires ValidRest(tasks, rest) && |tasks'| == |tasks|
    requires forall j :: 0 <= j < |tasks| ==> tasks'[j].ctx == tasks[j].ctx
    ensures ValidRest(tasks', rest) && RestHeld(tasks', rest) == RestHeld(tasks, rest)
  {
  }

  lemma StepKeepsToCome(k: nat, core: State, core': State, rest: seq<seq<Cluster>>)
    requires ValidTasks(core.tasks) && ValidRest(core.tasks, rest) && Next(k, core, core')
    ensures ValidRest(core'.tasks, rest) && RestHeld(core'.tasks, rest) == RestHeld(core.tasks, rest)
  {
    StepKeepsContexts(k, core, core');
    SameRest(core.tasks, core'.tasks, rest);
  }

  /** What an iteration schedules is exactly what is no longer to come. */
  lemma IterationMovesBatches(s: OpState, s': OpState)
    requires ValidOp(s) && NextIteration(s, s') && Done(s.core)
    ensures ValidOp(s') && ToCome(s) == HeldBy(s'.core.tasks) + ToCome(s')
  {
    forall i | 0 <= i < |s.rest|
      ensures ValidTask(s'.core.tasks[i]) && RoomyTask(s'.core.tasks[i])
      ensures RestHeld(s.core.tasks, s.rest)[i]
              == Held(s'.core.tasks[i]) + QueueCandidates(s.core.tasks[i].ctx, s'.rest[i])
    {
      BatchAndRemaining(s.core.tasks[i].ctx, s.rest[i]);
    }
    SumOfSums(Shares(s'.core.tasks), RestHeld(s'.core.tasks, s'.rest), RestHeld(s.core.tasks, s.rest));
  }

  /** Scheduling more clusters enlarges what the heap has to account for, and nothing else. */
  lemma ScheduleKeepsInv(k: nat, core: State, all: Heap, core': State)
    requires Inv(k, core, all) && Done(core) && ValidTasks(core'.tasks)
    requires core'.heap == core.heap && core'.lost == core.lost && AllFinite(HeldBy(core'.tasks))
    requires forall i :: 0 <= i < |core'.tasks| ==> core'.tasks[i].work.Idle?
    ensures Inv(k, core', all + HeldBy(core'.tasks))
  {
    DoneHoldsNothing(core);
    AddToBooks(core.heap, core.lost, all, HeldBy(core'.tasks));
  }

  lemma AddToBooks(h: Heap, lost: Heap, all: Heap, more: Heap)
    requires h + lost + multiset{} == all + multiset{SENTINEL}
    ensures h + lost + more == (all + more) + multiset{SENTINEL}
  {
    assert h + lost + more == (h + lost + multiset{}) + more;
  }

  lemma LessToCome(total: Heap, come: Heap, scheduled: Heap, come': Heap)
    requires come <= total && come == scheduled + come'
    ensures come' <= total && (total - come) + scheduled == total - come'
  {
  }

  lemma IterationKeepsInv(k: nat, maxIterations: nat, first: nat, clusters: nat, total: Heap, s: OpState, s': OpState)
    requires OpInv(k, maxIterations, first, clusters, total, s) && s.Probing? && Done(s.core)
    requires NextIteration(s, s') && s'.iterations == s.iterations + 1 && s.iterations + 1 != maxIterations
    ensures OpInv(k, maxIterations, first, clusters, total, s')
  {
    IterationMovesBatches(s, s');
    HeldIsFinite(s'.core.tasks);
    ScheduleKeepsInv(k, s.core, total - ToCome(s), s'.core);
    LessToCome(total, ToCome(s), HeldBy(s'.core.tasks), ToCome(s'));
  }

  // ---------------------------------------------------------------- emission

  lemma {:induction false} NothingToCome(s: OpState)
    requires ValidOp(s) && forall i :: 0 <= i < |s.rest| ==> s.rest[i] == []
    ensures ToCome(s) == multiset{}
  {
    SumOfEmpty(RestHeld(s.core.tasks, s.rest));
  }

  /** A result of the heap's proper elements, all of them. */
  lemma ResultIsAllKept(k: nat, core: State, all: Heap, result: seq<Candidate>)
    requires Inv(k, core, all) && IsResult(k, core.heap, result)
    ensures multiset(result) == Kept(core.heap) && SortedByDistance(result)
  {
    var proper, left :| WithoutTopElement(core.heap, proper) && |result| == Min(|proper|, k)
                        && Drained(proper, left, result);
    ResultIsKept(k, core.heap, core.lost, proper);
    assert |proper| <= |core.heap| <= k;
    NothingLeft(proper, left, result);
  }

  lemma NothingLeft(proper: Heap, left: Heap, result: seq<Candidate>)
    requires left + multiset(result) == proper && |result| == |proper|
    ensures multiset(result) == proper
  {
    assert |multiset(result)| == |result|;
    assert |left| == 0;
  }

  /** With the heap full of valid rows, more clusters cannot add to the number of rows. */
  lemma FullHeapCounts(k: nat, core: State, all: Heap, total: Heap)
    requires Inv(k, core, all) && Done(core) && all <= total && |core.heap| == k && TopDistance(core.heap) != FLT_MAX
    ensures CountsRight(k, Kept(core.heap), total)
  {
    DoneCounts(k, core, all);
    TopIsDistance(k, core, all);
    assert SENTINEL !in core.heap;
    assert Kept(core.heap) == core.heap;
    PartCounts(core.heap, all);
    PartCounts(all, total);
  }

  /** A heap that accounts for fewer than k candidates is never full of valid ones. */
  lemma NeverFull(k: nat, core: State, all: Heap, total: Heap)
    requires Inv(k, core, all) && Done(core) && all <= total && |total| < k
    ensures |core.heap| > 0 && !(|core.heap| == k && TopDistance(core.heap) != FLT_MAX)
  {
    if |core.heap| == k && TopDistance(core.heap) != FLT_MAX {
      FullHeapCounts(k, core, all, total);
      TopIsDistance(k, core, all);
      assert false;
    }
  }

  /** After an iteration the heap is full of valid rows exactly if the clusters probed hold k candidates. */
  lemma FullDecides(k: nat, core: State, all: Heap)
    ensures Inv(k, core, all) && Done(core) ==> IsFull(k, core.heap, |all| >= k)
  {
    if Inv(k, core, all) && Done(core) {
      if |all| < k {
        NeverFull(k, core, all, all);
      } else {
        DoneCounts(k, core, all);
        TopIsDistance(k, core, all);
        AllAreKept(k, core.heap, all);
      }
    }
  }

  ghost predicate IsFull(k: nat, h: Heap, full: bool) {
    |h| > 0 && (|h| == k && TopDistance(h) != FLT_MAX <==> full)
  }

  lemma AllAreKept(k: nat, h: Heap, all: Heap)
    requires CountsRight(k, Kept(h), all) && |all| >= k && |h| <= k
    ensures SENTINEL !in h && |h| == k
  {
    if SENTINEL in h {
      KeptIsFewer(h);
      assert false;
    }
    assert Kept(h) == h;
  }

  lemma KeptIsFewer(h: Heap)
    requires SENTINEL in h
    ensures |Kept(h)| < |h|
  {
  }

  lemma EmissionKeepsInv(k: nat, maxIterations: nat, first: nat, clusters: nat, total: Heap, s: OpState, s': OpState)
    requires OpInv(k, maxIterations, first, clusters, total, s) && s.Probing? && Done(s.core)
    requires Scheduled(first, maxIterations - 1) >= clusters
    requires ReadyToEmit(k, |s.core.heap|, TopDistance(s.core.heap), s.iterations + 1, maxIterations)
    requires s'.Emitting? && s'.core == s.core && s'.rest == s.rest && s'.iterations == s.iterations + 1
    requires IsResult(k, s.core.heap, s'.result)
    ensures OpInv(k, maxIterations, first, clusters, total, s')
  {
    var all := total - ToCome(s);
    ResultIsAllKept(k, s.core, all, s'.result);
    if s.iterations + 1 == maxIterations {
      NothingToCome(s);
      assert all == total;
      DoneCounts(k, s.core, total);
    } else {
      FullHeapCounts(k, s.core, all, total);
    }
    assert ToCome(s') == ToCome(s);
  }

  /** Every step of the operator keeps its invariant. */
  lemma OpStepKeepsInv(k: nat, maxIterations: nat, first: nat, clusters: nat, total: Heap, s: OpState, s': OpState)
    requires OpInv(k, maxIterations, first, clusters, total, s) && OpNext(k, maxIterations, s, s')
    requires Scheduled(first, maxIterations - 1) >= clusters
    ensures OpInv(k, maxIterations, first, clusters, total, s')
  {
    if !Done(s.core) {
      StepKeepsInv(k, s.core, s'.core, total - ToCome(s));
      StepKeepsToCome(k, s.core, s'.core, s.rest);
    } else if ReadyToEmit(k, |s.core.heap|, TopDistance(s.core.heap), s.iterations + 1, maxIterations) {
      EmissionKeepsInv(k, maxIterations, first, clusters, total, s, s');
    } else {
      IterationKeepsInv(k, maxIterations, first, clusters, total, s, s');
    }
  }

  // ---------------------------------------------------------------- runs

  /** The start: every row group is asked for its first clusters, the others are still to come. */
  ghost predicate OpInitial(k: nat, first: nat, clusters: nat, s: OpState) {
    && s.Probing? && s.iterations == 0 && Initial(k, s.core) && ValidRest(s.core.tasks, s.rest)
    && forall i :: 0 <= i < |s.rest| ==>
         && |s.core.tasks[i].queue| == Min(first, clusters)
         && |s.core.tasks[i].queue| + |s.rest[i]| == clusters
  }

  /** All selected candidates of the row groups. */
  ghost function Total(s: OpState): Heap
    requires ValidOp(s)
  {
    HeldBy(s.core.tasks) + ToCome(s)
  }

  lemma RestIsFinite(s: OpState)
    requires ValidOp(s)
    ensures AllFinite(ToCome(s))
  {
    forall i | 0 <= i < |s.rest| ensures AllFinite(RestHeld(s.core.tasks, s.rest)[i]) {
      QueueIsFinite(s.core.tasks[i].ctx, s.rest[i]);
    }
    SumIsFinite(RestHeld(s.core.tasks, s.rest));
  }

  lemma OpInitialInv(k: nat, maxIterations: nat, first: nat, clusters: nat, s: OpState)
    requires OpInitial(k, first, clusters, s) && maxIterations >= 1
    ensures OpInv(k, maxIterations, first, clusters, Total(s), s)
    ensures Ordered(s.core.heap, s.core.lost, 0.0)
  {
    InitialInv(k, s.core);
    RestIsFinite(s);
    assert Total(s) - ToCome(s) == HeldBy(s.core.tasks);
  }

  ghost predicate IsOpRun(k: nat, maxIterations: nat, run: seq<OpState>) {
    && |run| > 0
    && forall i :: 0 <= i < |run| - 1 ==> ValidOp(run[i]) && OpNext(k, maxIterations, run[i], run[i + 1])
  }

  lemma {:induction false} OpRunKeepsInv(k: nat, maxIterations: nat, first: nat, clusters: nat, total: Heap,
                                         run: seq<OpState>, n: nat)
    requires IsOpRun(k, maxIterations, run) && n < |run|
    requires OpInv(k, maxIterations, first, clusters, total, run[0])
    requires maxIterations >= 1 && Scheduled(first, maxIterations - 1) >= clusters
    ensures OpInv(k, maxIterations, first, clusters, total, run[n])
  {
    if n > 0 {
      OpRunKeepsInv(k, maxIterations, first, clusters, total, run, n - 1);
      OpStepKeepsInv(k, maxIterations, first, clusters, total, run[n - 1], run[n - 1 + 1]);
    }
  }

  /** Whatever the pruner, the schedule, the first probe count and the bound computed from any
      smaller count: when the operator emits, it emits exactly min(k, n) of the n passing candidates,
      nearest first, and it never ran more iterations than the bound. */
  lemma EveryFilteredScanCounts(k: nat, assumed: nat, first: nat, clusters: nat, run: seq<OpState>)
    requires assumed <= first
    requires IsOpRun(k, MaxProbeIterations(assumed, clusters), run) && OpInitial(k, first, clusters, run[0])
    requires run[|run| - 1].Emitting?
    ensures CountsRight(k, multiset(run[|run| - 1].result), Total(run[0]))
    ensures SortedByDistance(run[|run| - 1].result)
    ensures run[|run| - 1].iterations <= MaxProbeIterations(assumed, clusters)
  {
    var maxIterations := MaxProbeIterations(assumed, clusters);
    BoundCoversAllClusters(assumed, first, clusters);
    OpInitialInv(k, maxIterations, first, clusters, run[0]);
    OpRunKeepsInv(k, maxIterations, first, clusters, Total(run[0]), run, |run| - 1);
  }

  // ---------------------------------------------------------------- order

  /** The thresholds of all row groups are faithful for every distance a run can meet. */
  ghost predicate OpFaithful(s: OpState, total: Heap, slack: real) {
    AllFaithful(s.core.tasks, total, slack)
  }

  lemma FaithfulForFewer(tasks: seq<Task>, all: Heap, total: Heap, slack: real)
    requires AllFaithful(tasks, total, slack) && all <= total
    ensures AllFaithful(tasks, all, slack)
  {
    forall i, top | 0 <= i < |tasks| && IsDistance(all, top) ensures Faithful(tasks[i].ctx, top, slack) {
      assert IsDistance(total, top);
    }
  }

  lemma OpStepKeepsOrder(k: nat, maxIterations: nat, first: nat, clusters: nat, total: Heap, s: OpState, s': OpState,
                         slack: real)
    requires OpInv(k, maxIterations, first, clusters, total, s) && OpNext(k, maxIterations, s, s') && slack >= 0.0
    requires OpFaithful(s, total, slack) && Ordered(s.core.heap, s.core.lost, slack)
    ensures |s'.core.heap| > 0 && OpFaithful(s', total, slack) && Ordered(s'.core.heap, s'.core.lost, slack)
  {
    if !Done(s.core) {
      var all := total - ToCome(s);
      FaithfulForFewer(s.core.tasks, all, total, slack);
      StepKeepsOrder(k, s.core, s'.core, all, slack);
      NextKeepsFaithful(k, s.core, s'.core, total, slack);
    }
  }

  lemma NextKeepsFaithful(k: nat, s: State, s': State, total: Heap, slack: real)
    requires ValidTasks(s.tasks) && Next(k, s, s') && AllFaithful(s.tasks, total, slack)
    ensures AllFaithful(s'.tasks, total, slack)
  {
    var i, out :| 0 <= i < |s.tasks| && StepOf(k, s, i, s', out);
    StepKeepsFaithful(k, s, i, s', out, total, slack);
  }

  ghost predicate OpOrdered(k: nat, maxIterations: nat, first: nat, clusters: nat, total: Heap, s: OpState,
                            slack: real)
  {
    && OpInv(k, maxIterations, first, clusters, total, s)
    && OpFaithful(s, total, slack) && Ordered(s.core.heap, s.core.lost, slack)
  }

  lemma OpStepKeepsOrdered(k: nat, maxIterations: nat, first: nat, clusters: nat, total: Heap, s: OpState,
                           s': OpState, slack: real)
    requires OpOrdered(k, maxIterations, first, clusters, total, s, slack) && slack >= 0.0
    requires OpNext(k, maxIterations, s, s')
    requires maxIterations >= 1 && Scheduled(first, maxIterations - 1) >= clusters
    ensures OpOrdered(k, maxIterations, first, clusters, total, s', slack)
  {
    OpStepKeepsInv(k, maxIterations, first, clusters, total, s, s');
    OpStepKeepsOrder(k, maxIterations, first, clusters, total, s, s', slack);
  }

  lemma {:induction false} OpRunKeepsOrder(k: nat, maxIterations: nat, first: nat, clusters: nat, total: Heap,
                                           run: seq<OpState>, slack: real, n: nat)
    requires IsOpRun(k, maxIterations, run) && n < |run| && slack >= 0.0
    requires OpOrdered(k, maxIterations, first, clusters, total, run[0], slack)
    requires maxIterations >= 1 && Scheduled(first, maxIterations - 1) >= clusters
    ensures OpOrdered(k, maxIterations, first, clusters, total, run[n], slack)
  {
    if n > 0 {
      OpRunKeepsOrder(k, maxIterations, first, clusters, total, run, slack, n - 1);
      OpStepKeepsOrdered(k, maxIterations, first, clusters, total, run[n - 1], run[n - 1 + 1], slack);
    }
  }

  lemma DoneIsNearest(k: nat, core: State, all: Heap, slack: real)
    requires Inv(k, core, all) && Done(core) && Ordered(core.heap, core.lost, slack)
    ensures NearestUpTo(k, Kept(core.heap), all, slack)
  {
    DoneCounts(k, core, all);
    forall x, y | x in all - Kept(core.heap) && y in Kept(core.heap) ensures y.distance <= x.distance + slack {
      assert x in core.lost && y in core.heap;
    }
  }

  lemma {:induction false} EmittingIsDone(k: nat, maxIterations: nat, run: seq<OpState>, n: nat)
    requires IsOpRun(k, maxIterations, run) && n < |run| && run[0].Probing? && run[n].Emitting?
    ensures Done(run[n].core)
  {
    assert OpNext(k, maxIterations, run[n - 1], run[n - 1 + 1]);
  }

  /** With faithful thresholds, what the operator emits are the nearest of all passing candidates in
      the clusters it has probed. */
  lemma EveryFilteredScanIsNearest(k: nat, assumed: nat, first: nat, clusters: nat, run: seq<OpState>, slack: real)
    requires assumed <= first && slack >= 0.0
    requires IsOpRun(k, MaxProbeIterations(assumed, clusters), run) && OpInitial(k, first, clusters, run[0])
    requires run[|run| - 1].Emitting? && OpFaithful(run[0], Total(run[0]), slack)
    ensures var last := run[|run| - 1];
            ValidOp(last) && ToCome(last) <= Total(run[0])
            && NearestUpTo(k, multiset(last.result), Total(run[0]) - ToCome(last), slack)
  {
    var maxIterations, n := MaxProbeIterations(assumed, clusters), |run| - 1;
    BoundCoversAllClusters(assumed, first, clusters);
    OpInitialInv(k, maxIterations, first, clusters, run[0]);
    OpRunKeepsOrder(k, maxIterations, first, clusters, Total(run[0]), run, slack, n);
    EmittingIsDone(k, maxIterations, run, n);
    DoneIsNearest(k, run[n].core, Total(run[0]) - ToCome(run[n]), slack);
  }

  // ---------------------------------------------------------------- termination

  ghost function RestMeasure(tasks: seq<Task>, rest: seq<seq<Cluster>>): nat
    requires |tasks| == |rest|
  {
    if rest == [] then 0
    else RestMeasure(tasks[..|rest| - 1], rest[..|rest| - 1])
         + QueueMeasure(tasks[|rest| - 1].ctx, rest[|rest| - 1])
  }

  ghost function OpMeasure(maxIterations: nat, s: OpState): int
    requires ValidOp(s)
  {
    Measure(s.core.tasks) + RestMeasure(s.core.tasks, s.rest) + (maxIterations - s.iterations)
  }

  lemma {:induction false} QueueMeasureSplit(ctx: Context, a: seq<Cluster>, b: seq<Cluster>)
    ensures QueueMeasure(ctx, a + b) == QueueMeasure(ctx, a) + QueueMeasure(ctx, b)
  {
    if a == [] {
      assert a + b == b;
    } else {
      assert (a + b)[1..] == a[1..] + b;
      QueueMeasureSplit(ctx, a[1..], b);
    }
  }

  /** Scheduling moves work from what is to come to the tasks. */
  lemma {:induction false} BatchesMoveMeasure(tasks: seq<Task>, rest: seq<seq<Cluster>>, tasks': seq<Task>,
                                              rest': seq<seq<Cluster>>)
    requires |tasks| == |rest| == |tasks'| == |rest'| && ValidTasks(tasks) && ValidTasks(tasks')
    requires forall i :: 0 <= i < |rest| ==>
               && tasks[i].work.Idle? && tasks[i].queue == []
               && tasks'[i] == tasks[i].(queue := Batch(rest[i])) && rest'[i] == Remaining(rest[i])
    ensures Measure(tasks') + RestMeasure(tasks', rest') == Measure(tasks) + RestMeasure(tasks, rest)
    decreases |rest|
  {
    if rest != [] {
      var n := |rest| - 1;
      BatchesMoveMeasure(tasks[..n], rest[..n], tasks'[..n], rest'[..n]);
      assert rest[n] == Batch(rest[n]) + Remaining(rest[n]);
      QueueMeasureSplit(tasks[n].ctx, Batch(rest[n]), Remaining(rest[n]));
    }
  }

  lemma {:induction false} SameContextsSameRest(tasks: seq<Task>, tasks': seq<Task>, rest: seq<seq<Cluster>>)
    requires |tasks| == |tasks'| == |rest| && forall i :: 0 <= i < |tasks| ==> tasks'[i].ctx == tasks[i].ctx
    ensures RestMeasure(tasks', rest) == RestMeasure(tasks, rest)
    decreases |rest|
  {
    if rest != [] {
      var n := |rest| - 1;
      SameContextsSameRest(tasks[..n], tasks'[..n], rest[..n]);
    }
  }

  lemma NextKeepsContexts(k: nat, s: State, s': State)
    requires ValidTasks(s.tasks) && Next(k, s, s')
    ensures |s'.tasks| == |s.tasks| && forall i :: 0 <= i < |s.tasks| ==> s'.tasks[i].ctx == s.tasks[i].ctx
  {
    var i, out :| 0 <= i < |s.tasks| && StepOf(k, s, i, s', out);
    TaskStepKeepsValid(k, s.tasks[i], s.heap, s'.tasks[i], s'.heap, out);
  }

  lemma OpStepProgresses(k: nat, maxIterations: nat, s: OpState, s': OpState)
    requires ValidOp(s) && ValidOp(s') && OpNext(k, maxIterations, s, s')
    ensures OpMeasure(maxIterations, s') < OpMeasure(maxIterations, s)
  {
    if !Done(s.core) {
      StepProgresses(k, s.core, s'.core);
      NextKeepsContexts(k, s.core, s'.core);
      SameContextsSameRest(s.core.tasks, s'.core.tasks, s.rest);
    } else if s'.Probing? {
      BatchesMoveMeasure(s.core.tasks, s.rest, s'.core.tasks, s'.rest);
    }
  }

  /** The operator always ends: no run is longer than the measure of its first state. */
  lemma {:induction false} EveryFilteredScanEnds(k: nat, assumed: nat, first: nat, clusters: nat, run: seq<OpState>,
                                                 n: nat)
    requires assumed <= first && n < |run|
    requires IsOpRun(k, MaxProbeIterations(assumed, clusters), run) && OpInitial(k, first, clusters, run[0])
    ensures ValidOp(run[n])
    ensures n + OpMeasure(MaxProbeIterations(assumed, clusters), run[n])
            <= OpMeasure(MaxProbeIterations(assumed, clusters), run[0])
    ensures OpMeasure(MaxProbeIterations(assumed, clusters), run[n]) >= 0
  {
    var maxIterations := MaxProbeIterations(assumed, clusters);
    BoundCoversAllClusters(assumed, first, clusters);
    OpInitialInv(k, maxIterations, first, clusters, run[0]);
    OpRunKeepsInv(k, maxIterations, first, clusters, Total(run[0]), run, n);
    if n > 0 {
      EveryFilteredScanEnds(k, assumed, first, clusters, run, n - 1);
      OpStepProgresses(k, maxIterations, run[n - 1], run[n - 1 + 1]);
    }
  }

  // ---------------------------------------------------------------- progress

  lemma {:induction false} ListingExists(h: Heap) returns (result: seq<Candidate>)
    ensures multiset(result) == h && SortedByDistance(result)
    decreases |h|
  {
    if |h| == 0 {
      result := [];
    } else {
      TopExists(h);
      var x :| IsTop(h, x);
      var init := ListingExists(h - multiset{x});
      result := Appended(h, x, init);
    }
  }

  lemma Appended(h: Heap, x: Candidate, init: seq<Candidate>) returns (result: seq<Candidate>)
    requires IsTop(h, x) && multiset(init) == h - multiset{x} && SortedByDistance(init)
    ensures multiset(result) == h && SortedByDistance(result)
  {
    result := init + [x];
    assert multiset(result) == (h - multiset{x}) + multiset{x};
    forall i | 0 <= i < |init| ensures init[i].distance <= x.distance {
      assert init[i] in multiset(init);
    }
  }

  lemma ProperExists(h: Heap) returns (proper: Heap)
    ensures WithoutTopElement(h, proper) && |proper| <= |h|
  {
    proper := h;
    if |h| > 0 && TopDistance(h) == FLT_MAX {
      var top := TopDistance(h);
      var x :| IsTop(h, x) && x.distance == top;
      proper := h - multiset{x};
    }
  }

  lemma ResultExists(k: nat, core: State, all: Heap) returns (result: seq<Candidate>)
    requires Inv(k, core, all)
    ensures IsResult(k, core.heap, result)
  {
    var proper := ProperExists(core.heap);
    result := ListingExists(proper);
    WholeListing(proper, result);
  }

  lemma WholeListing(proper: Heap, result: seq<Candidate>)
    requires multiset(result) == proper && SortedByDistance(result)
    ensures |result| == |proper| && Drained(proper, multiset{}, result)
  {
    assert |multiset(result)| == |result|;
    assert multiset{} + multiset(result) == multiset(result);
  }

  /** As long as the operator has not emitted, it can go on. */
  lemma FilteredScanNeverStuck(k: nat, maxIterations: nat, first: nat, clusters: nat, total: Heap, s: OpState)
    requires OpInv(k, maxIterations, first, clusters, total, s) && s.Probing?
    ensures exists s' :: OpNext(k, maxIterations, s, s')
  {
    if !Done(s.core) {
      NeverStuck(k, s.core, total - ToCome(s));
      var core' :| Next(k, s.core, core');
      assert OpNext(k, maxIterations, s, Probing(core', s.rest, s.iterations));
    } else if ReadyToEmit(k, |s.core.heap|, TopDistance(s.core.heap), s.iterations + 1, maxIterations) {
      var result := ResultExists(k, s.core, total - ToCome(s));
      assert OpNext(k, maxIterations, s, Emitting(s.core, s.rest, s.iterations + 1, result));
    } else {
      var s' := AfterIteration(s);
      assert NextIteration(s, s');
      assert OpNext(k, maxIterations, s, s');
    }
  }

  ghost function AfterIteration(s: OpState): OpState
    requires |s.rest| == |s.core.tasks|
  {
    var n := |s.rest|;
    var tasks := seq(n, i requires 0 <= i < n => s.core.tasks[i].(queue := Batch(s.rest[i])));
    var rest := seq(n, i requires 0 <= i < n => Remaining(s.rest[i]));
    Probing(State(s.core.heap, tasks, s.core.lost), rest, s.iterations + 1)
  }
}
