/** When the filtered scan stops: after the least number of iterations whose clusters hold k passing
    candidates, or at the bound, whatever the schedule. */
module Stopping {
  import opened Common
  import opened KnnHeap
  import opened Multisets
  import opened SearchMachine
  import opened Interleaving
  import opened FilteredScan
  import opened IterationBound

  // ---------------------------------------------------------------- the bound

  /** The bound is the least number of iterations in which `assumed` clusters, then five at a time, are all
      of them. */
  lemma BoundIsLeast(assumed: nat, clusters: nat, m: nat)
    requires m >= 1
    ensures m >= MaxProbeIterations(assumed, clusters) <==> assumed + 5 * (m - 1) >= clusters
  {
    if assumed < clusters {
      CeilDivIsLeast(clusters - assumed, m - 1);
    }
  }

  lemma CeilDivIsLeast(a: nat, n: nat)
    ensures n >= CeilDiv(a, 5) <==> 5 * n >= a
  {
  }

  // ---------------------------------------------------------------- the clusters of each iteration

  /** All clusters of row group `i`, in the order in which they are probed. */
  function ClustersOf(s: OpState, i: nat): seq<Cluster>
    requires i < |s.core.tasks| == |s.rest|
  {
    s.core.tasks[i].queue + s.rest[i]
  }

  /** The first `first` clusters and five more for each of `n` follow-up iterations, as far as there are
      any. */
  function FirstOf(all: seq<Cluster>, first: nat, n: nat): seq<Cluster> {
    all[..Min(first + 5 * n, |all|)]
  }

  function RestOf(all: seq<Cluster>, first: nat, n: nat): seq<Cluster> {
    all[Min(first + 5 * n, |all|)..]
  }

  /** The passing candidates in the clusters of each row group that are scheduled after `n` follow-up
      iterations. */
  ghost function After(s: OpState, first: nat, n: nat): seq<Heap>
    requires ValidOp(s)
  {
    seq(|s.rest|, i requires 0 <= i < |s.rest| =>
      (FitAll(s, i); QueueCandidates(s.core.tasks[i].ctx, FirstOf(ClustersOf(s, i), first, n))))
  }

  /** How many they are in all. */
  ghost function CountAfter(s: OpState, first: nat, n: nat): nat
    requires ValidOp(s)
  {
    |Sum(After(s, first, n))|
  }

  lemma FitAll(s: OpState, i: nat)
    requires ValidOp(s) && i < |s.rest|
    ensures forall j :: 0 <= j < |ClustersOf(s, i)| ==> Fits(s.core.tasks[i].ctx, ClustersOf(s, i)[j])
  {
    assert ValidTask(s.core.tasks[i]);
  }

  /** The state `s` stands where these clusters have been scheduled. */
  ghost predicate StandsAt(s0: OpState, s: OpState, first: nat, n: nat) {
    && |s.core.tasks| == |s.rest| == |s0.rest| == |s0.core.tasks|
    && forall i :: 0 <= i < |s0.rest| ==> GroupStandsAt(s0, s, first, n, i)
  }

  ghost predicate GroupStandsAt(s0: OpState, s: OpState, first: nat, n: nat, i: nat)
    requires i < |s.core.tasks| == |s.rest| == |s0.rest| == |s0.core.tasks|
  {
    s.core.tasks[i].ctx == s0.core.tasks[i].ctx && s.rest[i] == RestOf(ClustersOf(s0, i), first, n)
  }

  lemma StartStandsAt(k: nat, first: nat, clusters: nat, s: OpState)
    requires OpInitial(k, first, clusters, s)
    ensures StandsAt(s, s, first, 0)
  {
    forall i | 0 <= i < |s.rest| ensures GroupStandsAt(s, s, first, 0, i) {
      var all, queue := ClustersOf(s, i), s.core.tasks[i].queue;
      assert |queue| == Min(first, clusters) && |all| == clusters;
      assert all[|queue|..] == s.rest[i];
    }
  }

  lemma NextFive(all: seq<Cluster>, first: nat, n: nat, rest: seq<Cluster>)
    requires rest == RestOf(all, first, n)
    ensures Remaining(rest) == RestOf(all, first, n + 1)
  {
  }

  lemma TaskStepStands(k: nat, s0: OpState, s: OpState, s': OpState, first: nat, n: nat)
    requires ValidTasks(s.core.tasks) && Next(k, s.core, s'.core) && s'.rest == s.rest && StandsAt(s0, s, first, n)
    ensures StandsAt(s0, s', first, n)
  {
    StepKeepsContexts(k, s.core, s'.core);
    forall i | 0 <= i < |s0.rest| ensures GroupStandsAt(s0, s', first, n, i) {
      assert GroupStandsAt(s0, s, first, n, i);
    }
  }

  /** The end of an iteration schedules five more. */
  lemma IterationStands(s0: OpState, s: OpState, s': OpState, first: nat, n: nat)
    requires NextIteration(s, s') && StandsAt(s0, s, first, n)
    ensures StandsAt(s0, s', first, n + 1)
  {
    var m := n + 1;
    forall i | 0 <= i < |s0.rest| ensures GroupStandsAt(s0, s', first, m, i) {
      assert GroupStandsAt(s0, s, first, n, i);
      NextFive(ClustersOf(s0, i), first, n, s.rest[i]);
    }
  }

  lemma StepStands(k: nat, maxIterations: nat, s0: OpState, s: OpState, s': OpState, first: nat)
    requires ValidOp(s) && OpNext(k, maxIterations, s, s') && s'.Probing? && StandsAt(s0, s, first, s.iterations)
    ensures StandsAt(s0, s', first, s'.iterations)
  {
    if !Done(s.core) {
      TaskStepStands(k, s0, s, s', first, s.iterations);
    } else {
      IterationStands(s0, s, s', first, s.iterations);
    }
  }

  // ---------------------------------------------------------------- what the heap accounts for

  lemma GroupSplits(s0: OpState, s: OpState, first: nat, n: nat, i: nat)
    requires ValidOp(s0) && ValidOp(s) && StandsAt(s0, s, first, n)
    requires i < |s0.rest| && s0.core.tasks[i].work.Idle?
    ensures Held(s0.core.tasks[i]) + RestHeld(s0.core.tasks, s0.rest)[i]
            == After(s0, first, n)[i] + RestHeld(s.core.tasks, s.rest)[i]
  {
    FitAll(s0, i);
    assert GroupStandsAt(s0, s, first, n, i);
    QueueSplit(s0.core.tasks[i].ctx, s0.core.tasks[i].queue, s0.rest[i]);
    FirstAndRest(s0.core.tasks[i].ctx, ClustersOf(s0, i), first, n);
  }

  lemma FirstAndRest(ctx: Context, all: seq<Cluster>, first: nat, n: nat)
    requires forall i :: 0 <= i < |all| ==> Fits(ctx, all[i])
    ensures QueueCandidates(ctx, all)
            == QueueCandidates(ctx, FirstOf(all, first, n)) + QueueCandidates(ctx, RestOf(all, first, n))
  {
    assert all == FirstOf(all, first, n) + RestOf(all, first, n);
    QueueSplit(ctx, FirstOf(all, first, n), RestOf(all, first, n));
  }

  /** What is not to come any more are the candidates in the clusters scheduled. */
  lemma ScheduledIsAccounted(s0: OpState, s: OpState, first: nat, n: nat)
    requires ValidOp(s0) && ValidOp(s) && StandsAt(s0, s, first, n)
    requires forall i :: 0 <= i < |s0.core.tasks| ==> s0.core.tasks[i].work.Idle?
    ensures Total(s0) == Sum(After(s0, first, n)) + ToCome(s)
  {
    var before, after := RestHeld(s0.core.tasks, s0.rest), RestHeld(s.core.tasks, s.rest);
    var all := seq(|s0.rest|, i requires 0 <= i < |s0.rest| => After(s0, first, n)[i] + after[i]);
    forall i | 0 <= i < |s0.rest| ensures all[i] == Shares(s0.core.tasks)[i] + before[i] {
      GroupSplits(s0, s, first, n, i);
    }
    SumOfSums(Shares(s0.core.tasks), before, all);
    SumOfSums(After(s0, first, n), after, all);
  }

  lemma PartIsRest(total: Heap, part: Heap, come: Heap)
    requires total == part + come
    ensures total - come == part
  {
  }

  lemma AccountedCount(s0: OpState, s: OpState, first: nat, n: nat)
    requires ValidOp(s0) && ValidOp(s) && StandsAt(s0, s, first, n)
    requires forall i :: 0 <= i < |s0.core.tasks| ==> s0.core.tasks[i].work.Idle?
    ensures |Total(s0) - ToCome(s)| == CountAfter(s0, first, n)
  {
    ScheduledIsAccounted(s0, s, first, n);
    PartIsRest(Total(s0), Sum(After(s0, first, n)), ToCome(s));
  }

  lemma SoundIsFull(k: nat, maxIterations: nat, first: nat, clusters: nat, total: Heap, s: OpState, count: nat)
    requires ValidOp(s) && |total - ToCome(s)| == count
    ensures OpInv(k, maxIterations, first, clusters, total, s) && Done(s.core) ==> IsFull(k, s.core.heap, count >= k)
  {
    FullDecides(k, s.core, total - ToCome(s));
  }

  /** At the end of an iteration the heap is full of valid rows exactly if the clusters scheduled hold k
      candidates. */
  lemma IterationDecides(k: nat, maxIterations: nat, first: nat, clusters: nat, s0: OpState, s: OpState)
    requires ValidOp(s0) && ValidOp(s) && StandsAt(s0, s, first, s.iterations)
    requires forall i :: 0 <= i < |s0.core.tasks| ==> s0.core.tasks[i].work.Idle?
    ensures OpInv(k, maxIterations, first, clusters, Total(s0), s) && Done(s.core)
            ==> IsFull(k, s.core.heap, CountAfter(s0, first, s.iterations) >= k)
  {
    AccountedCount(s0, s, first, s.iterations);
    SoundIsFull(k, maxIterations, first, clusters, Total(s0), s, CountAfter(s0, first, s.iterations));
  }

  // ---------------------------------------------------------------- runs

  ghost predicate IsScan(k: nat, maxIterations: nat, first: nat, clusters: nat, run: seq<OpState>) {
    && IsOpRun(k, maxIterations, run) && OpInitial(k, first, clusters, run[0])
    && maxIterations >= 1 && Scheduled(first, maxIterations - 1) >= clusters
  }

  lemma StartOfScan(k: nat, maxIterations: nat, first: nat, clusters: nat, run: seq<OpState>)
    ensures IsScan(k, maxIterations, first, clusters, run)
            ==> ValidOp(run[0]) && StandsAt(run[0], run[0], first, 0) && run[0].iterations == 0
                && forall i :: 0 <= i < |run[0].core.tasks| ==> run[0].core.tasks[i].work.Idle?
  {
    if IsScan(k, maxIterations, first, clusters, run) {
      StartStandsAt(k, first, clusters, run[0]);
    }
  }

  lemma ScanIsSound(k: nat, maxIterations: nat, first: nat, clusters: nat, run: seq<OpState>, n: nat)
    ensures IsScan(k, maxIterations, first, clusters, run) && n < |run|
            ==> ValidOp(run[0]) && OpInv(k, maxIterations, first, clusters, Total(run[0]), run[n])
  {
    if IsScan(k, maxIterations, first, clusters, run) && n < |run| {
      OpInitialInv(k, maxIterations, first, clusters, run[0]);
      OpRunKeepsInv(k, maxIterations, first, clusters, Total(run[0]), run, n);
    }
  }

  lemma ScanStep(k: nat, maxIterations: nat, first: nat, clusters: nat, run: seq<OpState>, n: nat)
    ensures IsScan(k, maxIterations, first, clusters, run) && n + 1 < |run|
            ==> ValidOp(run[n]) && OpNext(k, maxIterations, run[n], run[n + 1])
  {
  }

  lemma {:induction false} ScanStands(k: nat, maxIterations: nat, first: nat, clusters: nat, run: seq<OpState>, n: nat)
    requires IsScan(k, maxIterations, first, clusters, run) && n < |run| && run[n].Probing?
    ensures StandsAt(run[0], run[n], first, run[n].iterations)
    decreases n
  {
    if n == 0 {
      StartOfScan(k, maxIterations, first, clusters, run);
    } else {
      ScanStep(k, maxIterations, first, clusters, run, n - 1);
      ScanStands(k, maxIterations, first, clusters, run, n - 1);
      StepStands(k, maxIterations, run[0], run[n - 1], run[n], first);
    }
  }

  lemma ScanDecides(k: nat, maxIterations: nat, first: nat, clusters: nat, run: seq<OpState>, n: nat)
    requires IsScan(k, maxIterations, first, clusters, run) && n < |run| && run[n].Probing?
    ensures ValidOp(run[0]) && run[n].iterations < maxIterations
    ensures Done(run[n].core) ==> IsFull(k, run[n].core.heap, CountAfter(run[0], first, run[n].iterations) >= k)
  {
    StartOfScan(k, maxIterations, first, clusters, run);
    ScanIsSound(k, maxIterations, first, clusters, run, n);
    ScanStands(k, maxIterations, first, clusters, run, n);
    IterationDecides(k, maxIterations, first, clusters, run[0], run[n]);
  }

  /** In none of these did the clusters scheduled hold enough. */
  ghost predicate NotYet(k: nat, first: nat, s0: OpState, n: nat)
    requires ValidOp(s0)
  {
    forall i: nat :: i < n ==> CountAfter(s0, first, i) < k
  }

  lemma NotYetOneMore(k: nat, first: nat, s0: OpState, n: nat)
    ensures ValidOp(s0) && NotYet(k, first, s0, n) && CountAfter(s0, first, n) < k ==> NotYet(k, first, s0, n + 1)
  {
  }

  lemma StepGoesOn(k: nat, maxIterations: nat, s: OpState, s': OpState, count: nat)
    requires ValidOp(s) && OpNext(k, maxIterations, s, s') && (Done(s.core) ==> IsFull(k, s.core.heap, count >= k))
    ensures s'.Probing? ==> s'.iterations == s.iterations || (s'.iterations == s.iterations + 1 && count < k)
    ensures s'.Emitting? ==> s'.iterations == s.iterations + 1 && (s'.iterations == maxIterations || count >= k)
  {
  }

  lemma ScanMovesOn(k: nat, maxIterations: nat, first: nat, clusters: nat, run: seq<OpState>, n: nat)
    requires IsScan(k, maxIterations, first, clusters, run) && n + 1 < |run| && run[n + 1].Probing?
    ensures ValidOp(run[0]) && run[n].Probing?
    ensures run[n + 1].iterations == run[n].iterations
            || (run[n + 1].iterations == run[n].iterations + 1 && CountAfter(run[0], first, run[n].iterations) < k)
  {
    ScanStep(k, maxIterations, first, clusters, run, n);
    ScanDecides(k, maxIterations, first, clusters, run, n);
    StepGoesOn(k, maxIterations, run[n], run[n + 1], CountAfter(run[0], first, run[n].iterations));
  }

  lemma {:induction false} ScanGoesOn(k: nat, maxIterations: nat, first: nat, clusters: nat, run: seq<OpState>, n: nat)
    requires IsScan(k, maxIterations, first, clusters, run) && n < |run| && run[n].Probing?
    ensures ValidOp(run[0]) && NotYet(k, first, run[0], run[n].iterations)
    decreases n
  {
    StartOfScan(k, maxIterations, first, clusters, run);
    if n > 0 {
      ScanMovesOn(k, maxIterations, first, clusters, run, n - 1);
      ScanGoesOn(k, maxIterations, first, clusters, run, n - 1);
      NotYetOneMore(k, first, run[0], run[n - 1].iterations);
    }
  }

  lemma EmittedScan(k: nat, maxIterations: nat, first: nat, clusters: nat, run: seq<OpState>, n: nat)
    requires IsScan(k, maxIterations, first, clusters, run) && n + 2 == |run| && run[n + 1].Emitting?
    ensures ValidOp(run[0]) && run[n + 1].iterations == run[n].iterations + 1 <= maxIterations
    ensures NotYet(k, first, run[0], run[n].iterations)
    ensures run[n + 1].iterations == maxIterations || CountAfter(run[0], first, run[n].iterations) >= k
  {
    ScanStep(k, maxIterations, first, clusters, run, n);
    ScanDecides(k, maxIterations, first, clusters, run, n);
    StepGoesOn(k, maxIterations, run[n], run[n + 1], CountAfter(run[0], first, run[n].iterations));
    ScanGoesOn(k, maxIterations, first, clusters, run, n);
  }

  /** Under every schedule, an emitting run has performed exactly the least number of iterations in which
      the clusters scheduled, `first` of each row group and then five at a time, hold k passing
      candidates; or the bound, if there is no such number below it. `j` of them are follow-up
      iterations. */
  lemma EmitsAsSoonAsFull(k: nat, assumed: nat, first: nat, clusters: nat, run: seq<OpState>) returns (j: nat)
    requires assumed <= first
    requires IsOpRun(k, MaxProbeIterations(assumed, clusters), run) && OpInitial(k, first, clusters, run[0])
    requires run[|run| - 1].Emitting?
    ensures ValidOp(run[0]) && run[|run| - 1].iterations == j + 1 <= MaxProbeIterations(assumed, clusters)
    ensures forall i: nat :: i < j ==> CountAfter(run[0], first, i) < k
    ensures j + 1 == MaxProbeIterations(assumed, clusters) || CountAfter(run[0], first, j) >= k
  {
    BoundCoversAllClusters(assumed, first, clusters);
    EmittedScan(k, MaxProbeIterations(assumed, clusters), first, clusters, run, |run| - 2);
    j := run[|run| - 2].iterations;
  }
}
