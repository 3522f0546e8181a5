/** The bound on the number of search iterations as the operator computes it, before the number of
    clusters of the first iteration is set, against the one its documentation describes. */
module IterationBound {
  import opened Common
  import opened Distances
  import opened KnnHeap
  import opened SearchMachine
  import opened Interleaving
  import opened Exactness
  import opened ByteHeadroom
  import opened Schedules
  import opened Truncation
  import opened StoredScales
  import opened FilteredScan

  /** Both bounds agree exactly if there is nothing to probe or the first iteration probes no more than
      the last, incomplete follow-up iteration would. */
  lemma BoundsAgree(first: nat, clusters: nat)
    ensures MaxProbeIterations(0, clusters) == MaxProbeIterations(first, clusters)
            <==> clusters == 0 || first <= (clusters - 1) % PARTITIONS_PER_FOLLOW_UP_ITERATION
  {
    if 0 < clusters {
      var last := (clusters - 1) % 5;
      assert CeilDiv(clusters, 5) == (clusters - 1) / 5 + 1;
      if first < clusters {
        assert CeilDiv(clusters - first, 5) == (clusters - first - 1) / 5 + 1;
      }
    }
  }

  lemma EmitsAtBound(k: nat, maxIterations: nat, first: nat, clusters: nat, total: Heap, s: OpState, s': OpState)
    requires OpInv(k, maxIterations, first, clusters, total, s) && OpNext(k, maxIterations, s, s')
    requires s'.Emitting? && |total| < k
    ensures s'.iterations == maxIterations
  {
    NeverFull(k, s.core, total - ToCome(s), total);
  }

  /** With fewer than k passing rows the operator performs exactly as many iterations as the bound
      says, whatever the schedule. */
  lemma FewRowsTakeAllIterations(k: nat, assumed: nat, first: nat, clusters: nat, run: seq<OpState>)
    requires assumed <= first
    requires IsOpRun(k, MaxProbeIterations(assumed, clusters), run) && OpInitial(k, first, clusters, run[0])
    requires run[|run| - 1].Emitting? && |Total(run[0])| < k
    ensures run[|run| - 1].iterations == MaxProbeIterations(assumed, clusters)
  {
    var maxIterations, total, n := MaxProbeIterations(assumed, clusters), Total(run[0]), |run| - 2;
    BoundCoversAllClusters(assumed, first, clusters);
    OpInitialInv(k, maxIterations, first, clusters, run[0]);
    OpRunKeepsInv(k, maxIterations, first, clusters, total, run, n);
    EmitsAtBound(k, maxIterations, first, clusters, total, run[n], run[n + 1]);
  }

  // ---------------------------------------------------------------- runs up to the emission

  lemma AppendOp(k: nat, maxIterations: nat, run: seq<OpState>, s: OpState)
    requires IsOpRun(k, maxIterations, run) && ValidOp(run[|run| - 1]) && OpNext(k, maxIterations, run[|run| - 1], s)
    ensures IsOpRun(k, maxIterations, run + [s])
  {
    var longer := run + [s];
    forall i | 0 <= i < |longer| - 1 ensures ValidOp(longer[i]) && OpNext(k, maxIterations, longer[i], longer[i + 1]) {
      if i < |run| - 1 {
        assert ValidOp(run[i]) && OpNext(k, maxIterations, run[i], run[i + 1]);
      }
    }
  }

  /** A run that has not emitted goes on. */
  lemma OneMoreStep(k: nat, maxIterations: nat, first: nat, clusters: nat, total: Heap, run: seq<OpState>)
      returns (s': OpState)
    requires maxIterations >= 1 && Scheduled(first, maxIterations - 1) >= clusters
    requires IsOpRun(k, maxIterations, run) && OpInv(k, maxIterations, first, clusters, total, run[|run| - 1])
    requires run[|run| - 1].Probing?
    ensures IsOpRun(k, maxIterations, run + [s']) && OpInv(k, maxIterations, first, clusters, total, s')
    ensures ValidOp(run[|run| - 1]) && ValidOp(s')
    ensures 0 <= OpMeasure(maxIterations, s') < OpMeasure(maxIterations, run[|run| - 1])
  {
    var s := run[|run| - 1];
    FilteredScanNeverStuck(k, maxIterations, first, clusters, total, s);
    s' :| OpNext(k, maxIterations, s, s');
    OpStepKeepsInv(k, maxIterations, first, clusters, total, s, s');
    OpStepProgresses(k, maxIterations, s, s');
    AppendOp(k, maxIterations, run, s');
  }

  /** A run of the operator whose last state satisfies the invariant. */
  ghost predicate IsSoundRun(k: nat, maxIterations: nat, first: nat, clusters: nat, total: Heap, run: seq<OpState>) {
    && maxIterations >= 1 && Scheduled(first, maxIterations - 1) >= clusters
    && IsOpRun(k, maxIterations, run) && OpInv(k, maxIterations, first, clusters, total, run[|run| - 1])
  }

  /** Every run can be continued until the operator emits. */
  lemma {:induction false} RunToEmission(k: nat, maxIterations: nat, first: nat, clusters: nat, total: Heap,
                                         run: seq<OpState>, measure: nat)
      returns (run': seq<OpState>)
    requires IsSoundRun(k, maxIterations, first, clusters, total, run)
    requires OpMeasure(maxIterations, run[|run| - 1]) <= measure
    ensures IsOpRun(k, maxIterations, run') && run'[0] == run[0] && run'[|run'| - 1].Emitting?
    decreases measure
  {
    if run[|run| - 1].Emitting? {
      run' := run;
    } else {
      var s' := OneMoreStep(k, maxIterations, first, clusters, total, run);
      run' := RunToEmission(k, maxIterations, first, clusters, total, run + [s'], measure - 1);
    }
  }

  /** Every scan with fewer than k passing rows can come to an end with exactly the iterations of the
      bound it computes. */
  lemma BoundIsReached(k: nat, first: nat, clusters: nat, s: OpState) returns (run: seq<OpState>)
    requires OpInitial(k, first, clusters, s) && |Total(s)| < k
    ensures IsOpRun(k, MaxProbeIterations(0, clusters), run) && run[0] == s && run[|run| - 1].Emitting?
    ensures run[|run| - 1].iterations == MaxProbeIterations(0, clusters)
  {
    var maxIterations := MaxProbeIterations(0, clusters);
    BoundCoversAllClusters(0, first, clusters);
    OpInitialInv(k, maxIterations, first, clusters, s);
    var measure := OpMeasure(maxIterations, s);
    run := RunToEmission(k, maxIterations, first, clusters, Total(s), [s], if measure < 0 then 0 else measure);
    FewRowsTakeAllIterations(k, 0, first, clusters, run);
  }

  // ---------------------------------------------------------------- 480 clusters, 24 at first

  function EmptyCluster(): Cluster {
    Cluster([], [], [])
  }

  function Empties(n: nat): (queue: seq<Cluster>)
    ensures |queue| == n && forall i :: 0 <= i < n ==> queue[i] == EmptyCluster()
  {
    seq(n, i => EmptyCluster())
  }

  lemma {:induction false} EmptiesHoldNothing(ctx: Context, n: nat)
    ensures QueueCandidates(ctx, Empties(n)) == multiset{}
    decreases n
  {
    if n > 0 {
      assert Empties(n)[1..] == Empties(n - 1);
      assert Selected(EmptyCluster()) == [];
      EmptiesHoldNothing(ctx, n - 1);
    }
  }

  /** A context and a cluster with one passing row. */
  lemma OneRow(dims: nat, scale: Scale) returns (ctx: Context, c: Cluster)
    requires 1 <= dims <= PDX_MAX_DIMS && Sensible(scale)
    ensures Fits(ctx, c) && Roomy(ctx, c) && |Candidates(ctx, c, Selected(c))| == 1
  {
    OneSquare(dims, 0);
    ZerosAddNothing(Zeros(dims), 0, dims);
    PlainCluster(dims, scale, Ones(dims), 7, Zeros(dims), 0);
    ctx, c := Plain(U8, dims, scale, Ones(dims)), One(7, Zeros(dims));
  }

  lemma OneRowTask(ctx: Context, c: Cluster, n: nat)
    requires Fits(ctx, c) && Roomy(ctx, c) && |Candidates(ctx, c, Selected(c))| == 1
    ensures var t := Task(ctx, [c] + Empties(n), Idle); ValidTask(t) && RoomyTask(t) && |Held(t)| == 1
  {
    EmptiesHoldNothing(ctx, n);
    HeldFirst(ctx, c, Empties(n));
  }

  /** One row group with one passing row, in the first of its clusters. */
  lemma OneRowScan(first: nat, clusters: nat, ctx: Context, c: Cluster) returns (s: OpState)
    requires 1 <= first <= clusters && Fits(ctx, c) && Roomy(ctx, c) && |Candidates(ctx, c, Selected(c))| == 1
    ensures OpInitial(2, first, clusters, s) && |Total(s)| == 1
  {
    var t := Task(ctx, [c] + Empties(first - 1), Idle);
    var rest := Empties(clusters - first);
    OneRowTask(ctx, c, first - 1);
    s := Probing(State(multiset{SENTINEL}, [t], multiset{}), [rest], 0);
    assert ValidTasks([t]);
    OneRowTotal(s, t, rest);
  }

  lemma OneRowTotal(s: OpState, t: Task, rest: seq<Cluster>)
    requires s.core.tasks == [t] && s.rest == [rest] && rest == Empties(|rest|) && ValidOp(s)
    ensures ValidTask(t) && Total(s) == Held(t)
  {
    EmptiesHoldNothing(t.ctx, |rest|);
    SumOfOne(Interleaving.Shares(s.core.tasks));
    SumOfOne(RestHeld(s.core.tasks, s.rest));
  }

  lemma BoundsOf480()
    ensures MaxProbeIterations(24, 480) == 93 && MaxProbeIterations(0, 480) == 97
  {
  }

  /** A scan that performs 97 iterations where the documentation bounds them by 93. */
  lemma MoreIterationsThanDocumented() returns (run: seq<OpState>)
    ensures IsOpRun(2, MaxProbeIterations(0, 480), run) && OpInitial(2, 24, 480, run[0])
    ensures run[|run| - 1].Emitting? && run[|run| - 1].iterations == 97 && MaxProbeIterations(24, 480) == 93
  {
    BoundsOf480();
    assert FLT_MAX >= 281474976710656.0;
    var ctx, c := OneRow(1, Scale(1.0, 1.0));
    var s := OneRowScan(24, 480, ctx, c);
    run := BoundIsReached(2, 24, 480, s);
  }
}
