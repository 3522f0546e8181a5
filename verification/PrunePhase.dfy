/** The pruning phase over one cluster: the selected vectors are judged, then the survivors go through
    the horizontal blocks and the rest of the vertical part. Every method is proved to be a local
    run of the search machine, whatever the other tasks merge at each critical section. */
module PrunePhase {
  import opened Common
  import opened Distances
  import opened KnnHeap
  import opened Layout
  import opened Kernels
  import opened SearchMachine
  import opened LocalRuns
  import opened SharedHeaps
  import opened PruneSteps

  // ---------------------------------------------------------------- steps of the machine

  /** A threshold read at `heap`, judged afterwards. */
  lemma ReadAndJudge(k: nat, start: Origin, ctx: Context, queue: seq<Cluster>, c: Cluster, v: nat, h: nat,
                     alive: seq<nat>, heap: Heap)
    requires var t := Task(ctx, queue, Reading(c, v, h, alive));
             ValidTask(t) && |heap| > 0 && Leads(k, start, Moment(t, heap))
    ensures var t' := Task(ctx, queue, AfterJudging(ctx, c, v, h, Sieve(ctx, c, v, h, TopDistance(heap), alive, true)));
            ValidTask(t') && Leads(k, start, Moment(t', heap))
  {
    var t := Task(ctx, queue, Reading(c, v, h, alive));
    var top := TopDistance(heap);
    var t1 := Task(ctx, queue, Judging(c, v, h, alive, top));
    LeadsByOwnStep(k, start, Moment(t, heap), t1, heap, multiset{});
    var t2 := Task(ctx, queue, AfterJudging(ctx, c, v, h, Sieve(ctx, c, v, h, top, alive, true)));
    LeadsByOwnStep(k, start, Moment(t1, heap), t2, heap, Candidates(ctx, c, Sieve(ctx, c, v, h, top, alive, false)));
  }

  /** The positions that survive a checkpoint still have the distances of that checkpoint. */
  lemma SieveCovered(ctx: Context, c: Cluster, alive: seq<nat>, v: nat, h: nat, top: real, distances: seq<int>)
    requires Fits(ctx, c) && v <= ctx.V && h <= ctx.H && ValidAlive(c, alive) && Covers(ctx, c, alive, v, h, distances)
    ensures Covers(ctx, c, Sieve(ctx, c, v, h, top, alive, true), v, h, distances)
  {
    var kept := Sieve(ctx, c, v, h, top, alive, true);
    forall i | 0 <= i < |kept| ensures distances[kept[i]] == Partial(ctx, c.vecs[kept[i]], v, h) {
      assert kept[i] in alive;
    }
  }

  // ---------------------------------------------------------------- what becomes of each vector

  /** At the checkpoint `v`, `h` the task reads `heap` with the vectors in `alive` still in play. */
  ghost predicate ReadAt(ctx: Context, c: Cluster, k: nat, start: Origin, queue: seq<Cluster>, v: nat, h: nat,
                         alive: seq<nat>, heap: Heap) {
    && IsCheckpoint(ctx, v, h) && |heap| > 0
    && Leads(k, start, Moment(Task(ctx, queue, Reading(c, v, h, alive)), heap))
  }

  /** Vector `p` was in play at that checkpoint, and its distance so far met the threshold read there. */
  ghost predicate MetThreshold(ctx: Context, c: Cluster, k: nat, start: Origin, queue: seq<Cluster>, p: nat, v: nat,
                               h: nat, alive: seq<nat>, heap: Heap)
    requires Fits(ctx, c) && p < |c.vecs|
  {
    && ReadAt(ctx, c, k, start, queue, v, h, alive, heap) && p in alive
    && Partial(ctx, c.vecs[p], v, h) as real >= Threshold(ctx, TopDistance(heap), v + h)
  }

  ghost predicate DroppedAtCheckpoint(ctx: Context, c: Cluster, k: nat, start: Origin, queue: seq<Cluster>, p: nat)
    requires Fits(ctx, c) && p < |c.vecs|
  {
    exists v, h, alive, heap :: MetThreshold(ctx, c, k, start, queue, p, v, h, alive, heap)
  }

  /** Every selected vector that is no longer in play was dropped at a checkpoint. */
  ghost predicate DropsExplained(ctx: Context, c: Cluster, k: nat, start: Origin, queue: seq<Cluster>, alive: seq<nat>)
    requires Fits(ctx, c)
  {
    forall p: nat :: p < |c.vecs| && c.sel[p] && p !in alive ==> DroppedAtCheckpoint(ctx, c, k, start, queue, p)
  }

  /** All of `alive` are below the threshold derived from the top that was read at `v`, `h`. */
  ghost predicate BelowThreshold(ctx: Context, c: Cluster, k: nat, start: Origin, queue: seq<Cluster>, v: nat, h: nat,
                                 alive: seq<nat>)
    requires Fits(ctx, c) && ValidAlive(c, alive) && v <= ctx.V && h <= ctx.H
  {
    exists before, heap :: ReadAt(ctx, c, k, start, queue, v, h, before, heap)
                           && AllBelow(ctx, c, v, h, TopDistance(heap), alive)
  }

  ghost predicate AllBelow(ctx: Context, c: Cluster, v: nat, h: nat, top: real, alive: seq<nat>)
    requires Fits(ctx, c) && ValidAlive(c, alive) && v <= ctx.V && h <= ctx.H
  {
    forall i :: 0 <= i < |alive| ==> Partial(ctx, c.vecs[alive[i]], v, h) as real < Threshold(ctx, top, v + h)
  }

  lemma {:induction false} SievedOrMet(ctx: Context, c: Cluster, v: nat, h: nat, top: real, alive: seq<nat>, p: nat)
    requires Fits(ctx, c) && v <= ctx.V && h <= ctx.H && ValidAlive(c, alive) && p in alive
    ensures p in Sieve(ctx, c, v, h, top, alive, true) || !Survives(ctx, c, v, h, top, p)
    decreases |alive|
  {
    var n := |alive| - 1;
    if p != alive[n] {
      SievedOrMet(ctx, c, v, h, top, alive[..n], p);
    }
  }

  /** A judgement explains what it drops. */
  lemma JudgementExplains(ctx: Context, c: Cluster, k: nat, start: Origin, queue: seq<Cluster>, v: nat, h: nat,
                          alive: seq<nat>, heap: Heap)
    requires Fits(ctx, c) && v <= ctx.V && h <= ctx.H && ValidAlive(c, alive)
    requires ReadAt(ctx, c, k, start, queue, v, h, alive, heap)
    requires DropsExplained(ctx, c, k, start, queue, alive)
    ensures var kept := Sieve(ctx, c, v, h, TopDistance(heap), alive, true);
            && DropsExplained(ctx, c, k, start, queue, kept)
            && BelowThreshold(ctx, c, k, start, queue, v, h, kept)
  {
    var top := TopDistance(heap);
    var kept := Sieve(ctx, c, v, h, top, alive, true);
    forall p: nat | p < |c.vecs| && c.sel[p] && p !in kept ensures DroppedAtCheckpoint(ctx, c, k, start, queue, p) {
      if p in alive {
        SievedOrMet(ctx, c, v, h, top, alive, p);
        assert MetThreshold(ctx, c, k, start, queue, p, v, h, alive, heap);
      }
    }
    assert AllBelow(ctx, c, v, h, top, kept);
  }

  lemma {:induction false} SelectedIsIn(c: Cluster, n: nat, p: nat)
    requires p < n <= |c.sel| && c.sel[p]
    ensures p in SelectedBelow(c, n)
    decreases n
  {
    if p < n - 1 {
      SelectedIsIn(c, n - 1, p);
    }
  }

  /** Before the first judgement every selected vector is in play. */
  lemma NothingDroppedYet(ctx: Context, c: Cluster, k: nat, start: Origin, queue: seq<Cluster>)
    requires Fits(ctx, c)
    ensures DropsExplained(ctx, c, k, start, queue, Selected(c))
  {
    forall p: nat | p < |c.vecs| && c.sel[p] ensures p in Selected(c) {
      SelectedIsIn(c, |c.sel|, p);
    }
  }

  // ---------------------------------------------------------------- the pruning phase

  /** Compacting the positions against a threshold just read is a judgement. */
  lemma CheckpointJudges(ctx: Context, c: Cluster, k: nat, v: nat, h: nat, alive: seq<nat>, kept: seq<nat>,
                         distances: seq<int>, threshold: real, heap: Heap, start: Origin, queue: seq<Cluster>)
    requires IsCheckpoint(ctx, v, h) && |heap| > 0
    requires var t := Task(ctx, queue, Reading(c, v, h, alive)); ValidTask(t) && Leads(k, start, Moment(t, heap))
    requires Covers(ctx, c, alive, v, h, distances) && Increasing(alive)
    requires DropsExplained(ctx, c, k, start, queue, alive)
    requires threshold == Threshold(ctx, TopDistance(heap), v + h) && kept == Compacted(alive, distances, threshold)
    ensures Judged(ctx, c, k, v, h, kept, distances, heap, start, queue)
  {
    var top := TopDistance(heap);
    CompactedIsSieve(ctx, c, alive, v, h, distances, top);
    ReadAndJudge(k, start, ctx, queue, c, v, h, alive, heap);
    JudgementExplains(ctx, c, k, start, queue, v, h, alive, heap);
    SieveCovered(ctx, c, alive, v, h, top, distances);
    SieveIncreases(ctx, c, v, h, top, alive);
  }

  /** The threshold read and the compaction, whatever the task. */
  method ReadAndCompact(ctx: Context, k: nat, dim: nat, n: nat, positions: array<nat>, distances: array<int>,
                        heap: SharedHeap, ghost start: Origin, ghost t: Task, ghost alive: seq<nat>,
                        ghost ds: seq<int>)
      returns (notPruned: nat, threshold: real)
    requires n <= positions.Length && dim <= ctx.D && alive == positions[..n] && ds == distances[..]
    requires heap.ValidFor(start) && Leads(k, start, Moment(t, heap.items))
    requires forall i :: 0 <= i < n ==> positions[i] < distances.Length
    modifies positions, heap
    ensures heap.ValidFor(start) && |heap.items| > 0 && Leads(k, start, Moment(t, heap.items))
    ensures notPruned <= n && distances[..] == ds
    ensures threshold == Threshold(ctx, TopDistance(heap.items), dim)
    ensures positions[..notPruned] == Compacted(alive, ds, threshold)
  {
    ghost var top;
    threshold, top := heap.GetPruningThreshold(k, ctx, dim, start, t);
    assert positions[..n] == alive;
    notPruned := EvaluatePruningPredicateOnPositionsArray(n, positions, threshold, distances);
  }

  /** Reads the threshold for the dimensions visited so far and compacts the positions. */
  method Checkpoint(ctx: Context, ghost c: Cluster, k: nat, v: nat, h: nat, n: nat, positions: array<nat>,
                    distances: array<int>, heap: SharedHeap, ghost start: Origin, ghost queue: seq<Cluster>)
      returns (notPruned: nat)
    requires n <= positions.Length && heap.ValidFor(start) && IsCheckpoint(ctx, v, h)
    requires var t := Task(ctx, queue, Reading(c, v, h, positions[..n]));
             ValidTask(t) && Leads(k, start, Moment(t, heap.items))
    requires Covers(ctx, c, positions[..n], v, h, distances[..]) && Increasing(positions[..n])
    requires DropsExplained(ctx, c, k, start, queue, positions[..n])
    modifies positions, heap
    ensures heap.ValidFor(start) && notPruned <= n && distances[..] == old(distances[..])
    ensures Judged(ctx, c, k, v, h, positions[..notPruned], distances[..], heap.items, start, queue)
  {
    ghost var alive, ds := positions[..n], distances[..];
    ghost var t := Task(ctx, queue, Reading(c, v, h, alive));
    assert forall i :: 0 <= i < n ==> positions[i] == alive[i];
    var threshold;
    notPruned, threshold := ReadAndCompact(ctx, k, v + h, n, positions, distances, heap, start, t, alive, ds);
    ghost var kept, items := positions[..notPruned], heap.items;
    CheckpointJudges(ctx, c, k, v, h, alive, kept, ds, threshold, items, start, queue);
  }

  /** The distance of the stored vector `p` in the horizontal block `h`. */
  method HorizontalDistance(ctx: Context, st: StoredCluster, h: nat, p: nat) returns (d: nat)
    requires ValidStored(ctx, st) && p < |st.ids| && h < ctx.H && h % H_DIM_SIZE == 0 && h + H_DIM_SIZE <= ctx.H
    ensures d == Span(ShapeOf(ctx, st), ctx.query, st.data, p, ctx.V + h, ctx.V + h + H_DIM_SIZE)
  {
    if ctx.quant.U8? {
      SpanFits(ctx, st, p, ctx.V + h, ctx.V + h + H_DIM_SIZE);
    }
    d := HorizontalOfBlock(ShapeOf(ctx, st), ctx.query, st.data, p, h);
  }

  /** Adds the horizontal block `h` to the distances of the surviving positions. */
  method AddHorizontalBlock(ctx: Context, st: StoredCluster, h: nat, alive: seq<nat>, distances: array<int>)
    requires ValidStored(ctx, st) && h < ctx.H && h % H_DIM_SIZE == 0 && h + H_DIM_SIZE <= ctx.H
    requires ValidTargets(ShapeOf(ctx, st), alive)
    requires NoOverflow(ctx.quant, alive,
                        Gain(ShapeOf(ctx, st), ctx.query, st.data, ctx.V + h, ctx.V + h + H_DIM_SIZE), distances[..])
    modifies distances
    ensures Raised(alive, Gain(ShapeOf(ctx, st), ctx.query, st.data, ctx.V + h, ctx.V + h + H_DIM_SIZE),
                   old(distances[..]), distances[..])
  {
    ghost var gain := Gain(ShapeOf(ctx, st), ctx.query, st.data, ctx.V + h, ctx.V + h + H_DIM_SIZE);
    ghost var before := distances[..];
    var i := 0;
    while i < |alive|
      invariant i <= |alive| && Raised(alive[..i], gain, before, distances[..])
    {
      var p := alive[i];
      var d := HorizontalDistance(ctx, st, h, p);
      NextTargetFits(ctx.quant, alive, i, gain, before, distances[..]);
      RaisedOneMore(alive, i, gain, before, distances[..]);
      AddTo(ctx.quant, distances, p, d);
      i := i + 1;
    }
    assert alive[..i] == alive;
  }

  lemma IncreasingTargets(ctx: Context, st: StoredCluster, alive: seq<nat>)
    requires Increasing(alive) && forall i :: 0 <= i < |alive| ==> alive[i] < |st.ids|
    ensures ValidTargets(ShapeOf(ctx, st), alive)
  {
  }

  /** A checkpoint where pruning stops in the vertical part lies on a boundary of the layout. */
  lemma CheckpointOnBoundary(ctx: Context, st: StoredCluster, v: nat, h: nat)
    requires IsCheckpoint(ctx, v, h)
    ensures OnBoundary(ShapeOf(ctx, st), v)
  {
    var i: nat, j: nat :| CheckpointFrom(ctx, v, h, i, j);
    FetchStopAligned(ctx.V, i);
    StretchAligned(FetchStop(ctx.V, i), j, ctx.V);
  }

  lemma StretchAligned(w: nat, j: nat, V: nat)
    requires w % U8_INTERLEAVE_SIZE == 0 || w == V
    ensures var v := Min(w + j * H_DIM_SIZE, V); v % U8_INTERLEAVE_SIZE == 0 || v == V
  {
  }

  /** Whole horizontal blocks fit. */
  lemma NextBlockFits(ctx: Context, h: nat)
    requires h < ctx.H && h % H_DIM_SIZE == 0
    ensures h + H_DIM_SIZE <= ctx.H
  {
  }

  /** What holds after each judgement at `v` and `h`. */
  ghost predicate Judged(ctx: Context, c: Cluster, k: nat, v: nat, h: nat, alive: seq<nat>, distances: seq<int>,
                         heap: Heap, start: Origin, queue: seq<Cluster>)
    requires Fits(ctx, c)
  {
    && v <= ctx.V && h <= ctx.H && IsCheckpoint(ctx, v, h)
    && ValidAlive(c, alive) && Increasing(alive) && Covers(ctx, c, alive, v, h, distances)
    && DropsExplained(ctx, c, k, start, queue, alive) && BelowThreshold(ctx, c, k, start, queue, v, h, alive)
    && var t := Task(ctx, queue, AfterJudging(ctx, c, v, h, alive));
       ValidTask(t) && Leads(k, start, Moment(t, heap))
  }

  ghost predicate PruneInvariant(ctx: Context, st: StoredCluster, sel: seq<bool>, k: nat, v: nat, h: nat, n: nat,
                                 positions: array<nat>, distances: array<int>, heap: SharedHeap, start: Origin,
                                 queue: seq<Cluster>)
    requires ValidStored(ctx, st) && |sel| == |st.ids|
    reads positions, distances, heap
  {
    && heap.ValidFor(start) && n <= |st.ids| <= positions.Length && |st.ids| <= distances.Length
    && Judged(ctx, View(ctx, st, sel), k, v, h, positions[..n], distances[..], heap.items, start, queue)
  }

  /** Judges the selected vectors with the distances of the warmup phase. */
  method FirstCheckpoint(ctx: Context, st: StoredCluster, filtered: bool, sel: seq<bool>, k: nat, dim: nat,
                         positions: array<nat>, distances: array<int>, heap: SharedHeap, ghost start: Origin,
                         ghost queue: seq<Cluster>)
      returns (notPruned: nat)
    requires ValidStored(ctx, st) && |sel| == |st.ids| <= positions.Length && |st.ids| <= distances.Length
    requires !filtered ==> forall p :: 0 <= p < |sel| ==> sel[p]
    requires dim <= ctx.V && heap.ValidFor(start)
    requires var c := View(ctx, st, sel); var t := Task(ctx, queue, Reading(c, dim, 0, Selected(c)));
             && ValidTask(t) && Leads(k, start, Moment(t, heap.items))
             && forall p :: 0 <= p < |sel| && sel[p] ==> distances[p] == Partial(ctx, c.vecs[p], dim, 0)
    modifies positions, heap
    ensures PruneInvariant(ctx, st, sel, k, dim, 0, notPruned, positions, distances, heap, start, queue)
  {
    ghost var c := View(ctx, st, sel);
    ghost var alive := Selected(c);
    ghost var t := Task(ctx, queue, Reading(c, dim, 0, alive));
    var threshold;
    ghost var top;
    threshold, top := heap.GetPruningThreshold(k, ctx, dim + 0, start, t);
    notPruned := InitPositionsArray(|st.ids|, positions, threshold, distances, filtered, sel);
    FirstJudgement(ctx, c, dim, distances[..], top);
    ReadAndJudge(k, start, ctx, queue, c, dim, 0, alive, heap.items);
    NothingDroppedYet(ctx, c, k, start, queue);
    JudgementExplains(ctx, c, k, start, queue, dim, 0, alive, heap.items);
    assert forall i :: 0 <= i < notPruned ==> positions[i] == positions[..notPruned][i];
  }

  lemma FirstJudgement(ctx: Context, c: Cluster, dim: nat, distances: seq<int>, top: real)
    requires Fits(ctx, c) && dim <= ctx.V && |c.vecs| <= |distances|
    requires forall p :: 0 <= p < |c.sel| && c.sel[p] ==> distances[p] == Partial(ctx, c.vecs[p], dim, 0)
    ensures var kept := Sieve(ctx, c, dim, 0, top, Selected(c), true);
            && Passing(distances, c.sel, Threshold(ctx, top, dim + 0), |c.sel|) == kept
            && Increasing(kept) && Covers(ctx, c, kept, dim, 0, distances)
  {
    PassingIsSieve(ctx, c, dim, distances, top, |c.sel|);
    SelectedIncreases(c, |c.sel|);
    SieveIncreases(ctx, c, dim, 0, top, Selected(c));
    SieveCovered(ctx, c, Selected(c), dim, 0, top, distances);
  }

  /** Extends the distances of the survivors by the horizontal block `h`. */
  method VisitBlock(ctx: Context, st: StoredCluster, ghost sel: seq<bool>, ghost v: nat, h: nat, alive: seq<nat>,
                    distances: array<int>)
    requires ValidStored(ctx, st) && |sel| == |st.ids| && ValidAlive(View(ctx, st, sel), alive) && Increasing(alive)
    requires v <= ctx.V && h + H_DIM_SIZE <= ctx.H && h % H_DIM_SIZE == 0
    requires Covers(ctx, View(ctx, st, sel), alive, v, h, distances[..])
    modifies distances
    ensures Covers(ctx, View(ctx, st, sel), alive, v, h + H_DIM_SIZE, distances[..])
    ensures KeptOutside(alive, old(distances[..]), distances[..])
  {
    ghost var before := distances[..];
    IncreasingTargets(ctx, st, alive);
    SurvivorsFit(ctx, st, sel, alive, v, h, v, h + H_DIM_SIZE, before);
    AddHorizontalBlock(ctx, st, h, alive, distances);
    CoversMore(ctx, st, sel, alive, v, h, v, h + H_DIM_SIZE, before, distances[..]);
    RaisedKeepsOthers(alive, Added(ctx, st, v, h, v, h + H_DIM_SIZE), before, distances[..]);
  }

  /** Extends the distances of the survivors by the vertical dimensions v .. v'. */
  method VisitStretch(ctx: Context, st: StoredCluster, ghost sel: seq<bool>, v: nat, v': nat, ghost h: nat,
                      alive: seq<nat>, distances: array<int>)
    requires ValidStored(ctx, st) && |sel| == |st.ids| && ValidAlive(View(ctx, st, sel), alive) && Increasing(alive)
    requires v < v' <= ctx.V && h <= ctx.H
    requires OnBoundary(ShapeOf(ctx, st), v) && OnBoundary(ShapeOf(ctx, st), v')
    requires Covers(ctx, View(ctx, st, sel), alive, v, h, distances[..])
    modifies distances
    ensures Covers(ctx, View(ctx, st, sel), alive, v', h, distances[..])
  {
    ghost var before := distances[..];
    IncreasingTargets(ctx, st, alive);
    SurvivorsFit(ctx, st, sel, alive, v, h, v', h, before);
    assert alive[..|alive|] == alive;
    Vertical(ShapeOf(ctx, st), ctx.query, st.data, |alive|, v, v', distances, true, alive);
    CoversMore(ctx, st, sel, alive, v, h, v', h, before, distances[..]);
  }

  /** Visits one more horizontal block and judges. */
  method HorizontalStep(ctx: Context, st: StoredCluster, sel: seq<bool>, k: nat, v: nat, h: nat, n: nat,
                        positions: array<nat>, distances: array<int>, heap: SharedHeap, ghost start: Origin,
                        ghost queue: seq<Cluster>)
      returns (notPruned: nat)
    requires ValidStored(ctx, st) && |sel| == |st.ids| && n != 0 && h < ctx.H
    requires PruneInvariant(ctx, st, sel, k, v, h, n, positions, distances, heap, start, queue)
    modifies positions, distances, heap
    ensures h + H_DIM_SIZE <= ctx.H
    ensures PruneInvariant(ctx, st, sel, k, v, h + H_DIM_SIZE, notPruned, positions, distances, heap, start, queue)
  {
    var alive := positions[..n];
    NextBlockFits(ctx, h);
    NextCheckpoint(ctx, v, h);
    VisitBlock(ctx, st, sel, v, h, alive, distances);
    assert positions[..n] == alive;
    notPruned := Checkpoint(ctx, View(ctx, st, sel), k, v, h + H_DIM_SIZE, n, positions, distances, heap, start, queue);
  }

  /** Visits one more stretch of the vertical part and judges. */
  method VerticalStep(ctx: Context, st: StoredCluster, sel: seq<bool>, k: nat, v: nat, h: nat, n: nat,
                      positions: array<nat>, distances: array<int>, heap: SharedHeap, ghost start: Origin,
                      ghost queue: seq<Cluster>)
      returns (notPruned: nat)
    requires ValidStored(ctx, st) && |sel| == |st.ids| && n != 0 && v < ctx.V && h == ctx.H
    requires PruneInvariant(ctx, st, sel, k, v, h, n, positions, distances, heap, start, queue)
    modifies positions, distances, heap
    ensures var v' := Min(v + H_DIM_SIZE, ctx.V);
            PruneInvariant(ctx, st, sel, k, v', h, notPruned, positions, distances, heap, start, queue)
  {
    var alive := positions[..n];
    var v' := Min(v + H_DIM_SIZE, ctx.V);
    NextCheckpoint(ctx, v, h);
    CheckpointOnBoundary(ctx, st, v, h);
    CheckpointOnBoundary(ctx, st, v', h);
    VisitStretch(ctx, st, sel, v, v', h, alive, distances);
    assert positions[..n] == alive;
    notPruned := Checkpoint(ctx, View(ctx, st, sel), k, v', h, n, positions, distances, heap, start, queue);
  }

  lemma AllCovered(ctx: Context, c: Cluster, alive: seq<nat>, distances: seq<int>)
    requires Fits(ctx, c) && ValidAlive(c, alive) && Covers(ctx, c, alive, ctx.V, ctx.H, distances)
    ensures forall i :: 0 <= i < |alive| ==> distances[alive[i]] == Full(ctx, c.vecs[alive[i]])
  {
    forall i | 0 <= i < |alive| ensures distances[alive[i]] == Full(ctx, c.vecs[alive[i]]) {
      PartialBelowFull(ctx, c.vecs[alive[i]], ctx.V, ctx.H);
    }
  }

  /** `Prune`: judges the selected vectors at the dimensions warmed up, then goes through the
      horizontal blocks and the rest of the vertical part, judging the survivors after each. */
  method Prune(ctx: Context, st: StoredCluster, filtered: bool, sel: seq<bool>, k: nat, dim: nat,
               positions: array<nat>, distances: array<int>, heap: SharedHeap, ghost start: Origin,
               ghost queue: seq<Cluster>)
      returns (notPruned: nat)
    requires ValidStored(ctx, st) && |sel| == |st.ids| <= positions.Length && |st.ids| <= distances.Length
    requires !filtered ==> forall p :: 0 <= p < |sel| ==> sel[p]
    requires dim <= ctx.V && heap.ValidFor(start)
    requires var c := View(ctx, st, sel); var t := Task(ctx, queue, Reading(c, dim, 0, Selected(c)));
             && ValidTask(t) && Leads(k, start, Moment(t, heap.items))
             && forall p :: 0 <= p < |sel| && sel[p] ==> distances[p] == Partial(ctx, c.vecs[p], dim, 0)
    modifies positions, distances, heap
    ensures Pruned(ctx, st, sel, k, notPruned, positions, distances, heap, start, queue)
  {
    notPruned := FirstCheckpoint(ctx, st, filtered, sel, k, dim, positions, distances, heap, start, queue);
    var h;
    h, notPruned := PruneHorizontal(ctx, st, sel, k, dim, notPruned, positions, distances, heap, start, queue);
    notPruned := PruneVertical(ctx, st, sel, k, dim, h, notPruned, positions, distances, heap, start, queue);
  }

  /** The horizontal blocks, as long as something survives. */
  method PruneHorizontal(ctx: Context, st: StoredCluster, sel: seq<bool>, k: nat, v: nat, n: nat,
                         positions: array<nat>, distances: array<int>, heap: SharedHeap, ghost start: Origin,
                         ghost queue: seq<Cluster>)
      returns (h: nat, notPruned: nat)
    requires ValidStored(ctx, st) && |sel| == |st.ids|
    requires PruneInvariant(ctx, st, sel, k, v, 0, n, positions, distances, heap, start, queue)
    modifies positions, distances, heap
    ensures PruneInvariant(ctx, st, sel, k, v, h, notPruned, positions, distances, heap, start, queue)
    ensures notPruned != 0 ==> h == ctx.H
  {
    h, notPruned := 0, n;
    var currentDimension := v;
    while ctx.H != 0 && notPruned != 0 && h < ctx.H
      invariant h <= ctx.H && currentDimension == v + h
      invariant PruneInvariant(ctx, st, sel, k, v, h, notPruned, positions, distances, heap, start, queue)
      decreases ctx.H - h
    {
      notPruned := HorizontalStep(ctx, st, sel, k, v, h, notPruned, positions, distances, heap, start, queue);
      h := h + H_DIM_SIZE;
      currentDimension := currentDimension + H_DIM_SIZE;
      assert currentDimension == v + h;
    }
  }

  /** The rest of the vertical part, as long as something survives. */
  method PruneVertical(ctx: Context, st: StoredCluster, sel: seq<bool>, k: nat, dim: nat, h: nat, n: nat,
                       positions: array<nat>, distances: array<int>, heap: SharedHeap, ghost start: Origin,
                       ghost queue: seq<Cluster>)
      returns (notPruned: nat)
    requires ValidStored(ctx, st) && |sel| == |st.ids| && (n != 0 ==> h == ctx.H)
    requires PruneInvariant(ctx, st, sel, k, dim, h, n, positions, distances, heap, start, queue)
    modifies positions, distances, heap
    ensures Pruned(ctx, st, sel, k, notPruned, positions, distances, heap, start, queue)
  {
    notPruned := n;
    var v, currentDimension := dim, dim + h;
    while notPruned != 0 && v < ctx.V
      invariant currentDimension == v + h && (notPruned != 0 ==> h == ctx.H)
      invariant PruneInvariant(ctx, st, sel, k, v, h, notPruned, positions, distances, heap, start, queue)
      decreases ctx.V - v
    {
      notPruned := VerticalStep(ctx, st, sel, k, v, h, notPruned, positions, distances, heap, start, queue);
      v := Min(v + H_DIM_SIZE, ctx.V);
      currentDimension := Min(currentDimension + H_DIM_SIZE, ctx.D);
      assert currentDimension == v + h;
      if currentDimension == ctx.D {
        break;
      }
    }
    FinishPrune(ctx, st, sel, k, v, h, notPruned, positions, distances, heap, start, queue);
  }

  /** After the pruning phase: the survivors are in order, their distances are complete and below the
      threshold read at the last dimension, and they are about to be merged; every other selected
      vector met a threshold at a checkpoint. */
  ghost predicate Pruned(ctx: Context, st: StoredCluster, sel: seq<bool>, k: nat, n: nat, positions: array<nat>,
                         distances: array<int>, heap: SharedHeap, start: Origin, queue: seq<Cluster>)
    requires ValidStored(ctx, st) && |sel| == |st.ids|
    reads positions, distances, heap
  {
    && heap.ValidFor(start) && n <= |st.ids| <= positions.Length && |st.ids| <= distances.Length
    && (forall i :: 0 <= i < n ==> positions[i] < |st.ids|)
    && Increasing(positions[..n])
    && var c := View(ctx, st, sel);
       var t := Task(ctx, queue, if n == 0 then Idle else Merging(c, positions[..n]));
       && ValidTask(t) && Leads(k, start, Moment(t, heap.items))
       && (forall i :: 0 <= i < n ==> distances[positions[i]] == Full(ctx, c.vecs[positions[i]]))
       && DropsExplained(ctx, c, k, start, queue, positions[..n])
       && ValidAlive(c, positions[..n])
       && (n != 0 ==> BelowThreshold(ctx, c, k, start, queue, ctx.V, ctx.H, positions[..n]))
  }

  lemma FinishPrune(ctx: Context, st: StoredCluster, sel: seq<bool>, k: nat, v: nat, h: nat, n: nat,
                    positions: array<nat>, distances: array<int>, heap: SharedHeap, start: Origin,
                    queue: seq<Cluster>)
    requires ValidStored(ctx, st) && |sel| == |st.ids| && (n != 0 ==> h == ctx.H && v == ctx.V)
    requires PruneInvariant(ctx, st, sel, k, v, h, n, positions, distances, heap, start, queue)
    ensures Pruned(ctx, st, sel, k, n, positions, distances, heap, start, queue)
  {
    if n != 0 {
      AllCovered(ctx, View(ctx, st, sel), positions[..n], distances[..]);
      assert forall i :: 0 <= i < n ==> positions[i] == positions[..n][i];
    } else {
      assert positions[..n] == [];
    }
  }
}
