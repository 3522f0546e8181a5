/** The warmup phase over one cluster: groups of vertical dimensions are scanned for all vectors
    until few enough would survive. Nothing is dropped here. */
module WarmupPhase {
  import opened Common
  import opened Distances
  import opened KnnHeap
  import opened Layout
  import opened Kernels
  import opened SearchMachine
  import opened LocalRuns
  import opened SharedHeaps
  import opened PruneSteps

  /** All distances, masked ones included, cover the first `dim` dimensions. */
  ghost predicate WarmedUp(ctx: Context, c: Cluster, dim: nat, distances: seq<int>)
    requires Fits(ctx, c) && dim <= ctx.V
  {
    |c.vecs| <= |distances| && forall p :: 0 <= p < |c.vecs| ==> distances[p] == WarmupDistance(ctx, c, dim, p)
  }

  method ResetPruningDistances(n: nat, distances: array<int>)
    requires n <= distances.Length
    modifies distances
    ensures forall p :: 0 <= p < n ==> distances[p] == 0
  {
    var p := 0;
    while p < n
      invariant p <= n && forall q :: 0 <= q < p ==> distances[q] == 0
    {
      distances[p] := 0;
      p := p + 1;
    }
  }

  method MaskDistancesWithSelectionVector(ctx: Context, n: nat, distances: array<int>, sel: seq<bool>)
    requires n <= distances.Length && n == |sel|
    modifies distances
    ensures forall p :: 0 <= p < n ==> distances[p] == if sel[p] then old(distances[p]) else MaskValue(ctx)
  {
    ghost var before := distances[..];
    var p := 0;
    while p < n
      invariant p <= n
      invariant forall q :: 0 <= q < p ==> distances[q] == if sel[q] then before[q] else MaskValue(ctx)
      invariant forall q :: p <= q < n ==> distances[q] == before[q]
    {
      if !sel[p] {
        distances[p] := MaskValue(ctx);
      }
      p := p + 1;
    }
  }

  /** How many of the first `n` distances reach the threshold. */
  function Reaching(distances: seq<int>, threshold: real, n: nat): nat
    requires n <= |distances|
  {
    if n == 0 then 0
    else Reaching(distances, threshold, n - 1) + (if distances[n - 1] as real >= threshold then 1 else 0)
  }

  lemma {:induction false} ReachingAreCounted(distances: seq<int>, threshold: real, n: nat)
    requires n <= |distances|
    ensures Reaching(distances, threshold, n) == |set p | 0 <= p < n && distances[p] as real >= threshold|
    decreases n
  {
    if n > 0 {
      ReachingAreCounted(distances, threshold, n - 1);
      var fewer := set p | 0 <= p < n - 1 && distances[p] as real >= threshold;
      assert (set p | 0 <= p < n && distances[p] as real >= threshold)
             == if distances[n - 1] as real >= threshold then fewer + {n - 1} else fewer;
    }
  }

  method EvaluatePruningPredicateScalar(n: nat, distances: array<int>, threshold: real) returns (count: nat)
    requires n <= distances.Length
    ensures count == Reaching(distances[..], threshold, n)
    ensures count == |set p | 0 <= p < n && distances[..][p] as real >= threshold|
  {
    ReachingAreCounted(distances[..], threshold, n);
    count := 0;
    var p := 0;
    while p < n
      invariant p <= n && count == Reaching(distances[..], threshold, p)
    {
      count := count + (if distances[p] as real >= threshold then 1 else 0);
      p := p + 1;
    }
  }

  lemma {:induction false} ReachingIsPrunable(ctx: Context, c: Cluster, dim: nat, top: real, distances: seq<int>, n: nat)
    requires Fits(ctx, c) && dim <= ctx.V && WarmedUp(ctx, c, dim, distances) && n <= |c.vecs|
    ensures Reaching(distances, Threshold(ctx, top, dim), n) == PrunableBelow(ctx, c, dim, top, n)
  {
    if n > 0 {
      ReachingIsPrunable(ctx, c, dim, top, distances, n - 1);
    }
  }

  // ---------------------------------------------------------------- one group of dimensions

  lemma MaskFits(ctx: Context)
    ensures ctx.quant.U8? ==> MaskValue(ctx) == UINT32_MAX / 2
  {
  }

  /** Adding a group of dimensions to all vectors never wraps, not even on masked entries. */
  lemma WarmupFits(ctx: Context, st: StoredCluster, sel: seq<bool>, dim: nat, dim': nat, before: seq<int>)
    requires ValidStored(ctx, st) && |sel| == |st.ids| && dim <= dim' <= ctx.V
    requires WarmedUp(ctx, View(ctx, st, sel), dim, before)
    ensures NoOverflow(ctx.quant, Iota(|st.ids|), Gain(ShapeOf(ctx, st), ctx.query, st.data, dim, dim'), before)
  {
    var s, c := ShapeOf(ctx, st), View(ctx, st, sel);
    if ctx.quant.U8? {
      forall p | 0 <= p < |st.ids|
        ensures 0 <= before[p] && before[p] + Span(s, ctx.query, st.data, p, dim, dim') < UINT32_RANGE
      {
        SqDistSplit(ctx.query, c.vecs[p], 0, dim, dim');
        SpanFits(ctx, st, p, 0, dim');
        MaskFits(ctx);
      }
    }
  }

  lemma WarmedUpMore(ctx: Context, st: StoredCluster, sel: seq<bool>, dim: nat, dim': nat, before: seq<int>,
                     after: seq<int>)
    requires ValidStored(ctx, st) && |sel| == |st.ids| && dim <= dim' <= ctx.V
    requires WarmedUp(ctx, View(ctx, st, sel), dim, before)
    requires Raised(Iota(|st.ids|), Gain(ShapeOf(ctx, st), ctx.query, st.data, dim, dim'), before, after)
    ensures WarmedUp(ctx, View(ctx, st, sel), dim', after)
  {
    var c := View(ctx, st, sel);
    var targets := Iota(|st.ids|);
    forall p | 0 <= p < |c.vecs| ensures after[p] == WarmupDistance(ctx, c, dim', p) {
      assert targets[p] == p;
      SqDistSplit(ctx.query, c.vecs[p], 0, dim, dim');
    }
  }

  /** Scans the dimensions dim .. dim' for all vectors. */
  method ScanGroup(ctx: Context, st: StoredCluster, ghost sel: seq<bool>, dim: nat, dim': nat, distances: array<int>)
    requires ValidStored(ctx, st) && |sel| == |st.ids| && dim < dim' <= ctx.V
    requires OnBoundary(ShapeOf(ctx, st), dim) && OnBoundary(ShapeOf(ctx, st), dim')
    requires WarmedUp(ctx, View(ctx, st, sel), dim, distances[..])
    modifies distances
    ensures WarmedUp(ctx, View(ctx, st, sel), dim', distances[..])
  {
    ghost var before := distances[..];
    WarmupFits(ctx, st, sel, dim, dim', before);
    Vertical(ShapeOf(ctx, st), ctx.query, st.data, |st.ids|, dim, dim', distances, false, []);
    WarmedUpMore(ctx, st, sel, dim, dim', before, distances[..]);
  }

  lemma WarmingJudged(k: nat, start: Origin, ctx: Context, queue: seq<Cluster>, c: Cluster, i: nat, heap: Heap)
    requires var t := Task(ctx, queue, Warming(c, i));
             ValidTask(t) && |heap| > 0 && Leads(k, start, Moment(t, heap))
    ensures var t' := Task(ctx, queue, AfterWarming(ctx, c, i, TopDistance(heap)));
            ValidTask(t') && Leads(k, start, Moment(t', heap))
  {
    var t := Task(ctx, queue, Warming(c, i));
    var t' := Task(ctx, queue, AfterWarming(ctx, c, i, TopDistance(heap)));
    LeadsByOwnStep(k, start, Moment(t, heap), t', heap, multiset{});
  }

  /** Reads the threshold after `i` groups and counts the vectors that reach it. */
  method CountPrunable(ctx: Context, ghost c: Cluster, n: nat, k: nat, i: nat, dim: nat, distances: array<int>,
                       heap: SharedHeap, ghost start: Origin, ghost queue: seq<Cluster>)
      returns (prunable: nat)
    requires Fits(ctx, c) && n == |c.vecs| && i <= 20 && dim == FetchStop(ctx.V, i) && heap.ValidFor(start)
    requires WarmedUp(ctx, c, dim, distances[..])
    requires var t := Task(ctx, queue, Warming(c, i)); ValidTask(t) && Leads(k, start, Moment(t, heap.items))
    modifies heap
    ensures heap.ValidFor(start) && distances[..] == old(distances[..])
    ensures var t := Task(ctx, queue, if prunable < TuplesNeededToExit(n) && dim < ctx.V then Warming(c, i + 1)
                                      else Reading(c, dim, 0, Selected(c)));
            ValidTask(t) && Leads(k, start, Moment(t, heap.items))
  {
    ghost var t := Task(ctx, queue, Warming(c, i));
    var threshold;
    ghost var top;
    threshold, top := heap.GetPruningThreshold(k, ctx, dim, start, t);
    prunable := EvaluatePruningPredicateScalar(n, distances, threshold);
    ReachingIsPrunable(ctx, c, dim, top, distances[..], n);
    WarmingJudged(k, start, ctx, queue, c, i, heap.items);
  }

  /** Scans the dimensions of group `i` for all vectors. */
  method FetchGroup(ctx: Context, st: StoredCluster, ghost sel: seq<bool>, i: nat, distances: array<int>)
      returns (dim: nat)
    requires ValidStored(ctx, st) && |sel| == |st.ids|
    requires i < 20 && FetchStop(ctx.V, i) < FetchStop(ctx.V, i + 1)
    requires WarmedUp(ctx, View(ctx, st, sel), FetchStop(ctx.V, i), distances[..])
    modifies distances
    ensures dim == FetchStop(ctx.V, i + 1) && WarmedUp(ctx, View(ctx, st, sel), dim, distances[..])
  {
    FetchStopAligned(ctx.V, i);
    FetchStopAligned(ctx.V, i + 1);
    dim := Min(FetchStop(ctx.V, i) + DIMENSIONS_FETCHING_SIZES[i], ctx.V);
    ScanGroup(ctx, st, sel, FetchStop(ctx.V, i), dim, distances);
  }

  /** One round of the warmup loop: fetches group `i`, reads the threshold and counts. */
  method WarmupStep(ctx: Context, st: StoredCluster, ghost sel: seq<bool>, k: nat, i: nat, distances: array<int>,
                    heap: SharedHeap, ghost start: Origin, ghost queue: seq<Cluster>)
      returns (dim: nat, prunable: nat)
    requires ValidStored(ctx, st) && |sel| == |st.ids| && heap.ValidFor(start)
    requires i < 20 && FetchStop(ctx.V, i) < FetchStop(ctx.V, i + 1)
    requires WarmedUp(ctx, View(ctx, st, sel), FetchStop(ctx.V, i), distances[..])
    requires var t := Task(ctx, queue, Warming(View(ctx, st, sel), i + 1));
             ValidTask(t) && Leads(k, start, Moment(t, heap.items))
    modifies distances, heap
    ensures heap.ValidFor(start) && dim == FetchStop(ctx.V, i + 1)
    ensures WarmedUp(ctx, View(ctx, st, sel), dim, distances[..])
    ensures var c := View(ctx, st, sel);
            var t := Task(ctx, queue, if prunable < TuplesNeededToExit(|st.ids|) && dim < ctx.V then Warming(c, i + 2)
                                      else Reading(c, dim, 0, Selected(c)));
            ValidTask(t) && Leads(k, start, Moment(t, heap.items))
  {
    dim := FetchGroup(ctx, st, sel, i, distances);
    prunable := CountPrunable(ctx, View(ctx, st, sel), |st.ids|, k, i + 1, dim, distances, heap, start, queue);
  }

  // ---------------------------------------------------------------- the phase

  /** Sets up the distances: zero, or the mask for rows that did not pass. */
  method InitDistances(ctx: Context, st: StoredCluster, filtered: bool, sel: seq<bool>, distances: array<int>)
    requires ValidStored(ctx, st) && |sel| == |st.ids| <= distances.Length
    requires !filtered ==> forall p :: 0 <= p < |sel| ==> sel[p]
    modifies distances
    ensures WarmedUp(ctx, View(ctx, st, sel), 0, distances[..])
  {
    ResetPruningDistances(|st.ids|, distances);
    if filtered {
      MaskDistancesWithSelectionVector(ctx, |st.ids|, distances, sel);
    }
  }

  /** `Warmup`: scans groups of dimensions until 80% of the vectors would be pruned or the vertical
      part is exhausted; with fewer than 20% of the rows passing it does nothing. */
  method Warmup(ctx: Context, st: StoredCluster, filtered: bool, sel: seq<bool>, passing: nat, k: nat,
                distances: array<int>, heap: SharedHeap, ghost start: Origin, ghost queue: seq<Cluster>)
      returns (dim: nat)
    requires ValidStored(ctx, st) && |sel| == |st.ids| <= distances.Length && heap.ValidFor(start)
    requires !filtered ==> forall p :: 0 <= p < |sel| ==> sel[p]
    requires passing == |Selected(View(ctx, st, sel))| > 0
    requires var t := Task(ctx, queue, Begin(View(ctx, st, sel)));
             ValidTask(t) && Leads(k, start, Moment(t, heap.items))
    modifies distances, heap
    ensures heap.ValidFor(start) && dim <= ctx.V && WarmedUp(ctx, View(ctx, st, sel), dim, distances[..])
    ensures var c := View(ctx, st, sel); var t := Task(ctx, queue, Reading(c, dim, 0, Selected(c)));
            ValidTask(t) && Leads(k, start, Moment(t, heap.items))
  {
    ghost var c := View(ctx, st, sel);
    dim := 0;
    InitDistances(ctx, st, filtered, sel, distances);
    if !filtered {
      AllSelected(c, |sel|);
    }
    if filtered && 5 * passing < |st.ids| {
      return;
    }
    ghost var t := Task(ctx, queue, Warming(c, 1));
    ghost var ds := distances[..];
    var threshold;
    ghost var top;
    threshold, top := heap.GetPruningThreshold(k, ctx, dim, start, t);
    assert distances[..] == ds;
    dim := WarmupLoop(ctx, st, sel, k, distances, heap, start, queue);
  }

  lemma {:induction false} AllSelected(c: Cluster, n: nat)
    requires n <= |c.sel| && forall p :: 0 <= p < n ==> c.sel[p]
    ensures |SelectedBelow(c, n)| == n
  {
    if n > 0 {
      AllSelected(c, n - 1);
    }
  }

  method WarmupLoop(ctx: Context, st: StoredCluster, ghost sel: seq<bool>, k: nat, distances: array<int>,
                    heap: SharedHeap, ghost start: Origin, ghost queue: seq<Cluster>)
      returns (dim: nat)
    requires ValidStored(ctx, st) && |sel| == |st.ids| && heap.ValidFor(start) && |st.ids| > 0
    requires WarmedUp(ctx, View(ctx, st, sel), 0, distances[..])
    requires var t := Task(ctx, queue, Warming(View(ctx, st, sel), 1));
             ValidTask(t) && Leads(k, start, Moment(t, heap.items))
    modifies distances, heap
    ensures heap.ValidFor(start) && dim <= ctx.V && WarmedUp(ctx, View(ctx, st, sel), dim, distances[..])
    ensures var c := View(ctx, st, sel); var t := Task(ctx, queue, Reading(c, dim, 0, Selected(c)));
            ValidTask(t) && Leads(k, start, Moment(t, heap.items))
  {
    ghost var c := View(ctx, st, sel);
    dim := 0;
    var needed := TuplesNeededToExit(|st.ids|);
    var i, prunable := 0, 0;
    while prunable < needed && dim < ctx.V
      invariant i <= 20 && dim == FetchStop(ctx.V, i) && heap.ValidFor(start)
      invariant WarmedUp(ctx, c, dim, distances[..])
      invariant var t := Task(ctx, queue, if prunable < needed && dim < ctx.V then Warming(c, i + 1)
                                          else Reading(c, dim, 0, Selected(c)));
                ValidTask(t) && Leads(k, start, Moment(t, heap.items))
      decreases ctx.V - dim
    {
      FetchingSizesSuffice(ctx.V, i);
      dim, prunable := WarmupStep(ctx, st, sel, k, i, distances, heap, start, queue);
      i := i + 1;
    }
  }
}
