/** The searcher of one row group: publishing survivors, and the probing loops `Search` and
    `FilteredSearch`. A call is a local run of the search machine that goes through exactly the
    clusters it has to probe. */
module Searcher {
  import opened Common
  import opened Distances
  import opened KnnHeap
  import opened Layout
  import opened SearchMachine
  import opened LocalRuns
  import opened SharedHeaps
  import opened PruneSteps
  import opened WarmupPhase
  import opened PrunePhase
  import opened RowGroups

  // ---------------------------------------------------------------- publishing the survivors

  lemma PushedLocally(k: nat, start: Origin, ctx: Context, queue: seq<Cluster>, c: Cluster, alive: seq<nat>,
                      before: Heap, after: Heap, out: Heap)
    requires alive != []
    requires var t := Task(ctx, queue, Merging(c, alive)); ValidTask(t) && Leads(k, start, Moment(t, before))
    requires Absorbed(k, before, CandidateAt(ctx, c, alive[0]), after, out)
    ensures var t := Task(ctx, queue, if |alive| == 1 then Idle else Merging(c, alive[1..]));
            ValidTask(t) && Leads(k, start, Moment(t, after))
  {
    var t := Task(ctx, queue, Merging(c, alive));
    var t' := Task(ctx, queue, if |alive| == 1 then Idle else Merging(c, alive[1..]));
    LeadsByOwnStep(k, start, Moment(t, before), t', after, out);
  }

  /** Pushes survivor `p`, the first of those left to merge. */
  method PushSurvivor(ctx: Context, st: StoredCluster, ghost c: Cluster, k: nat, p: nat, distance: int,
                      ghost alive: seq<nat>, heap: SharedHeap, ghost start: Origin, ghost queue: seq<Cluster>)
    requires Fits(ctx, c) && c.ids == st.ids && alive != [] && p == alive[0] < |c.vecs| && heap.ValidFor(start)
    requires distance == Full(ctx, c.vecs[p])
    requires var t := Task(ctx, queue, Merging(c, alive)); ValidTask(t) && Leads(k, start, Moment(t, heap.items))
    modifies heap
    ensures heap.ValidFor(start)
    ensures var t := Task(ctx, queue, if |alive| == 1 then Idle else Merging(c, alive[1..]));
            ValidTask(t) && Leads(k, start, Moment(t, heap.items))
  {
    ghost var before := heap.items;
    var x := Candidate(st.ids[p], Published(ctx, distance));
    ghost var out := heap.Push(k, x);
    PushedLocally(k, start, ctx, queue, c, alive, before, heap.items, out);
  }

  /** `MergeIntoHeap` under the mutex: pushes the survivors one by one. */
  method MergeIntoHeap(ctx: Context, st: StoredCluster, ghost sel: seq<bool>, k: nat, n: nat, positions: array<nat>,
                       distances: array<int>, heap: SharedHeap, ghost start: Origin, ghost queue: seq<Cluster>)
    requires ValidStored(ctx, st) && |sel| == |st.ids| && n > 0
    requires Pruned(ctx, st, sel, k, n, positions, distances, heap, start, queue)
    modifies heap
    ensures heap.ValidFor(start)
    ensures var t := Task(ctx, queue, Idle); ValidTask(t) && Leads(k, start, Moment(t, heap.items))
  {
    ghost var c := View(ctx, st, sel);
    ghost var alive := positions[..n];
    heap.Acquire(k, start, Task(ctx, queue, Merging(c, alive)));
    PushAll(ctx, st, c, k, positions[..n], distances, heap, start, queue);
  }

  method PushAll(ctx: Context, st: StoredCluster, ghost c: Cluster, k: nat, alive: seq<nat>, distances: array<int>,
                 heap: SharedHeap, ghost start: Origin, ghost queue: seq<Cluster>)
    requires Fits(ctx, c) && c.ids == st.ids && alive != [] && ValidAlive(c, alive) && heap.ValidFor(start)
    requires |c.vecs| <= distances.Length
    requires forall j :: 0 <= j < |alive| ==> distances[alive[j]] == Full(ctx, c.vecs[alive[j]])
    requires var t := Task(ctx, queue, Merging(c, alive)); ValidTask(t) && Leads(k, start, Moment(t, heap.items))
    modifies heap
    ensures heap.ValidFor(start)
    ensures var t := Task(ctx, queue, Idle); ValidTask(t) && Leads(k, start, Moment(t, heap.items))
  {
    var i := 0;
    ghost var left := alive;
    while i < |alive|
      invariant i <= |alive| && heap.ValidFor(start) && left == alive[i..]
      invariant var t := Task(ctx, queue, if left == [] then Idle else Merging(c, left));
                ValidTask(t) && Leads(k, start, Moment(t, heap.items))
    {
      PushSurvivor(ctx, st, c, k, alive[i], distances[alive[i]], left, heap, start, queue);
      left := left[1..];
      i := i + 1;
    }
  }

  // ---------------------------------------------------------------- probing one cluster

  /** Taking up the next cluster. */
  lemma TakenUp(k: nat, start: Origin, ctx: Context, c: Cluster, queue: seq<Cluster>, heap: Heap)
    requires var t := Task(ctx, [c] + queue, Idle); ValidTask(t) && Leads(k, start, Moment(t, heap))
    ensures var t := Task(ctx, queue, Begin(c)); ValidTask(t) && Leads(k, start, Moment(t, heap))
  {
    assert ([c] + queue)[1..] == queue;
    LeadsByOwnStep(k, start, Moment(Task(ctx, [c] + queue, Idle), heap), Task(ctx, queue, Begin(c)), heap, multiset{});
  }

  lemma WarmedUpCovers(ctx: Context, c: Cluster, dim: nat, distances: seq<int>)
    requires Fits(ctx, c) && dim <= ctx.V && WarmedUp(ctx, c, dim, distances)
    ensures forall p :: 0 <= p < |c.sel| && c.sel[p] ==> distances[p] == Partial(ctx, c.vecs[p], dim, 0)
  {
  }

  /** Probes one cluster: skips it if nothing is selected, else warms up, prunes and merges. */
  method ProbeCluster(ctx: Context, st: StoredCluster, filtered: bool, sel: seq<bool>, passing: nat, k: nat,
                      positions: array<nat>, distances: array<int>, heap: SharedHeap, ghost start: Origin,
                      ghost queue: seq<Cluster>)
    requires ValidStored(ctx, st) && |sel| == |st.ids| <= positions.Length && |st.ids| <= distances.Length
    requires !filtered ==> forall p :: 0 <= p < |sel| ==> sel[p]
    requires passing == |Selected(View(ctx, st, sel))| && heap.ValidFor(start)
    requires var t := Task(ctx, [View(ctx, st, sel)] + queue, Idle);
             ValidTask(t) && Leads(k, start, Moment(t, heap.items))
    modifies positions, distances, heap
    ensures heap.ValidFor(start)
    ensures var t := Task(ctx, queue, Idle); ValidTask(t) && Leads(k, start, Moment(t, heap.items))
  {
    TakenUp(k, start, ctx, View(ctx, st, sel), queue, heap.items);
    if passing == 0 || |st.ids| == 0 {
      return;
    }
    var dim := Warmup(ctx, st, filtered, sel, passing, k, distances, heap, start, queue);
    WarmedUpCovers(ctx, View(ctx, st, sel), dim, distances[..]);
    var notPruned := Prune(ctx, st, filtered, sel, k, dim, positions, distances, heap, start, queue);
    if notPruned != 0 {
      MergeIntoHeap(ctx, st, sel, k, notPruned, positions, distances, heap, start, queue);
    }
  }

  // ---------------------------------------------------------------- the clusters to probe

  predicate ValidClusters(ctx: Context, clusters: seq<StoredCluster>) {
    forall c :: 0 <= c < |clusters| ==> ValidStored(ctx, clusters[c])
  }

  /** An order in which every cluster occurs once. */
  predicate IsAccessOrder(order: seq<nat>, n: nat) {
    && |order| == n
    && (forall i :: 0 <= i < n ==> order[i] < n)
    && (forall i, j :: 0 <= i < j < n ==> order[i] != order[j])
    && (forall c :: 0 <= c < n ==> c in order)
  }

  function AllOf(n: nat): (sel: seq<bool>)
    ensures |sel| == n && forall p :: 0 <= p < n ==> sel[p]
  {
    seq(n, _ => true)
  }

  /** The rows of a cluster that are among `passing`. */
  function SelectionFor(ids: seq<nat>, passing: seq<nat>): (sel: seq<bool>)
    ensures |sel| == |ids| && forall p :: 0 <= p < |ids| ==> sel[p] == (ids[p] in passing)
  {
    seq(|ids|, p requires 0 <= p < |ids| => ids[p] in passing)
  }

  /** The cluster at place `i` of the access order, with the passing rows selected (all rows without
      a filter). */
  function ClusterAt(ctx: Context, clusters: seq<StoredCluster>, order: seq<nat>, filtered: bool, passing: seq<nat>,
                     i: nat): (c: Cluster)
    requires ValidClusters(ctx, clusters) && IsAccessOrder(order, |clusters|) && i < |order|
    ensures Fits(ctx, c)
  {
    var st := clusters[order[i]];
    View(ctx, st, if filtered then SelectionFor(st.ids, passing) else AllOf(|st.ids|))
  }

  /** The clusters at the places first .. end of the access order. */
  function ToProbe(ctx: Context, clusters: seq<StoredCluster>, order: seq<nat>, filtered: bool, passing: seq<nat>,
                   first: nat, end: nat): (queue: seq<Cluster>)
    requires ValidClusters(ctx, clusters) && IsAccessOrder(order, |clusters|) && first <= end <= |order|
    ensures forall j :: 0 <= j < |queue| ==> Fits(ctx, queue[j])
    decreases end - first
  {
    if first == end then []
    else [ClusterAt(ctx, clusters, order, filtered, passing, first)]
         + ToProbe(ctx, clusters, order, filtered, passing, first + 1, end)
  }

  /** `queue` are the stored clusters at the places of the access order from `first` on: their rows and their
      vectors as they are read back, all rows selected without a filter, and with one the passing rows. */
  ghost predicate AreProbed(ctx: Context, clusters: seq<StoredCluster>, order: seq<nat>, filtered: bool,
                            passing: seq<nat>, first: nat, queue: seq<Cluster>)
    requires ValidClusters(ctx, clusters) && IsAccessOrder(order, |clusters|) && first + |queue| <= |order|
  {
    forall j :: 0 <= j < |queue| ==> IsProbed(ctx, clusters[order[first + j]], filtered, passing, queue[j])
  }

  ghost predicate IsProbed(ctx: Context, st: StoredCluster, filtered: bool, passing: seq<nat>, c: Cluster)
    requires ValidStored(ctx, st)
  {
    && c.ids == st.ids && c.vecs == Rows(ShapeOf(ctx, st), st.data)
    && forall p :: 0 <= p < |st.ids| ==> (c.sel[p] <==> !filtered || st.ids[p] in passing)
  }

  lemma {:induction false} ToProbeIs(ctx: Context, clusters: seq<StoredCluster>, order: seq<nat>, filtered: bool,
                                     passing: seq<nat>, first: nat, end: nat)
    requires ValidClusters(ctx, clusters) && IsAccessOrder(order, |clusters|) && first <= end <= |order|
    ensures var queue := ToProbe(ctx, clusters, order, filtered, passing, first, end);
            |queue| == end - first && AreProbed(ctx, clusters, order, filtered, passing, first, queue)
    decreases end - first
  {
    if first < end {
      ToProbeIs(ctx, clusters, order, filtered, passing, first + 1, end);
      var rest := ToProbe(ctx, clusters, order, filtered, passing, first + 1, end);
      forall j | 0 <= j < |rest|
        ensures IsProbed(ctx, clusters[order[first + 1 + j]], filtered, passing, rest[j])
      {
      }
      OneMoreProbed(ctx, clusters, order, filtered, passing, first, rest);
    }
  }

  lemma OneMoreProbed(ctx: Context, clusters: seq<StoredCluster>, order: seq<nat>, filtered: bool, passing: seq<nat>,
                      first: nat, rest: seq<Cluster>)
    requires ValidClusters(ctx, clusters) && IsAccessOrder(order, |clusters|) && first + 1 + |rest| <= |order|
    requires AreProbed(ctx, clusters, order, filtered, passing, first + 1, rest)
    ensures AreProbed(ctx, clusters, order, filtered, passing, first,
                      [ClusterAt(ctx, clusters, order, filtered, passing, first)] + rest)
  {
    var queue := [ClusterAt(ctx, clusters, order, filtered, passing, first)] + rest;
    forall j | 0 <= j < |queue| ensures IsProbed(ctx, clusters[order[first + j]], filtered, passing, queue[j]) {
      if j > 0 {
        assert IsProbed(ctx, clusters[order[first + 1 + (j - 1)]], filtered, passing, rest[j - 1]);
      }
    }
  }

  lemma ToProbeIsValid(ctx: Context, clusters: seq<StoredCluster>, order: seq<nat>, filtered: bool, passing: seq<nat>,
                       first: nat, end: nat)
    requires ValidClusters(ctx, clusters) && IsAccessOrder(order, |clusters|) && first <= end <= |order|
    ensures var queue := ToProbe(ctx, clusters, order, filtered, passing, first, end);
            && ValidTask(Task(ctx, queue, Idle))
            && (first == end ==> queue == [])
            && (first < end ==> queue == [ClusterAt(ctx, clusters, order, filtered, passing, first)]
                                       + ToProbe(ctx, clusters, order, filtered, passing, first + 1, end))
  {
  }

  lemma {:induction false} PassingIsSelected(ctx: Context, st: StoredCluster, passing: seq<nat>, n: nat)
    requires ValidStored(ctx, st) && n <= |st.ids|
    ensures PassingCount(st.ids, passing, n) == |SelectedBelow(View(ctx, st, SelectionFor(st.ids, passing)), n)|
  {
    if n > 0 {
      PassingIsSelected(ctx, st, passing, n - 1);
    }
  }

  lemma {:induction false} AllIsSelected(ctx: Context, st: StoredCluster, n: nat)
    requires ValidStored(ctx, st) && n <= |st.ids|
    ensures |SelectedBelow(View(ctx, st, AllOf(|st.ids|)), n)| == n
  {
    if n > 0 {
      AllIsSelected(ctx, st, n - 1);
    }
  }

  // ---------------------------------------------------------------- the searcher

  method ComputeOffsets(clusters: seq<StoredCluster>) returns (offsets: seq<nat>, maxSize: nat)
    ensures AreOffsets(clusters, offsets, |clusters|) && BoundsSizes(clusters, maxSize, |clusters|)
  {
    offsets, maxSize := [], 0;
    var total, c := 0, 0;
    while c < |clusters|
      invariant c <= |clusters| && total == ClusterOffset(clusters, c)
      invariant AreOffsets(clusters, offsets, c) && BoundsSizes(clusters, maxSize, c)
    {
      offsets := offsets + [total];
      total := total + |clusters[c].ids|;
      maxSize := if |clusters[c].ids| > maxSize then |clusters[c].ids| else maxSize;
      c := c + 1;
    }
  }

  predicate AreOffsets(clusters: seq<StoredCluster>, offsets: seq<nat>, n: nat)
    requires n <= |clusters|
  {
    |offsets| == n && forall c :: 0 <= c < n ==> offsets[c] == ClusterOffset(clusters, c)
  }

  predicate BoundsSizes(clusters: seq<StoredCluster>, maxSize: nat, n: nat)
    requires n <= |clusters|
  {
    forall c :: 0 <= c < n ==> |clusters[c].ids| <= maxSize
  }

  /** The rows of cluster `c` whose entry in the selection vector is 1. */
  method GetSelectionVector(evaluator: PredicateEvaluator, clusters: seq<StoredCluster>, clusterOffsets: seq<nat>,
                            c: nat, ghost passing: seq<nat>)
      returns (sel: seq<bool>, passingTuples: nat)
    requires AreOffsets(clusters, clusterOffsets, |clusters|) && c < |clusters|
    requires evaluator.Evaluates(clusters, passing)
    ensures sel == SelectionFor(clusters[c].ids, passing)
    ensures passingTuples == PassingCount(clusters[c].ids, passing, |clusters[c].ids|)
  {
    passingTuples := evaluator.nPassingTuples[c];
    sel := [];
    var i, n := 0, |clusters[c].ids|;
    ghost var selection := evaluator.selectionVector[..];
    while i < n
      invariant i <= n && |sel| == i
      invariant forall j :: 0 <= j < i ==> sel[j] == (clusters[c].ids[j] in passing)
    {
      assert SlotIs(clusters, selection, c, i, Bit(clusters[c].ids[i] in passing));
      sel := sel + [evaluator.selectionVector[clusterOffsets[c] + i] == 1];
      i := i + 1;
    }
  }

  /** The task is in front of place `i` of the access order, with the places up to `end` to go. */
  ghost predicate At(k: nat, ctx: Context, clusters: seq<StoredCluster>, order: seq<nat>, filtered: bool,
                     passing: seq<nat>, i: nat, end: nat, start: Origin, items: Heap)
    requires ValidClusters(ctx, clusters) && IsAccessOrder(order, |clusters|) && i <= end <= |clusters|
  {
    var t := Task(ctx, ToProbe(ctx, clusters, order, filtered, passing, i, end), Idle);
    Leads(k, start, Moment(t, items))
  }

  class PDXearch {
    const clusters: seq<StoredCluster>
    var clusterOffsets: seq<nat>
    var maxClusterSize: nat
    /** The order in which clusters are probed, and how many have been. */
    var accessOrder: seq<nat>
    var accessOrderOffset: nat
    var k: nat
    var ctx: Context
    var evaluator: PredicateEvaluator?
    var bestK: SharedHeap?

    ghost predicate Valid()
      reads this`clusterOffsets, this`maxClusterSize
    {
      AreOffsets(clusters, clusterOffsets, |clusters|) && BoundsSizes(clusters, maxClusterSize, |clusters|)
    }

    /** What the asserts at the head of the search methods demand, and a prepared query. */
    ghost predicate Prepared()
      reads this`clusterOffsets, this`maxClusterSize, this`bestK, this`k, this`ctx, this`accessOrder, bestK
    {
      && Valid() && bestK != null && bestK.Valid() && k != 0
      && ValidClusters(ctx, clusters) && IsAccessOrder(accessOrder, |clusters|)
    }

    ghost predicate Ready()
      reads this, bestK
    {
      Prepared() && accessOrderOffset <= |clusters|
    }

    constructor (clusters: seq<StoredCluster>, ctx: Context)
      ensures Valid() && this.clusters == clusters && this.ctx == ctx
    {
      this.clusters, this.ctx := clusters, ctx;
      accessOrder, accessOrderOffset, k, evaluator, bestK := [], 0, 0, null, null;
      var offsets, maxSize := ComputeOffsets(clusters);
      clusterOffsets, maxClusterSize := offsets, maxSize;
    }

    /** Resets the searcher for a new query; the clusters are probed in the given order. */
    method InitializeSearch(ctx: Context, k: nat, heap: SharedHeap, order: seq<nat>, evaluator: PredicateEvaluator?)
      requires Valid() && heap.Valid() && k != 0
      requires ValidClusters(ctx, clusters) && IsAccessOrder(order, |clusters|)
      modifies this
      ensures Ready() && this.ctx == ctx && this.k == k && bestK == heap && this.evaluator == evaluator
      ensures accessOrder == order && accessOrderOffset == 0
    {
      bestK, this.k, this.evaluator, this.ctx := heap, k, evaluator, ctx;
      accessOrder, accessOrderOffset := order, 0;
    }

    /** Probes the cluster at place `i`. */
    method ProbePlace(filtered: bool, sel: seq<bool>, passingTuples: nat, i: nat, ghost end: nat,
                      ghost passing: seq<nat>, positions: array<nat>, distances: array<int>, ghost start: Origin)
      requires Prepared() && bestK.ValidFor(start) && i < end <= |clusters|
               && At(k, ctx, clusters, accessOrder, filtered, passing, i, end, start, bestK.items)
      requires var ids := clusters[accessOrder[i]].ids;
               sel == (if filtered then SelectionFor(ids, passing) else AllOf(|ids|))
      requires passingTuples == |Selected(ClusterAt(ctx, clusters, accessOrder, filtered, passing, i))|
      requires positions.Length == distances.Length == maxClusterSize
      modifies positions, distances, bestK
      ensures Prepared() && bestK.ValidFor(start)
      ensures At(k, ctx, clusters, accessOrder, filtered, passing, i + 1, end, start, bestK.items)
    {
      ToProbeIsValid(ctx, clusters, accessOrder, filtered, passing, i, end);
      ProbeCluster(ctx, clusters[accessOrder[i]], filtered, sel, passingTuples, k, positions, distances, bestK, start,
                   ToProbe(ctx, clusters, accessOrder, filtered, passing, i + 1, end));
    }

    /** `Search`: probes the first clusters of the access order. */
    method Search(numClustersToProbe: nat)
      requires Ready()
      modifies bestK
      ensures Ready() && (old(bestK.others) == [] ==> bestK.others == [])
      ensures var probed := ToProbe(ctx, clusters, accessOrder, false, [], 0, Min(numClustersToProbe, |clusters|));
              && |probed| == Min(numClustersToProbe, |clusters|)
              && AreProbed(ctx, clusters, accessOrder, false, [], 0, probed)
              && Leads(k, Origin(Moment(Task(ctx, probed, Idle), old(bestK.items)), old(bestK.others) == []),
                       Moment(Task(ctx, [], Idle), bestK.items))
    {
      var distances := new int[maxClusterSize];
      var positions := new nat[maxClusterSize];
      var end := Min(numClustersToProbe, |clusters|);
      ToProbeIs(ctx, clusters, accessOrder, false, [], 0, end);
      ghost var probed := ToProbe(ctx, clusters, accessOrder, false, [], 0, end);
      ghost var start := Origin(Moment(Task(ctx, probed, Idle), bestK.items), bestK.others == []);
      LeadsToItself(k, start);
      ProbeFirst(end, positions, distances, start);
    }

    /** The probing loop. */
    method ProbeFirst(end: nat, positions: array<nat>, distances: array<int>, ghost start: Origin)
      requires Ready() && bestK.ValidFor(start) && end <= |clusters|
               && At(k, ctx, clusters, accessOrder, false, [], 0, end, start, bestK.items)
      requires positions.Length == distances.Length == maxClusterSize
      modifies positions, distances, bestK
      ensures Ready() && bestK.ValidFor(start) && Leads(k, start, Moment(Task(ctx, [], Idle), bestK.items))
    {
      var i := 0;
      while i < end
        invariant i <= end && Ready() && bestK.ValidFor(start)
        invariant At(k, ctx, clusters, accessOrder, false, [], i, end, start, bestK.items)
      {
        var st := clusters[accessOrder[i]];
        AllIsSelected(ctx, st, |st.ids|);
        ProbePlace(false, AllOf(|st.ids|), |st.ids|, i, end, [], positions, distances, start);
        i := i + 1;
      }
      ToProbeIsValid(ctx, clusters, accessOrder, false, [], end, end);
    }

    /** Probes the cluster at place `i` with its selection vector. */
    method ProbeFilteredPlace(i: nat, ghost end: nat, ghost passing: seq<nat>, positions: array<nat>,
                              distances: array<int>, ghost start: Origin)
      requires Prepared() && bestK.ValidFor(start) && i < end <= |clusters|
               && At(k, ctx, clusters, accessOrder, true, passing, i, end, start, bestK.items)
      requires evaluator != null && evaluator.Evaluates(clusters, passing)
      requires positions.Length == distances.Length == maxClusterSize
      requires positions != evaluator.nPassingTuples && positions != evaluator.selectionVector
      modifies positions, distances, bestK
      ensures Prepared() && bestK.ValidFor(start)
      ensures At(k, ctx, clusters, accessOrder, true, passing, i + 1, end, start, bestK.items)
    {
      var c := accessOrder[i];
      var sel, passingTuples := GetSelectionVector(evaluator, clusters, clusterOffsets, c, passing);
      PassingIsSelected(ctx, clusters[c], passing, |clusters[c].ids|);
      ProbePlace(true, sel, passingTuples, i, end, passing, positions, distances, start);
    }

    /** `FilteredSearch`: probes the next few clusters that have not been probed yet. */
    method FilteredSearch(numClustersToTryToProbe: nat, ghost passing: seq<nat>)
      requires Ready() && evaluator != null && evaluator.Evaluates(clusters, passing)
      modifies this`accessOrderOffset, bestK
      ensures Ready() && evaluator.Evaluates(clusters, passing) && (old(bestK.others) == [] ==> bestK.others == [])
      ensures accessOrderOffset == Min(old(accessOrderOffset) + numClustersToTryToProbe, |clusters|)
      ensures var first := old(accessOrderOffset);
              var probed := ToProbe(ctx, clusters, accessOrder, true, passing, first, accessOrderOffset);
              && |probed| == accessOrderOffset - first
              && AreProbed(ctx, clusters, accessOrder, true, passing, first, probed)
              && Leads(k, Origin(Moment(Task(ctx, probed, Idle), old(bestK.items)), old(bestK.others) == []),
                       Moment(Task(ctx, [], Idle), bestK.items))
    {
      var distances := new int[maxClusterSize];
      var positions := new nat[maxClusterSize];
      var end := Min(accessOrderOffset + numClustersToTryToProbe, |clusters|);
      ghost var first := accessOrderOffset;
      ghost var probed := ToProbe(ctx, clusters, accessOrder, true, passing, first, end);
      ghost var start := Origin(Moment(Task(ctx, probed, Idle), bestK.items), bestK.others == []);
      LeadsToItself(k, start);
      ToProbeIs(ctx, clusters, accessOrder, true, passing, first, end);
      ProbeUpTo(end, passing, positions, distances, start);
    }

    /** The filtered probing loop. */
    method ProbeUpTo(end: nat, ghost passing: seq<nat>, positions: array<nat>, distances: array<int>,
                     ghost start: Origin)
      requires Ready() && bestK.ValidFor(start) && accessOrderOffset <= end <= |clusters|
               && At(k, ctx, clusters, accessOrder, true, passing, accessOrderOffset, end, start, bestK.items)
      requires evaluator != null && evaluator.Evaluates(clusters, passing)
      requires positions.Length == distances.Length == maxClusterSize
      requires positions != evaluator.nPassingTuples && positions != evaluator.selectionVector
      modifies this`accessOrderOffset, positions, distances, bestK
      ensures Ready() && bestK.ValidFor(start) && evaluator.Evaluates(clusters, passing) && accessOrderOffset == end
      ensures Leads(k, start, Moment(Task(ctx, [], Idle), bestK.items))
    {
      var i := accessOrderOffset;
      while i < end
        invariant accessOrderOffset == i <= end && Prepared() && bestK.ValidFor(start)
        invariant At(k, ctx, clusters, accessOrder, true, passing, i, end, start, bestK.items)
      {
        ProbeFilteredPlace(i, end, passing, positions, distances, start);
        i := i + 1;
        accessOrderOffset := i;
      }
      ToProbeIsValid(ctx, clusters, accessOrder, true, passing, end, end);
    }
  }
}
