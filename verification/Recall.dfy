/** Recall: the true neighbours that a lossless search finds are those in the clusters it probes, so
    probing more clusters never loses one. */
module Recall {
  import opened Common
  import opened KnnHeap
  import opened Multisets
  import opened SearchMachine
  import opened Interleaving
  import opened Exactness
  import opened Searcher

  // ---------------------------------------------------------------- the order of the clusters

  predicate AllDistinct(distances: seq<real>) {
    forall i, j :: 0 <= i < j < |distances| ==> distances[i] != distances[j]
  }

  /** What sorting the clusters by the distance of their centroids, or sorting the first `nProbe`
      places only, leaves behind. */
  ghost predicate SortedUpTo(order: seq<nat>, centroids: seq<real>, nProbe: nat) {
    && IsAccessOrder(order, |centroids|)
    && forall i, j :: 0 <= i < j < |order| && i < nProbe ==> centroids[order[i]] <= centroids[order[j]]
  }

  lemma PlaceNotBefore(o: seq<nat>, p: seq<nat>, centroids: seq<real>, n: nat, i: nat)
    requires SortedUpTo(o, centroids, n) && IsAccessOrder(p, |centroids|)
    requires i < n && i < |centroids| && forall j :: 0 <= j < i ==> o[j] == p[j]
    ensures centroids[o[i]] <= centroids[p[i]]
  {
    assert p[i] in o;
    var j :| 0 <= j < |o| && o[j] == p[i];
    assert j >= i;
  }

  /** The order for more probes continues the order for fewer. */
  lemma {:induction false} LongerPrefix(o: seq<nat>, p: seq<nat>, centroids: seq<real>, n: nat, m: nat, i: nat)
    requires SortedUpTo(o, centroids, n) && SortedUpTo(p, centroids, m) && n <= m && AllDistinct(centroids)
    requires i <= n && i <= |centroids|
    ensures forall j :: 0 <= j < i ==> o[j] == p[j]
  {
    if i > 0 {
      LongerPrefix(o, p, centroids, n, m, i - 1);
      PlaceNotBefore(o, p, centroids, n, i - 1);
      PlaceNotBefore(p, o, centroids, m, i - 1);
    }
  }

  // ---------------------------------------------------------------- sums of heaps

  lemma {:induction false} SumIsMonotone(hs: seq<Heap>, gs: seq<Heap>)
    requires |hs| == |gs| && forall i :: 0 <= i < |hs| ==> hs[i] <= gs[i]
    ensures Sum(hs) <= Sum(gs)
  {
    if hs != [] {
      SumIsMonotone(hs[..|hs| - 1], gs[..|gs| - 1]);
    }
  }

  function Pick(hs: seq<Heap>, order: seq<nat>): (r: seq<Heap>)
    requires forall j :: 0 <= j < |order| ==> order[j] < |hs|
    ensures |r| == |order| && forall j :: 0 <= j < |r| ==> r[j] == hs[order[j]]
  {
    seq(|order|, j requires 0 <= j < |order| => hs[order[j]])
  }

  lemma RemoveOne(a: Heap, b: Heap, x: Heap, whole: Heap)
    requires a <= b && b + x == whole
    ensures a + x <= whole
  {
  }

  /** Heaps picked at distinct places are part of the whole. */
  lemma {:induction false} PickedIsPart(hs: seq<Heap>, order: seq<nat>)
    requires forall j :: 0 <= j < |order| ==> order[j] < |hs|
    requires forall i, j :: 0 <= i < j < |order| ==> order[i] != order[j]
    ensures Sum(Pick(hs, order)) <= Sum(hs)
    decreases |order|
  {
    if order != [] {
      var n := |order| - 1;
      var x := order[n];
      var rest := hs[x := multiset{}];
      PickedIsPart(rest, order[..n]);
      SumAfterUpdate(hs, x, multiset{});
      assert Pick(hs, order)[..n] == Pick(rest, order[..n]);
      RemoveOne(Sum(Pick(rest, order[..n])), Sum(rest), hs[x], Sum(hs));
    }
  }

  lemma {:induction false} SumFromFront(h: Heap, hs: seq<Heap>)
    ensures Sum([h] + hs) == h + Sum(hs)
  {
    if hs == [] {
      assert ([h] + hs)[..0] == [];
    } else {
      var n := |hs| - 1;
      SumFromFront(h, hs[..n]);
      assert ([h] + hs)[..n + 1] == [h] + hs[..n];
    }
  }

  // ---------------------------------------------------------------- what a search probes

  ghost function PortionsOf(ctx: Context, clusters: seq<Cluster>): (r: seq<Heap>)
    requires forall i :: 0 <= i < |clusters| ==> Fits(ctx, clusters[i])
    ensures |r| == |clusters|
    ensures forall i :: 0 <= i < |r| ==> r[i] == Candidates(ctx, clusters[i], Selected(clusters[i]))
  {
    seq(|clusters|, i requires 0 <= i < |clusters| => Candidates(ctx, clusters[i], Selected(clusters[i])))
  }

  lemma {:induction false} QueueIsSum(ctx: Context, queue: seq<Cluster>)
    requires forall i :: 0 <= i < |queue| ==> Fits(ctx, queue[i])
    ensures QueueCandidates(ctx, queue) == Sum(PortionsOf(ctx, queue))
  {
    if queue != [] {
      QueueIsSum(ctx, queue[1..]);
      var first := Candidates(ctx, queue[0], Selected(queue[0]));
      assert PortionsOf(ctx, queue) == [first] + PortionsOf(ctx, queue[1..]);
      SumFromFront(first, PortionsOf(ctx, queue[1..]));
    }
  }

  /** A row group as a query sees it: its clusters and the distances of their centroids. */
  datatype Group = Group(ctx: Context, clusters: seq<Cluster>, centroids: seq<real>)

  ghost predicate ValidGroup(g: Group) {
    && |g.centroids| == |g.clusters| && AllDistinct(g.centroids)
    && forall i :: 0 <= i < |g.clusters| ==> Fits(g.ctx, g.clusters[i]) && Roomy(g.ctx, g.clusters[i])
  }

  ghost predicate ValidGroups(groups: seq<Group>) {
    forall i :: 0 <= i < |groups| ==> ValidGroup(groups[i])
  }

  /** The first `n` clusters of the order. */
  function Probed(g: Group, order: seq<nat>, n: nat): (queue: seq<Cluster>)
    requires IsAccessOrder(order, |g.clusters|)
    ensures |queue| == Min(n, |order|) && forall j :: 0 <= j < |queue| ==> queue[j] == g.clusters[order[j]]
  {
    seq(Min(n, |order|), j requires 0 <= j < Min(n, |order|) => g.clusters[order[j]])
  }

  /** The tasks of a search that probes `n` clusters per row group. */
  ghost predicate Probes(groups: seq<Group>, orders: seq<seq<nat>>, n: nat, tasks: seq<Task>)
    requires ValidGroups(groups)
  {
    && |orders| == |groups| == |tasks|
    && forall i :: 0 <= i < |groups| ==>
         SortedUpTo(orders[i], groups[i].centroids, n)
         && tasks[i] == Task(groups[i].ctx, Probed(groups[i], orders[i], n), Idle)
  }

  /** All selected vectors of all clusters. */
  ghost function Everything(groups: seq<Group>): Heap
    requires ValidGroups(groups)
  {
    Sum(seq(|groups|, i requires 0 <= i < |groups| => QueueCandidates(groups[i].ctx, groups[i].clusters)))
  }

  lemma PickedShares(g: Group, order: seq<nat>, n: nat)
    requires ValidGroup(g) && IsAccessOrder(order, |g.clusters|)
    ensures PortionsOf(g.ctx, Probed(g, order, n)) == Pick(PortionsOf(g.ctx, g.clusters), order[..Min(n, |order|)])
  {
  }

  lemma ProbedIsPart(g: Group, order: seq<nat>, n: nat)
    requires ValidGroup(g) && IsAccessOrder(order, |g.clusters|)
    ensures QueueCandidates(g.ctx, Probed(g, order, n)) <= QueueCandidates(g.ctx, g.clusters)
  {
    var queue, picked := Probed(g, order, n), order[..Min(n, |order|)];
    QueueIsSum(g.ctx, queue);
    QueueIsSum(g.ctx, g.clusters);
    PickedShares(g, order, n);
    PickedIsPart(PortionsOf(g.ctx, g.clusters), picked);
  }

  lemma ProbedPrefix(g: Group, o: seq<nat>, p: seq<nat>, n: nat, m: nat)
    requires ValidGroup(g) && SortedUpTo(o, g.centroids, n) && SortedUpTo(p, g.centroids, m) && n <= m
    ensures Probed(g, o, n) <= Probed(g, p, m)
  {
    LongerPrefix(o, p, g.centroids, n, m, Min(n, |o|));
  }

  lemma {:induction false} CandidatesOfPrefix(ctx: Context, few: seq<Cluster>, many: seq<Cluster>)
    requires few <= many && forall i :: 0 <= i < |many| ==> Fits(ctx, many[i])
    ensures QueueCandidates(ctx, few) <= QueueCandidates(ctx, many)
    decreases |few|
  {
    if few != [] {
      CandidatesOfPrefix(ctx, few[1..], many[1..]);
    }
  }

  lemma ProbedGrows(g: Group, o: seq<nat>, p: seq<nat>, n: nat, m: nat)
    requires ValidGroup(g) && SortedUpTo(o, g.centroids, n) && SortedUpTo(p, g.centroids, m) && n <= m
    ensures QueueCandidates(g.ctx, Probed(g, o, n)) <= QueueCandidates(g.ctx, Probed(g, p, m))
  {
    ProbedPrefix(g, o, p, n, m);
    CandidatesOfPrefix(g.ctx, Probed(g, o, n), Probed(g, p, m));
  }

  lemma HeldIsQueue(t: Task)
    requires ValidTask(t) && t.work.Idle?
    ensures Held(t) == QueueCandidates(t.ctx, t.queue)
  {
  }

  /** Probing reaches part of everything, and more probes reach more. */
  lemma SearchIsPart(groups: seq<Group>, orders: seq<seq<nat>>, n: nat, tasks: seq<Task>)
    requires ValidGroups(groups) && Probes(groups, orders, n, tasks) && ValidTasks(tasks)
    ensures HeldBy(tasks) <= Everything(groups)
  {
    var whole := seq(|groups|, i requires 0 <= i < |groups| => QueueCandidates(groups[i].ctx, groups[i].clusters));
    forall i | 0 <= i < |tasks| ensures Interleaving.Shares(tasks)[i] <= whole[i] {
      HeldIsQueue(tasks[i]);
      ProbedIsPart(groups[i], orders[i], n);
    }
    SumIsMonotone(Interleaving.Shares(tasks), whole);
  }

  lemma SearchGrows(groups: seq<Group>, few: seq<seq<nat>>, n: nat, tasks: seq<Task>,
                    many: seq<seq<nat>>, m: nat, more: seq<Task>)
    requires ValidGroups(groups) && n <= m
    requires Probes(groups, few, n, tasks) && Probes(groups, many, m, more) && ValidTasks(tasks) && ValidTasks(more)
    ensures HeldBy(tasks) <= HeldBy(more)
  {
    forall i | 0 <= i < |tasks| ensures Interleaving.Shares(tasks)[i] <= Interleaving.Shares(more)[i] {
      HeldIsQueue(tasks[i]);
      HeldIsQueue(more[i]);
      ProbedGrows(groups[i], few[i], many[i], n, m);
    }
    SumIsMonotone(Interleaving.Shares(tasks), Interleaving.Shares(more));
  }

  // ---------------------------------------------------------------- recall

  /** No two vectors are equally far from the query. */
  ghost predicate DistinctDistances(all: Heap) {
    && (forall x | x in all :: all[x] == 1)
    && (forall x, y | x in all && y in all :: x.distance == y.distance ==> x == y)
  }

  /** A true neighbour among the probed vectors cannot be missed: everything kept instead of it would
      be a nearer true neighbour, and there are too few of those. */
  lemma TrueNeighbourIsKept(k: nat, kept: Heap, probed: Heap, all: Heap, truth: Heap, x: Candidate)
    requires NearestUpTo(k, kept, probed, 0.0) && NearestUpTo(k, truth, all, 0.0)
    requires probed <= all && DistinctDistances(all) && x in probed && x in truth
    ensures x in kept
  {
    if x !in kept {
      forall y: Candidate | y in kept ensures y in truth && y != x {
        assert x in probed - kept && y in all && x in all;
        assert y.distance <= x.distance;
        assert y in truth || y in all - truth;
      }
      KeptIsSmaller(kept, truth, x, all);
      assert |kept| == k by {
        FullWhenMissing(kept, probed, x);
      }
      assert false;
    }
  }

  lemma FullWhenMissing(kept: Heap, probed: Heap, x: Candidate)
    requires kept <= probed && x in probed && x !in kept
    ensures |kept| < |probed|
  {
    assert kept + multiset{x} <= probed;
    PartCounts(kept + multiset{x}, probed);
  }

  lemma KeptIsSmaller(kept: Heap, truth: Heap, x: Candidate, all: Heap)
    requires kept <= all && truth <= all && DistinctDistances(all) && x in truth
    requires forall y: Candidate | y in kept :: y in truth && y != x
    ensures |kept| < |truth|
  {
    forall y: Candidate | y in kept + multiset{x} ensures (kept + multiset{x})[y] <= truth[y] {
      assert y in all && all[y] == 1;
    }
    assert kept + multiset{x} <= truth;
    PartCounts(kept + multiset{x}, truth);
  }

  /** The true neighbours found are exactly those among the probed vectors. */
  lemma FoundNeighbours(k: nat, kept: Heap, probed: Heap, all: Heap, truth: Heap)
    requires NearestUpTo(k, kept, probed, 0.0) && NearestUpTo(k, truth, all, 0.0)
    requires probed <= all && DistinctDistances(all)
    ensures kept * truth == probed * truth
  {
    forall x: Candidate ensures (kept * truth)[x] == (probed * truth)[x] {
      if x in probed && x in truth {
        TrueNeighbourIsKept(k, kept, probed, all, truth, x);
        assert all[x] == 1 && probed[x] == 1 && kept[x] == 1;
      }
    }
  }

  ghost function Found(run: seq<State>, truth: Heap): Heap
    requires |run| > 0
  {
    Kept(run[|run| - 1].heap) * truth
  }

  ghost predicate IsSearch(k: nat, groups: seq<Group>, orders: seq<seq<nat>>, n: nat, run: seq<State>)
    requires ValidGroups(groups)
  {
    && IsRun(k, run) && Initial(k, run[0]) && Done(run[|run| - 1])
    && Probes(groups, orders, n, run[0].tasks)
    && LosslessTasks(run[0].tasks) && CommonUnits(run[0].tasks)
  }

  /** What a lossless search finds of the true neighbours, whatever the interleaving: those in the
      clusters it probes. */
  lemma SearchFindsProbedNeighbours(k: nat, groups: seq<Group>, orders: seq<seq<nat>>, n: nat, run: seq<State>,
                                    truth: Heap)
    requires ValidGroups(groups) && IsSearch(k, groups, orders, n, run)
    requires DistinctDistances(Everything(groups)) && NearestUpTo(k, truth, Everything(groups), 0.0)
    ensures Found(run, truth) == HeldBy(run[0].tasks) * truth
  {
    ParallelSearchIsExact(k, run);
    SearchIsPart(groups, orders, n, run[0].tasks);
    FoundNeighbours(k, Kept(run[|run| - 1].heap), HeldBy(run[0].tasks), Everything(groups), truth);
  }

  /** Increasing the number of probed clusters never loses a true neighbour, so it never lowers recall. */
  lemma MoreProbesNeverLowerRecall(k: nat, groups: seq<Group>, few: seq<seq<nat>>, n: nat, run: seq<State>,
                                   many: seq<seq<nat>>, m: nat, longer: seq<State>, truth: Heap)
    requires ValidGroups(groups) && n <= m
    requires IsSearch(k, groups, few, n, run) && IsSearch(k, groups, many, m, longer)
    requires DistinctDistances(Everything(groups)) && NearestUpTo(k, truth, Everything(groups), 0.0)
    ensures Found(run, truth) <= Found(longer, truth) && |Found(run, truth)| <= |Found(longer, truth)|
  {
    SearchFindsProbedNeighbours(k, groups, few, n, run, truth);
    SearchFindsProbedNeighbours(k, groups, many, m, longer, truth);
    SearchGrows(groups, few, n, run[0].tasks, many, m, longer[0].tasks);
    PartCounts(Found(run, truth), Found(longer, truth));
  }
}
