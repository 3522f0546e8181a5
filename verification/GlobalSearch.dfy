/** The search of the global index: one thread, a heap of its own that starts empty, clusters scanned
    in full until the heap is full and pruned afterwards. */
module GlobalSearch {
  import opened Common
  import opened Distances
  import opened KnnHeap
  import opened SearchMachine
  import opened Interleaving
  import opened Exactness
  import opened LocalRuns
  import Runs
  import opened SharedHeaps
  import opened PruneSteps
  import opened RowGroups
  import opened Searcher
  import opened GlobalStart
  import opened ProbedRows

  // ---------------------------------------------------------------- one cluster

  ghost function CandidatesOf(ctx: Context, c: Cluster): Heap
    requires Fits(ctx, c)
  {
    Candidates(ctx, c, Selected(c))
  }

  /** What visiting cluster `c` does to the heap. */
  ghost predicate Visits(k: nat, ctx: Context, h: Heap, c: Cluster, h': Heap)
    requires Fits(ctx, c)
  {
    && |h| <= k
    && if Selected(c) == [] then h' == h
       else if |h| < k then exists taken :: TakesNearest(k, h, CandidatesOf(ctx, c), h', taken)
       else Leads(k, Origin(Moment(Task(ctx, [c], Idle), h), true), Moment(Task(ctx, [], Idle), h'))
  }

  // ---------------------------------------------------------------- probing with a full heap

  /** A full heap is in the state of a shared heap that has just lost the initialization element. */
  ghost function Alone(m: Moment, lost: Heap): State {
    State(m.heap, [m.task], lost)
  }

  lemma HeldByOne(t: Task)
    requires ValidTask(t) && RoomyTask(t)
    ensures ValidTasks([t]) && HeldBy([t]) == Held(t)
  {
    assert Interleaving.Shares([t]) == [Held(t)];
    SumOfOne([Held(t)]);
  }

  lemma HeldOfOneCluster(ctx: Context, c: Cluster)
    requires Fits(ctx, c)
    ensures Held(Task(ctx, [c], Idle)) == CandidatesOf(ctx, c)
  {
    assert [c][1..] == [];
    assert QueueCandidates(ctx, [c]) == CandidatesOf(ctx, c) + QueueCandidates(ctx, [c][1..]);
  }

  lemma FullIsAccounted(k: nat, h: Heap)
    requires k >= 1 && |h| == k && AllFinite(h)
    ensures Accounted(k, h, multiset{SENTINEL})
  {
    assert SENTINEL !in h;
  }

  lemma IdleInv(k: nat, t: Task, h: Heap, lost: Heap, all: Heap)
    requires ValidTask(t) && RoomyTask(t) && t.work.Idle?
    requires Accounted(k, h, lost) && AllFinite(all) && h + lost + Held(t) == all + multiset{SENTINEL}
    ensures Inv(k, Alone(Moment(t, h), lost), all)
  {
    HeldByOne(t);
  }

  lemma OneClusterIsFinite(ctx: Context, c: Cluster)
    requires Fits(ctx, c) && Roomy(ctx, c)
    ensures AllFinite(CandidatesOf(ctx, c))
  {
    HeldOfOneCluster(ctx, c);
    QueueIsFinite(ctx, [c]);
  }

  lemma FullHeapInv(k: nat, ctx: Context, c: Cluster, h: Heap)
    requires Fits(ctx, c) && Roomy(ctx, c) && k >= 1 && |h| == k && AllFinite(h)
    ensures Inv(k, Alone(Moment(Task(ctx, [c], Idle), h), multiset{SENTINEL}), h + CandidatesOf(ctx, c))
  {
    HeldOfOneCluster(ctx, c);
    OneClusterIsFinite(ctx, c);
    FullIsAccounted(k, h);
    Commute(h, multiset{SENTINEL}, CandidatesOf(ctx, c));
    IdleInv(k, Task(ctx, [c], Idle), h, multiset{SENTINEL}, h + CandidatesOf(ctx, c));
  }

  lemma Commute(a: Heap, b: Heap, c: Heap)
    ensures a + b + c == a + c + b
  {
  }

  ghost predicate AloneInv(k: nat, m: Moment, all: Heap) {
    exists lost :: Inv(k, Alone(m, lost), all)
  }

  ghost predicate AloneOrderInv(k: nat, m: Moment, all: Heap) {
    exists lost :: OrderInv(k, Alone(m, lost), all, 0.0)
  }

  ghost function LocalNextOf(k: nat): (Moment, Moment) -> bool {
    (m: Moment, m': Moment) => LocalNext(k, true, m, m')
  }

  lemma AloneStep(k: nat, m: Moment, m': Moment, lost: Heap, all: Heap) returns (lost': Heap)
    requires OwnStep(k, m, m') && Inv(k, Alone(m, lost), all)
    ensures Next(k, Alone(m, lost), Alone(m', lost'))
  {
    var out :| TaskStep(k, m.task, m.heap, m'.task, m'.heap, out);
    lost' := lost + out;
    NextByTask(k, Alone(m, lost), 0, m'.task, m'.heap, out);
    assert [m.task][0 := m'.task] == [m'.task];
  }

  lemma AloneStepKeepsInv(k: nat, m: Moment, m': Moment, all: Heap)
    requires LocalNext(k, true, m, m') && AloneInv(k, m, all)
    ensures AloneInv(k, m', all)
  {
    if m' != m {
      var lost :| Inv(k, Alone(m, lost), all);
      var lost' := AloneStep(k, m, m', lost, all);
      StepKeepsInv(k, Alone(m, lost), Alone(m', lost'), all);
    }
  }

  lemma AloneStepKeepsOrder(k: nat, m: Moment, m': Moment, all: Heap)
    requires LocalNext(k, true, m, m') && AloneOrderInv(k, m, all)
    ensures AloneOrderInv(k, m', all)
  {
    if m' != m {
      var lost :| OrderInv(k, Alone(m, lost), all, 0.0);
      var lost' := AloneStep(k, m, m', lost, all);
      StepKeepsOrderInv(k, Alone(m, lost), Alone(m', lost'), all, 0.0);
    }
  }

  lemma LocalRunSteps(k: nat, run: seq<Moment>)
    requires IsLocalRun(k, true, run)
    ensures forall i :: 0 <= i < |run| - 1 ==> Runs.Steps(run, LocalNextOf(k), i)
  {
    forall i | 0 <= i < |run| - 1 ensures Runs.Steps(run, LocalNextOf(k), i) {
      assert StepTo(k, true, run, i + 1);
    }
  }

  lemma AloneKeepsInv(k: nat, start: Origin, m: Moment, all: Heap)
    requires start.alone && Leads(k, start, m) && AloneInv(k, start.moment, all)
    ensures AloneInv(k, m, all)
  {
    var run :| IsLocalRun(k, true, run) && run[0] == start.moment && run[|run| - 1] == m;
    LocalRunSteps(k, run);
    var holds := (m: Moment) => AloneInv(k, m, all);
    forall s, s' | holds(s) && LocalNextOf(k)(s, s') ensures holds(s') {
      AloneStepKeepsInv(k, s, s', all);
    }
    Runs.HoldsAlong(run, LocalNextOf(k), holds, |run| - 1);
  }

  lemma AloneKeepsOrder(k: nat, start: Origin, m: Moment, all: Heap)
    requires start.alone && Leads(k, start, m) && AloneOrderInv(k, start.moment, all)
    ensures AloneOrderInv(k, m, all)
  {
    var run :| IsLocalRun(k, true, run) && run[0] == start.moment && run[|run| - 1] == m;
    LocalRunSteps(k, run);
    var holds := (m: Moment) => AloneOrderInv(k, m, all);
    forall s, s' | holds(s) && LocalNextOf(k)(s, s') ensures holds(s') {
      AloneStepKeepsOrder(k, s, s', all);
    }
    Runs.HoldsAlong(run, LocalNextOf(k), holds, |run| - 1);
  }

  /** At the end nothing is held, and the heap holds k real candidates. */
  lemma AloneDone(k: nat, ctx: Context, h': Heap, lost: Heap, all: Heap)
    requires Inv(k, Alone(Moment(Task(ctx, [], Idle), h'), lost), all) && |all| >= k
    ensures CountsRight(k, h', all) && AllFinite(h')
    ensures all - h' == lost - multiset{SENTINEL}
  {
    var s := Alone(Moment(Task(ctx, [], Idle), h'), lost);
    DoneCounts(k, s, all);
    KeptSize(h');
  }

  lemma KeptSize(h: Heap)
    ensures if SENTINEL in h then |Kept(h)| == |h| - 1 else Kept(h) == h
  {
    if SENTINEL in h {
      assert h == Kept(h) + multiset{SENTINEL};
    }
  }

  lemma FullVisitCounts(k: nat, ctx: Context, h: Heap, c: Cluster, h': Heap)
    requires Fits(ctx, c) && Roomy(ctx, c) && k >= 1 && |h| == k && AllFinite(h)
    requires Leads(k, Origin(Moment(Task(ctx, [c], Idle), h), true), Moment(Task(ctx, [], Idle), h'))
    ensures CountsRight(k, h', h + CandidatesOf(ctx, c)) && AllFinite(h')
  {
    var first, last := Moment(Task(ctx, [c], Idle), h), Moment(Task(ctx, [], Idle), h');
    var all := h + CandidatesOf(ctx, c);
    FullHeapInv(k, ctx, c, h);
    AloneKeepsInv(k, Origin(first, true), last, all);
    var lost :| Inv(k, Alone(last, lost), all);
    AloneDone(k, ctx, h', lost, all);
  }

  // ---------------------------------------------------------------- lossless probing

  /** Every distance in the heap is one the index has published. */
  ghost predicate OnOwnGrid(ctx: Context, h: Heap) {
    forall x: Candidate | x in h :: IsOwn(ctx, x.distance)
  }

  ghost predicate IsOwn(ctx: Context, r: real) {
    exists n: nat :: IsPublished(ctx, r, n)
  }

  lemma ClusterIsOnGrid(ctx: Context, c: Cluster)
    requires Fits(ctx, c) && Roomy(ctx, c)
    ensures OnOwnGrid(ctx, CandidatesOf(ctx, c))
  {
    forall x: Candidate | x in CandidatesOf(ctx, c) ensures IsOwn(ctx, x.distance) {
      var n := ClusterOnGrid(ctx, c, x);
    }
  }

  lemma OwnGridFaithful(ctx: Context, t: Task, all: Heap)
    requires t.ctx == ctx && LosslessAlone(ctx) && OnOwnGrid(ctx, all)
    ensures AllFaithful([t], all, 0.0)
  {
    forall top | IsDistance(all, top) ensures Faithful(ctx, top, 0.0) {
      if top == FLT_MAX {
        SentinelFaithful(ctx, 0.0);
      } else {
        var x :| x in all && x.distance == top;
        assert IsOwn(ctx, top);
        var n: nat :| IsPublished(ctx, top, n);
        AloneFaithful(ctx, top, n);
      }
    }
  }

  /** With a lossless pruner a full heap becomes the k nearest of itself and the cluster. */
  lemma FullVisitIsNearest(k: nat, ctx: Context, h: Heap, c: Cluster, h': Heap)
    requires Fits(ctx, c) && Roomy(ctx, c) && k >= 1 && |h| == k && AllFinite(h)
    requires LosslessAlone(ctx) && OnOwnGrid(ctx, h)
    requires Leads(k, Origin(Moment(Task(ctx, [c], Idle), h), true), Moment(Task(ctx, [], Idle), h'))
    ensures NearestUpTo(k, h', h + CandidatesOf(ctx, c), 0.0)
  {
    var first, last := Moment(Task(ctx, [c], Idle), h), Moment(Task(ctx, [], Idle), h');
    var all := h + CandidatesOf(ctx, c);
    FullHeapInv(k, ctx, c, h);
    FullHeapFaithful(ctx, c, h);
    assert OrderInv(k, Alone(first, multiset{SENTINEL}), all, 0.0);
    AloneKeepsOrder(k, Origin(first, true), last, all);
    var lost :| OrderInv(k, Alone(last, lost), all, 0.0);
    AloneIsNearest(k, ctx, h', lost, all);
  }

  lemma FullHeapFaithful(ctx: Context, c: Cluster, h: Heap)
    requires Fits(ctx, c) && Roomy(ctx, c) && |h| > 0 && AllFinite(h)
    requires LosslessAlone(ctx) && OnOwnGrid(ctx, h)
    ensures AllFaithful([Task(ctx, [c], Idle)], h + CandidatesOf(ctx, c), 0.0)
    ensures Ordered(h, multiset{SENTINEL}, 0.0)
  {
    ClusterIsOnGrid(ctx, c);
    OwnGridFaithful(ctx, Task(ctx, [c], Idle), h + CandidatesOf(ctx, c));
    TopsAreFinite(h);
  }

  lemma AloneIsNearest(k: nat, ctx: Context, h': Heap, lost: Heap, all: Heap)
    requires Inv(k, Alone(Moment(Task(ctx, [], Idle), h'), lost), all) && |all| >= k
    requires Ordered(h', lost, 0.0)
    ensures NearestUpTo(k, h', all, 0.0)
  {
    AloneDone(k, ctx, h', lost, all);
    forall x: Candidate, y: Candidate | x in all - h' && y in h' ensures y.distance <= x.distance {
      assert x in lost;
    }
  }

  lemma TopsAreFinite(h: Heap)
    requires |h| > 0 && AllFinite(h)
    ensures Ordered(h, multiset{SENTINEL}, 0.0)
  {
    var r := TopDistance(h);
    var x :| IsTop(h, x) && x.distance == r;
  }

  // ---------------------------------------------------------------- whole searches

  ghost predicate ValidQueue(ctx: Context, queue: seq<Cluster>) {
    forall i :: 0 <= i < |queue| ==> Fits(ctx, queue[i]) && Roomy(ctx, queue[i])
  }

  /** The heaps before the first and after every cluster of a search. */
  ghost predicate IsGlobalRun(k: nat, ctx: Context, queue: seq<Cluster>, heaps: seq<Heap>)
    requires ValidQueue(ctx, queue)
  {
    && |heaps| == |queue| + 1 && heaps[0] == multiset{}
    && forall i :: 0 <= i < |queue| ==> VisitsAt(k, ctx, queue, heaps, i)
  }

  ghost predicate VisitsAt(k: nat, ctx: Context, queue: seq<Cluster>, heaps: seq<Heap>, i: int)
    requires ValidQueue(ctx, queue) && |heaps| == |queue| + 1 && 0 <= i < |queue|
  {
    Visits(k, ctx, heaps[i], queue[i], heaps[i + 1])
  }

  /** The eligible vectors of each cluster. */
  ghost function Portions(ctx: Context, queue: seq<Cluster>): (hs: seq<Heap>)
    requires ValidQueue(ctx, queue)
    ensures |hs| == |queue| && forall j :: 0 <= j < |queue| ==> hs[j] == CandidatesOf(ctx, queue[j])
  {
    seq(|queue|, j requires 0 <= j < |queue| => CandidatesOf(ctx, queue[j]))
  }

  ghost function SumTo(hs: seq<Heap>, n: nat): Heap
    requires n <= |hs|
  {
    if n == 0 then multiset{} else SumTo(hs, n - 1) + hs[n - 1]
  }

  /** The selected vectors of the first `n` clusters. */
  ghost function Eligible(ctx: Context, queue: seq<Cluster>, n: nat): Heap
    requires ValidQueue(ctx, queue) && n <= |queue|
  {
    SumTo(Portions(ctx, queue), n)
  }

  ghost predicate HeapInv(k: nat, ctx: Context, h: Heap, all: Heap) {
    CountsRight(k, h, all) && AllFinite(all) && OnOwnGrid(ctx, all)
  }

  /** Some candidate of `h` is nearest of all. */
  ghost predicate HasNearest(h: Heap, all: Heap) {
    all == multiset{} || exists y :: IsNearest(h, all, y)
  }

  ghost predicate IsNearest(h: Heap, all: Heap, y: Candidate) {
    y in h && forall x: Candidate | x in all :: y.distance <= x.distance
  }

  lemma PartOfSameSize(h: Heap, all: Heap)
    requires h <= all && |h| == |all|
    ensures h == all
  {
    assert all == h + (all - h);
  }

  lemma NothingSelected(ctx: Context, c: Cluster)
    requires Fits(ctx, c) && Selected(c) == []
    ensures CandidatesOf(ctx, c) == multiset{}
  {
  }

  lemma StartKeepsCount(k: nat, h: Heap, cand: Heap, h': Heap, taken: Heap, all: Heap)
    requires CountsRight(k, h, all) && |h| < k && TakesNearest(k, h, cand, h', taken)
    ensures h == all && CountsRight(k, h', all + cand)
  {
    PartOfSameSize(h, all);
  }

  lemma FullKeepsCount(k: nat, h: Heap, cand: Heap, h': Heap, all: Heap)
    requires CountsRight(k, h, all) && |h| == k && CountsRight(k, h', h + cand)
    ensures CountsRight(k, h', all + cand)
  {
    assert all == h + (all - h);
    assert h + cand <= all + cand;
  }

  lemma VisitKeepsCount(k: nat, ctx: Context, h: Heap, c: Cluster, h': Heap, all: Heap)
    requires Fits(ctx, c) && Roomy(ctx, c) && k >= 1 && Visits(k, ctx, h, c, h') && HeapInv(k, ctx, h, all)
    ensures CountsRight(k, h', all + CandidatesOf(ctx, c))
  {
    if Selected(c) == [] {
      NothingSelected(ctx, c);
    } else if |h| < k {
      var taken :| TakesNearest(k, h, CandidatesOf(ctx, c), h', taken);
      StartKeepsCount(k, h, CandidatesOf(ctx, c), h', taken, all);
    } else {
      FullVisitCounts(k, ctx, h, c, h');
      FullKeepsCount(k, h, CandidatesOf(ctx, c), h', all);
    }
  }

  lemma VisitKeepsInv(k: nat, ctx: Context, h: Heap, c: Cluster, h': Heap, all: Heap)
    requires Fits(ctx, c) && Roomy(ctx, c) && k >= 1 && Visits(k, ctx, h, c, h') && HeapInv(k, ctx, h, all)
    ensures HeapInv(k, ctx, h', all + CandidatesOf(ctx, c))
  {
    VisitKeepsCount(k, ctx, h, c, h', all);
    OneClusterIsFinite(ctx, c);
    ClusterIsOnGrid(ctx, c);
  }

  lemma EmptyInv(k: nat, ctx: Context)
    ensures HeapInv(k, ctx, multiset{}, multiset{})
  {
  }

  lemma NextCounts(k: nat, ctx: Context, queue: seq<Cluster>, heaps: seq<Heap>, i: nat, all: Heap)
    requires ValidQueue(ctx, queue) && |heaps| == |queue| + 1 && k >= 1 && i < |queue|
    requires VisitsAt(k, ctx, queue, heaps, i) && HeapInv(k, ctx, heaps[i], all)
    ensures HeapInv(k, ctx, heaps[i + 1], all + CandidatesOf(ctx, queue[i]))
  {
    VisitKeepsInv(k, ctx, heaps[i], queue[i], heaps[i + 1], all);
  }

  ghost predicate CountedAt(k: nat, ctx: Context, queue: seq<Cluster>, heaps: seq<Heap>, n: nat)
    requires ValidQueue(ctx, queue) && |heaps| == |queue| + 1
  {
    n <= |queue| ==> HeapInv(k, ctx, heaps[n], Eligible(ctx, queue, n))
  }

  ghost function Counts(k: nat, ctx: Context, queue: seq<Cluster>, heaps: seq<Heap>): nat -> bool
    requires ValidQueue(ctx, queue) && |heaps| == |queue| + 1
  {
    (i: nat) => CountedAt(k, ctx, queue, heaps, i)
  }

  lemma CountedNext(k: nat, ctx: Context, queue: seq<Cluster>, heaps: seq<Heap>, i: nat)
    requires ValidQueue(ctx, queue) && IsGlobalRun(k, ctx, queue, heaps) && k >= 1 && i < |queue|
    ensures Runs.KeptAt(Counts(k, ctx, queue, heaps), i)
  {
    if CountedAt(k, ctx, queue, heaps, i) {
      CountedStep(k, ctx, queue, heaps, i);
    }
  }

  lemma CountedStep(k: nat, ctx: Context, queue: seq<Cluster>, heaps: seq<Heap>, i: nat)
    requires ValidQueue(ctx, queue) && IsGlobalRun(k, ctx, queue, heaps) && k >= 1 && i < |queue|
    requires CountedAt(k, ctx, queue, heaps, i)
    ensures CountedAt(k, ctx, queue, heaps, i + 1)
  {
    assert VisitsAt(k, ctx, queue, heaps, i);
    NextCounts(k, ctx, queue, heaps, i, Eligible(ctx, queue, i));
  }

  lemma RunCounts(k: nat, ctx: Context, queue: seq<Cluster>, heaps: seq<Heap>, n: nat)
    requires ValidQueue(ctx, queue) && IsGlobalRun(k, ctx, queue, heaps) && k >= 1 && n <= |queue|
    ensures HeapInv(k, ctx, heaps[n], Eligible(ctx, queue, n))
  {
    EmptyInv(k, ctx);
    forall i: nat | i < n ensures Runs.KeptAt(Counts(k, ctx, queue, heaps), i) {
      CountedNext(k, ctx, queue, heaps, i);
    }
    Runs.HoldsUpTo(Counts(k, ctx, queue, heaps), n);
  }

  /** Whatever the pruner's ratios, the search ends with min(k, n) of the n eligible vectors in the
      visited clusters, and with nothing else. */
  lemma GlobalSearchCounts(k: nat, ctx: Context, queue: seq<Cluster>, heaps: seq<Heap>)
    requires ValidQueue(ctx, queue) && IsGlobalRun(k, ctx, queue, heaps) && k >= 1
    ensures CountsRight(k, heaps[|queue|], Eligible(ctx, queue, |queue|))
  {
    RunCounts(k, ctx, queue, heaps, |queue|);
  }

  // ---------------------------------------------------------------- the nearest vector is never lost

  lemma {:induction false} NearestExists(h: Heap) returns (y: Candidate)
    requires |h| > 0
    ensures IsNearest(h, h, y)
    decreases |h|
  {
    y :| y in h;
    var rest := h - multiset{y};
    assert forall x: Candidate | x in h :: x == y || x in rest;
    if |rest| > 0 {
      var z := NearestExists(rest);
      if z.distance < y.distance {
        y := z;
      }
    }
  }

  lemma NearerOfTwo(h: Heap, all: Heap, taken: Heap, cand: Heap, y: Candidate, z: Candidate)
    requires IsNearest(h, all, y) && IsNearest(taken, cand, z)
    ensures HasNearest(h + taken, all + cand)
  {
    assert IsNearest(h + taken, all + cand, if y.distance <= z.distance then y else z);
  }

  lemma StartKeepsNearest(k: nat, h: Heap, cand: Heap, h': Heap, taken: Heap, all: Heap)
    requires |h| < k && TakesNearest(k, h, cand, h', taken) && |cand| > 0 && HasNearest(h, all)
    ensures HasNearest(h', all + cand)
  {
    var z := NearestExists(taken);
    assert forall x: Candidate | x in cand :: x in taken || x in cand - taken;
    assert IsNearest(taken, cand, z);
    if all == multiset{} {
      assert IsNearest(h', all + cand, z);
    } else {
      var y :| IsNearest(h, all, y);
      NearerOfTwo(h, all, taken, cand, y, z);
    }
  }

  lemma FullKeepsNearest(k: nat, h: Heap, cand: Heap, h': Heap, all: Heap)
    requires k >= 1 && |h| == k && NearestUpTo(k, h', h + cand, 0.0) && HasNearest(h, all) && h <= all
    ensures HasNearest(h', all + cand)
  {
    var z := NearestExists(h');
    forall x: Candidate | x in h + cand ensures z.distance <= x.distance {
      assert x in h' || x in h + cand - h';
    }
    assert all != multiset{};
    var y :| IsNearest(h, all, y);
    assert IsNearest(h', all + cand, z);
  }

  lemma SelectedHasCandidates(ctx: Context, c: Cluster)
    requires Fits(ctx, c) && Selected(c) != []
    ensures |CandidatesOf(ctx, c)| > 0
  {
    CandidatesCount(ctx, c, Selected(c));
  }

  lemma VisitKeepsNearest(k: nat, ctx: Context, h: Heap, c: Cluster, h': Heap, all: Heap)
    requires Fits(ctx, c) && Roomy(ctx, c) && k >= 1 && Visits(k, ctx, h, c, h') && HeapInv(k, ctx, h, all)
    requires LosslessAlone(ctx) && HasNearest(h, all)
    ensures HasNearest(h', all + CandidatesOf(ctx, c))
  {
    if Selected(c) == [] {
      NothingSelected(ctx, c);
      assert all + CandidatesOf(ctx, c) == all;
    } else if |h| < k {
      var taken :| TakesNearest(k, h, CandidatesOf(ctx, c), h', taken);
      SelectedHasCandidates(ctx, c);
      StartKeepsNearest(k, h, CandidatesOf(ctx, c), h', taken, all);
    } else {
      FullVisitIsNearest(k, ctx, h, c, h');
      FullKeepsNearest(k, h, CandidatesOf(ctx, c), h', all);
    }
  }

  lemma NextKeepsNearest(k: nat, ctx: Context, queue: seq<Cluster>, heaps: seq<Heap>, i: nat, all: Heap)
    requires ValidQueue(ctx, queue) && |heaps| == |queue| + 1 && k >= 1 && i < |queue|
    requires VisitsAt(k, ctx, queue, heaps, i) && HeapInv(k, ctx, heaps[i], all)
    requires LosslessAlone(ctx) && HasNearest(heaps[i], all)
    ensures HasNearest(heaps[i + 1], all + CandidatesOf(ctx, queue[i]))
  {
    VisitKeepsNearest(k, ctx, heaps[i], queue[i], heaps[i + 1], all);
  }

  ghost predicate NearestAt(ctx: Context, queue: seq<Cluster>, heaps: seq<Heap>, n: nat)
    requires ValidQueue(ctx, queue) && |heaps| == |queue| + 1
  {
    n <= |queue| ==> HasNearest(heaps[n], Eligible(ctx, queue, n))
  }

  lemma NothingToFind(ctx: Context, queue: seq<Cluster>, heaps: seq<Heap>)
    requires ValidQueue(ctx, queue) && |heaps| == |queue| + 1
    ensures NearestAt(ctx, queue, heaps, 0)
  {
  }

  lemma NearestNext(k: nat, ctx: Context, queue: seq<Cluster>, heaps: seq<Heap>, i: nat)
    requires ValidQueue(ctx, queue) && IsGlobalRun(k, ctx, queue, heaps) && k >= 1 && i < |queue|
    ensures LosslessAlone(ctx) && NearestAt(ctx, queue, heaps, i)
            ==> NearestAt(ctx, queue, heaps, i + 1)
  {
    assert VisitsAt(k, ctx, queue, heaps, i);
    RunCounts(k, ctx, queue, heaps, i);
    if LosslessAlone(ctx) && NearestAt(ctx, queue, heaps, i) {
      NextKeepsNearest(k, ctx, queue, heaps, i, Eligible(ctx, queue, i));
    }
  }

  ghost function FindsNearest(ctx: Context, queue: seq<Cluster>, heaps: seq<Heap>): nat -> bool
    requires ValidQueue(ctx, queue) && |heaps| == |queue| + 1
  {
    (i: nat) => LosslessAlone(ctx) ==> NearestAt(ctx, queue, heaps, i)
  }

  lemma KeepsFinding(k: nat, ctx: Context, queue: seq<Cluster>, heaps: seq<Heap>, i: nat)
    requires ValidQueue(ctx, queue) && IsGlobalRun(k, ctx, queue, heaps) && k >= 1 && i < |queue|
    ensures Runs.KeptAt(FindsNearest(ctx, queue, heaps), i)
  {
    NearestNext(k, ctx, queue, heaps, i);
  }

  /** With a lossless pruner a nearest eligible vector is always found. */
  lemma GlobalSearchFindsNearest(k: nat, ctx: Context, queue: seq<Cluster>, heaps: seq<Heap>, n: nat)
    requires ValidQueue(ctx, queue) && IsGlobalRun(k, ctx, queue, heaps) && k >= 1 && n <= |queue|
    ensures LosslessAlone(ctx) ==> HasNearest(heaps[n], Eligible(ctx, queue, n))
  {
    NothingToFind(ctx, queue, heaps);
    forall i: nat | i < n ensures Runs.KeptAt(FindsNearest(ctx, queue, heaps), i) {
      KeepsFinding(k, ctx, queue, heaps, i);
    }
    Runs.HoldsUpTo(FindsNearest(ctx, queue, heaps), n);
  }

  // ---------------------------------------------------------------- only rows that passed

  lemma {:induction false} SomePortion(hs: seq<Heap>, n: nat, x: Candidate) returns (i: nat)
    requires n <= |hs| && x in SumTo(hs, n)
    ensures i < n && x in hs[i]
    decreases n
  {
    if x in hs[n - 1] {
      i := n - 1;
    } else {
      i := SomePortion(hs, n - 1, x);
    }
  }

  // ---------------------------------------------------------------- the searches

  /** The clusters at the first `n` places of the access order. */
  function Visited(ctx: Context, clusters: seq<StoredCluster>, order: seq<nat>, filtered: bool, passing: seq<nat>,
                   n: nat): (queue: seq<Cluster>)
    requires ValidClusters(ctx, clusters) && IsAccessOrder(order, |clusters|) && n <= |order|
    ensures |queue| == n
    ensures forall i :: 0 <= i < n ==> queue[i] == ClusterAt(ctx, clusters, order, filtered, passing, i)
  {
    seq(n, i requires 0 <= i < n => ClusterAt(ctx, clusters, order, filtered, passing, i))
  }

  /** One cluster: skipped, scanned in full or pruned. */
  method VisitCluster(ctx: Context, st: StoredCluster, filtered: bool, sel: seq<bool>, passing: nat, k: nat,
                      positions: array<nat>, distances: array<int>, heap: SharedHeap)
    requires ValidStored(ctx, st) && |sel| == |st.ids| <= positions.Length && |st.ids| <= distances.Length
    requires !filtered ==> sel == AllOf(|st.ids|)
    requires passing == |Selected(View(ctx, st, sel))| && BelowMask(ctx, View(ctx, st, sel))
    requires heap.others == [] && |heap.items| <= k && k >= 1
    modifies positions, distances, heap
    ensures heap.others == [] && Visits(k, ctx, old(heap.items), View(ctx, st, sel), heap.items)
  {
    ghost var c := View(ctx, st, sel);
    if passing == 0 || |st.ids| == 0 {
      return;
    }
    if |heap.items| < k {
      ghost var h := heap.items;
      ghost var taken;
      if filtered {
        taken := FilteredStart(ctx, st, k, sel, passing, positions, distances, heap);
      } else {
        taken := Start(ctx, st, k, distances, heap);
      }
      assert TakesNearest(k, h, CandidatesOf(ctx, c), heap.items, taken);
    } else {
      ProbeAlone(ctx, st, filtered, sel, passing, k, positions, distances, heap);
    }
  }

  method ProbeAlone(ctx: Context, st: StoredCluster, filtered: bool, sel: seq<bool>, passing: nat, k: nat,
                    positions: array<nat>, distances: array<int>, heap: SharedHeap)
    requires ValidStored(ctx, st) && |sel| == |st.ids| <= positions.Length && |st.ids| <= distances.Length
    requires !filtered ==> sel == AllOf(|st.ids|)
    requires passing == |Selected(View(ctx, st, sel))| && heap.others == [] && |heap.items| > 0
    modifies positions, distances, heap
    ensures heap.others == []
    ensures Leads(k, Origin(Moment(Task(ctx, [View(ctx, st, sel)], Idle), old(heap.items)), true),
                  Moment(Task(ctx, [], Idle), heap.items))
  {
    ghost var c := View(ctx, st, sel);
    ghost var start := Origin(Moment(Task(ctx, [c], Idle), heap.items), true);
    LeadsToItself(k, start);
    assert [c] + [] == [c];
    ProbeCluster(ctx, st, filtered, sel, passing, k, positions, distances, heap, start, []);
  }

  /** A search that visits `queue` can end with the heap `h`. */
  ghost predicate Reachable(k: nat, ctx: Context, queue: seq<Cluster>, h: Heap)
    requires ValidQueue(ctx, queue)
  {
    exists heaps :: IsGlobalRun(k, ctx, queue, heaps) && heaps[|queue|] == h
  }

  lemma StartIsReachable(k: nat, ctx: Context)
    ensures Reachable(k, ctx, [], multiset{})
  {
    assert IsGlobalRun(k, ctx, [], [multiset{}]);
  }

  lemma SameVisit(k: nat, ctx: Context, queue: seq<Cluster>, heaps: seq<Heap>, more: seq<Cluster>, longer: seq<Heap>,
                  i: nat)
    requires ValidQueue(ctx, queue) && ValidQueue(ctx, more) && |heaps| == |queue| + 1 && |longer| == |more| + 1
    requires i < |queue| && queue <= more && heaps <= longer && VisitsAt(k, ctx, queue, heaps, i)
    ensures VisitsAt(k, ctx, more, longer, i)
  {
  }

  lemma LongerRun(k: nat, ctx: Context, queue: seq<Cluster>, heaps: seq<Heap>, c: Cluster, h': Heap)
    requires ValidQueue(ctx, queue) && IsGlobalRun(k, ctx, queue, heaps) && ValidQueue(ctx, queue + [c])
    requires Fits(ctx, c) && Visits(k, ctx, heaps[|queue|], c, h')
    ensures IsGlobalRun(k, ctx, queue + [c], heaps + [h'])
  {
    var more, longer := queue + [c], heaps + [h'];
    forall i | 0 <= i < |more| ensures VisitsAt(k, ctx, more, longer, i) {
      if i < |queue| {
        assert VisitsAt(k, ctx, queue, heaps, i);
        SameVisit(k, ctx, queue, heaps, more, longer, i);
      }
    }
  }

  lemma VisitIsReachable(k: nat, ctx: Context, queue: seq<Cluster>, h: Heap, c: Cluster, h': Heap)
    requires ValidQueue(ctx, queue) && Reachable(k, ctx, queue, h) && ValidQueue(ctx, queue + [c])
    requires Fits(ctx, c) && Visits(k, ctx, h, c, h')
    ensures Reachable(k, ctx, queue + [c], h')
  {
    var heaps :| IsGlobalRun(k, ctx, queue, heaps) && heaps[|queue|] == h;
    LongerRun(k, ctx, queue, heaps, c, h');
    assert (heaps + [h'])[|queue + [c]|] == h';
  }

  lemma ReachableCounts(k: nat, ctx: Context, queue: seq<Cluster>, h: Heap)
    requires ValidQueue(ctx, queue) && Reachable(k, ctx, queue, h) && k >= 1
    ensures HeapInv(k, ctx, h, Eligible(ctx, queue, |queue|))
    ensures LosslessAlone(ctx) ==> HasNearest(h, Eligible(ctx, queue, |queue|))
  {
    var heaps :| IsGlobalRun(k, ctx, queue, heaps) && heaps[|queue|] == h;
    RunCounts(k, ctx, queue, heaps, |queue|);
    GlobalSearchFindsNearest(k, ctx, queue, heaps, |queue|);
  }

  /** min(k, n) of the n eligible candidates, nearest first, and with a lossless pruner the first one
      is nearest of all. */
  ghost predicate IsGlobalResult(k: nat, ctx: Context, queue: seq<Cluster>, result: seq<Candidate>)
    requires ValidQueue(ctx, queue)
  {
    var all := Eligible(ctx, queue, |queue|);
    && CountsRight(k, multiset(result), all) && SortedByDistance(result)
    && (LosslessAlone(ctx) && all != multiset{} ==>
          result != [] && forall x: Candidate | x in all :: result[0].distance <= x.distance)
  }

  lemma ProperIsHeap(h: Heap, proper: Heap)
    requires AllFinite(h) && WithoutTopElement(h, proper)
    ensures proper == h
  {
    if |h| > 0 {
      var r := TopDistance(h);
      var x :| IsTop(h, x) && x.distance == r;
    }
  }

  lemma DrainedCompletely(h: Heap, left: Heap, result: seq<Candidate>)
    requires Drained(h, left, result) && |result| == |h|
    ensures multiset(result) == h
  {
    assert |left + multiset(result)| == |left| + |result|;
  }

  lemma FirstIsNearest(h: Heap, all: Heap, result: seq<Candidate>)
    requires HasNearest(h, all) && all != multiset{} && multiset(result) == h && SortedByDistance(result)
    ensures result != [] && forall x: Candidate | x in all :: result[0].distance <= x.distance
  {
    var y :| IsNearest(h, all, y);
    assert y in multiset(result);
    var j :| 0 <= j < |result| && result[j] == y;
  }

  lemma ResultOfReachable(k: nat, ctx: Context, queue: seq<Cluster>, h: Heap, proper: Heap, left: Heap,
                          result: seq<Candidate>)
    requires ValidQueue(ctx, queue) && Reachable(k, ctx, queue, h) && k >= 1
    requires WithoutTopElement(h, proper) && |result| == Min(|proper|, k) && Drained(proper, left, result)
    ensures IsGlobalResult(k, ctx, queue, result)
  {
    ReachableCounts(k, ctx, queue, h);
    ProperIsHeap(h, proper);
    DrainedCompletely(h, left, result);
    var all := Eligible(ctx, queue, |queue|);
    if LosslessAlone(ctx) && all != multiset{} {
      FirstIsNearest(h, all, result);
    }
  }

  /** Every cluster of the index, with the rows `passing` selected, has headroom, and masked vectors do
      not get ahead of selected ones while the heap is filled. */
  ghost predicate Searchable(ctx: Context, clusters: seq<StoredCluster>, order: seq<nat>, filtered: bool,
                             passing: seq<nat>)
    requires ValidClusters(ctx, clusters) && IsAccessOrder(order, |clusters|)
  {
    forall i :: 0 <= i < |order| ==>
      var c := ClusterAt(ctx, clusters, order, filtered, passing, i); Roomy(ctx, c) && BelowMask(ctx, c)
  }

  lemma VisitedIsValid(ctx: Context, clusters: seq<StoredCluster>, order: seq<nat>, filtered: bool, passing: seq<nat>,
                       n: nat)
    requires ValidClusters(ctx, clusters) && IsAccessOrder(order, |clusters|) && n <= |order|
    requires Searchable(ctx, clusters, order, filtered, passing)
    ensures ValidQueue(ctx, Visited(ctx, clusters, order, filtered, passing, n))
    ensures n < |order| ==> Visited(ctx, clusters, order, filtered, passing, n + 1)
                            == Visited(ctx, clusters, order, filtered, passing, n)
                               + [ClusterAt(ctx, clusters, order, filtered, passing, n)]
  {
  }

  ghost predicate AfterVisiting(k: nat, ctx: Context, clusters: seq<StoredCluster>, order: seq<nat>, filtered: bool,
                                passing: seq<nat>, n: nat, h: Heap)
    requires ValidClusters(ctx, clusters) && IsAccessOrder(order, |clusters|) && n <= |order|
    requires Searchable(ctx, clusters, order, filtered, passing)
  {
    VisitedIsValid(ctx, clusters, order, filtered, passing, n);
    |h| <= k && Reachable(k, ctx, Visited(ctx, clusters, order, filtered, passing, n), h)
  }

  lemma VisitedOneMore(k: nat, ctx: Context, clusters: seq<StoredCluster>, order: seq<nat>, filtered: bool,
                       passing: seq<nat>, n: nat, h: Heap, h': Heap)
    requires ValidClusters(ctx, clusters) && IsAccessOrder(order, |clusters|) && n < |order| && k >= 1
    requires Searchable(ctx, clusters, order, filtered, passing)
    requires AfterVisiting(k, ctx, clusters, order, filtered, passing, n, h)
    requires Visits(k, ctx, h, ClusterAt(ctx, clusters, order, filtered, passing, n), h')
    ensures AfterVisiting(k, ctx, clusters, order, filtered, passing, n + 1, h')
  {
    VisitedIsValid(ctx, clusters, order, filtered, passing, n);
    VisitedIsValid(ctx, clusters, order, filtered, passing, n + 1);
    var queue := Visited(ctx, clusters, order, filtered, passing, n);
    var c := ClusterAt(ctx, clusters, order, filtered, passing, n);
    VisitIsReachable(k, ctx, queue, h, c, h');
    ReachableCounts(k, ctx, queue + [c], h');
  }

  lemma NothingVisited(k: nat, ctx: Context, clusters: seq<StoredCluster>, order: seq<nat>, filtered: bool,
                       passing: seq<nat>)
    requires ValidClusters(ctx, clusters) && IsAccessOrder(order, |clusters|)
    requires Searchable(ctx, clusters, order, filtered, passing)
    ensures AfterVisiting(k, ctx, clusters, order, filtered, passing, 0, multiset{})
  {
    assert Visited(ctx, clusters, order, filtered, passing, 0) == [];
    StartIsReachable(k, ctx);
  }

  /** The results of a search over the first clusters of the order. */
  ghost predicate IsResultOfVisits(k: nat, ctx: Context, clusters: seq<StoredCluster>, order: seq<nat>, filtered: bool,
                           passing: seq<nat>, n: nat, result: seq<Candidate>)
    requires ValidClusters(ctx, clusters) && IsAccessOrder(order, |clusters|) && n <= |order|
    requires Searchable(ctx, clusters, order, filtered, passing)
  {
    VisitedIsValid(ctx, clusters, order, filtered, passing, n);
    IsGlobalResult(k, ctx, Visited(ctx, clusters, order, filtered, passing, n), result)
  }

  predicate AsManyAsRows(hs: seq<Heap>, clusters: seq<StoredCluster>, order: seq<nat>, filtered: bool,
                         passing: seq<nat>, i: nat)
    requires i < |hs| && i < |order| && order[i] < |clusters|
  {
    |hs[i]| == |RowsOf(clusters[order[i]], filtered, passing)|
  }

  lemma {:induction false} SumIsRows(hs: seq<Heap>, clusters: seq<StoredCluster>, order: seq<nat>, filtered: bool,
                                     passing: seq<nat>, n: nat)
    requires n <= |hs| && n <= |order| && forall i :: 0 <= i < |order| ==> order[i] < |clusters|
    requires forall i :: 0 <= i < n ==> AsManyAsRows(hs, clusters, order, filtered, passing, i)
    ensures |SumTo(hs, n)| == RowsAt(clusters, order[..n], filtered, passing)
    decreases n
  {
    if n > 0 {
      SumIsRows(hs, clusters, order, filtered, passing, n - 1);
      assert AsManyAsRows(hs, clusters, order, filtered, passing, n - 1);
      OneMorePlace(clusters, order, filtered, passing, n - 1);
    }
  }

  lemma VisitedCount(ctx: Context, clusters: seq<StoredCluster>, order: seq<nat>, filtered: bool,
                     passing: seq<nat>, queue: seq<Cluster>, n: nat)
    requires ValidClusters(ctx, clusters) && IsAccessOrder(order, |clusters|) && n <= |queue| <= |order|
    requires ValidQueue(ctx, queue)
    requires forall i :: 0 <= i < |queue| ==> queue[i] == ClusterAt(ctx, clusters, order, filtered, passing, i)
    ensures |SumTo(Portions(ctx, queue), n)| == RowsAt(clusters, order[..n], filtered, passing)
  {
    var hs := Portions(ctx, queue);
    forall i | 0 <= i < n ensures AsManyAsRows(hs, clusters, order, filtered, passing, i) {
      ProbedCount(ctx, clusters[order[i]], filtered, passing, queue[i]);
    }
    SumIsRows(hs, clusters, order, filtered, passing, n);
  }

  lemma VisitedRow(ctx: Context, clusters: seq<StoredCluster>, order: seq<nat>, filtered: bool, passing: seq<nat>,
                   queue: seq<Cluster>, n: nat, x: Candidate)
    requires ValidClusters(ctx, clusters) && IsAccessOrder(order, |clusters|) && n == |queue| <= |order|
    requires ValidQueue(ctx, queue) && x in SumTo(Portions(ctx, queue), n)
    requires forall i :: 0 <= i < |queue| ==> queue[i] == ClusterAt(ctx, clusters, order, filtered, passing, i)
    ensures IsRowOf(ctx, clusters, order[..n], filtered, passing, x)
  {
    var i := SomePortion(Portions(ctx, queue), n, x);
    var p := SelectedIsRow(ctx, clusters[order[i]], filtered, passing, queue[i], x);
    assert order[..n][i] == order[i];
  }

  /** The result of a search in terms of the stored clusters. */
  lemma ResultIsProbed(k: nat, ctx: Context, clusters: seq<StoredCluster>, order: seq<nat>, filtered: bool,
                       passing: seq<nat>, nProbe: nat, result: seq<Candidate>)
    requires ValidClusters(ctx, clusters) && IsAccessOrder(order, |clusters|)
    requires Searchable(ctx, clusters, order, filtered, passing)
    requires IsResultOfVisits(k, ctx, clusters, order, filtered, passing, ClustersToProbe(nProbe, |clusters|), result)
    ensures AreProbedRows(k, ctx, clusters, order, filtered, passing, nProbe, result)
  {
    var n := ClustersToProbe(nProbe, |clusters|);
    VisitedIsValid(ctx, clusters, order, filtered, passing, n);
    var queue := Visited(ctx, clusters, order, filtered, passing, n);
    VisitedCount(ctx, clusters, order, filtered, passing, queue, n);
    assert |multiset(result)| == |result|;
    forall j | 0 <= j < |result| ensures IsRowOf(ctx, clusters, order[..n], filtered, passing, result[j]) {
      assert result[j] in multiset(result);
      VisitedRow(ctx, clusters, order, filtered, passing, queue, n, result[j]);
    }
    FirstPlaces(k, ctx, clusters, order, filtered, passing, nProbe, result);
  }

  method FinishSearch(k: nat, ghost ctx: Context, ghost clusters: seq<StoredCluster>, ghost order: seq<nat>,
                      ghost filtered: bool, ghost passing: seq<nat>, ghost n: nat, heap: SharedHeap)
      returns (result: seq<Candidate>)
    requires ValidClusters(ctx, clusters) && IsAccessOrder(order, |clusters|) && n <= |order| && k >= 1
    requires Searchable(ctx, clusters, order, filtered, passing)
    requires AfterVisiting(k, ctx, clusters, order, filtered, passing, n, heap.items)
    modifies heap
    ensures IsResultOfVisits(k, ctx, clusters, order, filtered, passing, n, result)
  {
    ghost var h := heap.items;
    ghost var proper;
    result, proper := heap.BuildResultSet(k);
    VisitedIsValid(ctx, clusters, order, filtered, passing, n);
    ResultOfReachable(k, ctx, Visited(ctx, clusters, order, filtered, passing, n), h, proper, heap.items, result);
  }

  /** Visits the cluster at place `i`. */
  method VisitPlace(ctx: Context, clusters: seq<StoredCluster>, order: seq<nat>, filtered: bool, sel: seq<bool>,
                    passingTuples: nat, i: nat, ghost passing: seq<nat>, k: nat, positions: array<nat>,
                    distances: array<int>, heap: SharedHeap)
    requires ValidClusters(ctx, clusters) && IsAccessOrder(order, |clusters|) && i < |order| && k >= 1
    requires Searchable(ctx, clusters, order, filtered, passing)
    requires var ids := clusters[order[i]].ids;
             && sel == (if filtered then SelectionFor(ids, passing) else AllOf(|ids|))
             && |ids| <= positions.Length && |ids| <= distances.Length
    requires passingTuples == |Selected(ClusterAt(ctx, clusters, order, filtered, passing, i))|
    requires heap.others == [] && AfterVisiting(k, ctx, clusters, order, filtered, passing, i, heap.items)
    modifies positions, distances, heap
    ensures heap.others == [] && AfterVisiting(k, ctx, clusters, order, filtered, passing, i + 1, heap.items)
  {
    ghost var h := heap.items;
    var st := clusters[order[i]];
    assert ClusterAt(ctx, clusters, order, filtered, passing, i) == View(ctx, st, sel);
    VisitCluster(ctx, st, filtered, sel, passingTuples, k, positions, distances, heap);
    VisitedOneMore(k, ctx, clusters, order, filtered, passing, i, h, heap.items);
  }

  /** `SearchGlobal`: visits the first clusters of the access order. */
  method SearchGlobal(searcher: PDXearch, order: seq<nat>, nProbe: nat, k: nat) returns (result: seq<Candidate>)
    requires searcher.Valid() && ValidClusters(searcher.ctx, searcher.clusters) && k >= 1
    requires IsAccessOrder(order, |searcher.clusters|)
    requires Searchable(searcher.ctx, searcher.clusters, order, false, [])
    ensures IsResultOfVisits(k, searcher.ctx, searcher.clusters, order, false, [],
                             ClustersToProbe(nProbe, |searcher.clusters|), result)
    ensures AreProbedRows(k, searcher.ctx, searcher.clusters, order, false, [], nProbe, result)
  {
    var ctx, clusters := searcher.ctx, searcher.clusters;
    var heap := new SharedHeap.Local();
    var distances := new int[searcher.maxClusterSize];
    var positions := new nat[searcher.maxClusterSize];
    var n, i := ClustersToProbe(nProbe, |clusters|), 0;
    NothingVisited(k, ctx, clusters, order, false, []);
    while i < n
      invariant i <= n && heap.others == []
      invariant AfterVisiting(k, ctx, clusters, order, false, [], i, heap.items)
    {
      var st := clusters[order[i]];
      AllIsSelected(ctx, st, |st.ids|);
      VisitPlace(ctx, clusters, order, false, AllOf(|st.ids|), |st.ids|, i, [], k, positions, distances, heap);
      i := i + 1;
    }
    result := FinishSearch(k, ctx, clusters, order, false, [], n, heap);
    ResultIsProbed(k, ctx, clusters, order, false, [], nProbe, result);
  }

  /** Visits the cluster at place `i` with its selection vector. */
  method VisitFilteredPlace(searcher: PDXearch, evaluator: PredicateEvaluator, order: seq<nat>, i: nat,
                            ghost passing: seq<nat>, k: nat, positions: array<nat>, distances: array<int>,
                            heap: SharedHeap)
    requires searcher.Valid() && ValidClusters(searcher.ctx, searcher.clusters) && k >= 1
    requires IsAccessOrder(order, |searcher.clusters|) && evaluator.Evaluates(searcher.clusters, passing)
    requires i < |order| && Searchable(searcher.ctx, searcher.clusters, order, true, passing)
    requires searcher.maxClusterSize <= positions.Length && searcher.maxClusterSize <= distances.Length
    requires heap.others == []
    requires AfterVisiting(k, searcher.ctx, searcher.clusters, order, true, passing, i, heap.items)
    modifies positions, distances, heap
    ensures heap.others == []
    ensures AfterVisiting(k, searcher.ctx, searcher.clusters, order, true, passing, i + 1, heap.items)
  {
    var ctx, clusters := searcher.ctx, searcher.clusters;
    var st := clusters[order[i]];
    var sel, passingTuples := GetSelectionVector(evaluator, clusters, searcher.clusterOffsets, order[i], passing);
    PassingIsSelected(ctx, st, passing, |st.ids|);
    VisitPlace(ctx, clusters, order, true, sel, passingTuples, i, passing, k, positions, distances, heap);
  }

  /** Visits the first `n` clusters of the access order. */
  method VisitFilteredPlaces(searcher: PDXearch, evaluator: PredicateEvaluator, order: seq<nat>, n: nat,
                             ghost passing: seq<nat>, k: nat, positions: array<nat>, distances: array<int>,
                             heap: SharedHeap)
    requires searcher.Valid() && ValidClusters(searcher.ctx, searcher.clusters) && k >= 1
    requires IsAccessOrder(order, |searcher.clusters|) && evaluator.Evaluates(searcher.clusters, passing)
    requires n <= |order| && Searchable(searcher.ctx, searcher.clusters, order, true, passing)
    requires searcher.maxClusterSize <= positions.Length && searcher.maxClusterSize <= distances.Length
    requires evaluator.nPassingTuples != positions && evaluator.selectionVector != positions
    requires heap.others == []
    requires AfterVisiting(k, searcher.ctx, searcher.clusters, order, true, passing, 0, heap.items)
    modifies positions, distances, heap
    ensures heap.others == []
    ensures AfterVisiting(k, searcher.ctx, searcher.clusters, order, true, passing, n, heap.items)
  {
    var i := 0;
    while i < n
      invariant i <= n && heap.others == [] && evaluator.Evaluates(searcher.clusters, passing)
      invariant AfterVisiting(k, searcher.ctx, searcher.clusters, order, true, passing, i, heap.items)
    {
      VisitFilteredPlace(searcher, evaluator, order, i, passing, k, positions, distances, heap);
      i := i + 1;
    }
  }

  /** `FilteredSearchGlobal`: the same for the rows that passed the filter; only such rows are returned. */
  method FilteredSearchGlobal(searcher: PDXearch, evaluator: PredicateEvaluator, order: seq<nat>, nProbe: nat, k: nat,
                              ghost passing: seq<nat>)
      returns (result: seq<Candidate>)
    requires searcher.Valid() && ValidClusters(searcher.ctx, searcher.clusters) && k >= 1
    requires IsAccessOrder(order, |searcher.clusters|) && evaluator.Evaluates(searcher.clusters, passing)
    requires Searchable(searcher.ctx, searcher.clusters, order, true, passing)
    ensures IsResultOfVisits(k, searcher.ctx, searcher.clusters, order, true, passing,
                             ClustersToProbe(nProbe, |searcher.clusters|), result)
    ensures AreProbedRows(k, searcher.ctx, searcher.clusters, order, true, passing, nProbe, result)
  {
    ghost var ctx, clusters := searcher.ctx, searcher.clusters;
    var heap := new SharedHeap.Local();
    var distances := new int[searcher.maxClusterSize];
    var positions := new nat[searcher.maxClusterSize];
    var n := ClustersToProbe(nProbe, |searcher.clusters|);
    NothingVisited(k, ctx, clusters, order, true, passing);
    VisitFilteredPlaces(searcher, evaluator, order, n, passing, k, positions, distances, heap);
    result := FinishSearch(k, ctx, clusters, order, true, passing, n, heap);
    ResultIsProbed(k, ctx, clusters, order, true, passing, nProbe, result);
  }
}
