/** When the global search is exact: exactly if no visited cluster fills a heap that already holds
    something beyond its size. Then Start discards vectors of that cluster that may be nearer. */
module GlobalExactness {
  import opened Common
  import opened Distances
  import opened KnnHeap
  import opened Multisets
  import opened Reals
  import opened Rounding
  import opened SearchMachine
  import opened Interleaving
  import opened Exactness
  import opened ByteHeadroom
  import opened LocalRuns
  import opened GlobalStart
  import opened GlobalSearch
  import opened SharedHeaps
  import opened Truncation
  import opened StoredScales
  import opened ShippedPruner
  import FilteredScan

  /** How many vectors are eligible in each visited cluster. */
  ghost predicate HasSizes(ctx: Context, queue: seq<Cluster>, sizes: seq<nat>)
    requires ValidQueue(ctx, queue)
  {
    |sizes| == |queue| && forall i :: 0 <= i < |queue| ==> SizeAt(queue, sizes, i)
  }

  predicate SizeAt(queue: seq<Cluster>, sizes: seq<nat>, i: nat)
    requires i < |queue| == |sizes|
  {
    |Selected(queue[i])| == sizes[i]
  }

  function SizeSum(sizes: seq<nat>, n: nat): nat
    requires n <= |sizes|
  {
    if n == 0 then 0 else SizeSum(sizes, n - 1) + sizes[n - 1]
  }

  /** Cluster `i` finds a heap that is neither empty nor full, and has too many vectors for it. */
  predicate Overfills(k: nat, sizes: seq<nat>, i: nat) {
    i < |sizes| && 0 < SizeSum(sizes, i) < k < SizeSum(sizes, i + 1)
  }

  // ---------------------------------------------------------------- exact without such a cluster

  lemma {:induction false} SumCount(hs: seq<Heap>, sizes: seq<nat>, n: nat)
    requires n <= |hs| == |sizes| && forall j :: 0 <= j < |hs| ==> |hs[j]| == sizes[j]
    ensures |SumTo(hs, n)| == SizeSum(sizes, n)
    decreases n
  {
    if n > 0 {
      SumCount(hs, sizes, n - 1);
    }
  }

  lemma EligibleCount(ctx: Context, queue: seq<Cluster>, sizes: seq<nat>, n: nat)
    requires ValidQueue(ctx, queue) && HasSizes(ctx, queue, sizes) && n <= |queue|
    ensures |Eligible(ctx, queue, n)| == SizeSum(sizes, n)
  {
    var hs := Portions(ctx, queue);
    forall j | 0 <= j < |hs| ensures |hs[j]| == sizes[j] {
      assert SizeAt(queue, sizes, j);
      CandidatesCount(ctx, queue[j], Selected(queue[j]));
    }
    SumCount(hs, sizes, n);
  }

  /** How full the heap is after `n` clusters. */
  lemma RunSize(k: nat, ctx: Context, queue: seq<Cluster>, sizes: seq<nat>, heaps: seq<Heap>, n: nat)
    requires ValidQueue(ctx, queue) && IsGlobalRun(k, ctx, queue, heaps) && k >= 1 && n <= |queue|
    requires HasSizes(ctx, queue, sizes)
    ensures heaps[n] <= Eligible(ctx, queue, n) && |Eligible(ctx, queue, n)| == SizeSum(sizes, n)
    ensures |heaps[n]| == Min(k, SizeSum(sizes, n))
  {
    EligibleCount(ctx, queue, sizes, n);
    RunCounts(k, ctx, queue, heaps, n);
  }

  lemma {:induction false} SizeSumGrows(sizes: seq<nat>, m: nat, n: nat)
    requires m <= n <= |sizes|
    ensures SizeSum(sizes, m) <= SizeSum(sizes, n)
    decreases n
  {
    if m < n {
      SizeSumGrows(sizes, m, n - 1);
    }
  }

  lemma WholeIsNearest(k: nat, all: Heap)
    requires |all| <= k
    ensures NearestUpTo(k, all, all, 0.0)
  {
    assert all - all == multiset{};
  }

  /** An element that more of `h'` than of `h` makes room for one that left. */
  lemma OneLeft(h: Heap, h': Heap, y: Candidate) returns (z: Candidate)
    requires |h| == |h'| && y in h' && y !in h
    ensures h[z] > h'[z]
  {
    if h <= h' {
      PartOfSameSize(h, h');
      assert false;
    }
    z :| h[z] > h'[z];
  }

  /** The nearest of the nearest and more are the nearest of all. */
  lemma NearestOfNearest(k: nat, h: Heap, all: Heap, cand: Heap, h': Heap)
    requires NearestUpTo(k, h, all, 0.0) && |h| == k && NearestUpTo(k, h', h + cand, 0.0)
    ensures NearestUpTo(k, h', all + cand, 0.0)
  {
    FullKeepsCount(k, h, cand, h', all);
    forall x: Candidate, y: Candidate | x in all + cand - h' && y in h' ensures y.distance <= x.distance {
      NearestPair(k, h, all, cand, h', x, y);
    }
  }

  lemma NearestPair(k: nat, h: Heap, all: Heap, cand: Heap, h': Heap, x: Candidate, y: Candidate)
    requires NearestUpTo(k, h, all, 0.0) && |h| == k && NearestUpTo(k, h', h + cand, 0.0)
    requires x in all + cand - h' && y in h'
    ensures y.distance <= x.distance
  {
    if x !in h + cand - h' {
      assert (h + cand)[x] <= h'[x] < (all + cand)[x];
      assert x in all - h;
      if y !in h {
        AtMostK(k, h', h + cand, h);
        var z := OneLeft(h, h', y);
        assert z in h + cand - h' && z in h;
      }
    }
  }

  lemma AtMostK(k: nat, h': Heap, all: Heap, h: Heap)
    requires CountsRight(k, h', all) && h <= all && |h| == k
    ensures |h'| == |h|
  {
    assert all == h + (all - h);
  }

  lemma StartIsNearest(k: nat, h: Heap, cand: Heap, h': Heap, taken: Heap)
    requires |h| < k && TakesNearest(k, h, cand, h', taken)
    requires h == multiset{} || |h| + |cand| <= k
    ensures NearestUpTo(k, h', h + cand, 0.0)
  {
    if |h| + |cand| <= k {
      PartOfSameSize(taken, cand);
      WholeIsNearest(k, h + cand);
    } else {
      assert h' == taken && h + cand == cand;
    }
  }

  lemma VisitKeepsExact(k: nat, ctx: Context, h: Heap, c: Cluster, h': Heap, all: Heap)
    requires Fits(ctx, c) && Roomy(ctx, c) && k >= 1 && Visits(k, ctx, h, c, h') && HeapInv(k, ctx, h, all)
    requires LosslessAlone(ctx) && NearestUpTo(k, h, all, 0.0)
    requires !(0 < |all| < k < |all| + |Selected(c)|)
    ensures NearestUpTo(k, h', all + CandidatesOf(ctx, c), 0.0)
  {
    var cand := CandidatesOf(ctx, c);
    CandidatesCount(ctx, c, Selected(c));
    if Selected(c) == [] {
      assert all + cand == all;
    } else if |h| < k {
      var taken :| TakesNearest(k, h, cand, h', taken);
      StartKeepsCount(k, h, cand, h', taken, all);
      StartIsNearest(k, h, cand, h', taken);
    } else {
      FullVisitIsNearest(k, ctx, h, c, h');
      NearestOfNearest(k, h, all, cand, h');
    }
  }

  lemma {:induction false} PrefixIsNearest(k: nat, ctx: Context, queue: seq<Cluster>, sizes: seq<nat>, heaps: seq<Heap>,
                                           n: nat)
    requires ValidQueue(ctx, queue) && IsGlobalRun(k, ctx, queue, heaps) && k >= 1 && n <= |queue|
    requires HasSizes(ctx, queue, sizes) && LosslessAlone(ctx) && forall i: nat :: !Overfills(k, sizes, i)
    ensures NearestUpTo(k, heaps[n], Eligible(ctx, queue, n), 0.0)
    decreases n
  {
    if n == 0 {
      WholeIsNearest(k, multiset{});
    } else {
      var i := n - 1;
      PrefixIsNearest(k, ctx, queue, sizes, heaps, i);
      ExactVisit(k, ctx, queue, sizes, heaps, i);
    }
  }

  lemma ExactVisit(k: nat, ctx: Context, queue: seq<Cluster>, sizes: seq<nat>, heaps: seq<Heap>, i: nat)
    requires ValidQueue(ctx, queue) && IsGlobalRun(k, ctx, queue, heaps) && k >= 1 && i < |queue|
    requires HasSizes(ctx, queue, sizes) && LosslessAlone(ctx) && !Overfills(k, sizes, i)
    requires NearestUpTo(k, heaps[i], Eligible(ctx, queue, i), 0.0)
    ensures NearestUpTo(k, heaps[i + 1], Eligible(ctx, queue, i + 1), 0.0)
  {
    EligibleCount(ctx, queue, sizes, i);
    assert SizeAt(queue, sizes, i);
    RunCounts(k, ctx, queue, heaps, i);
    assert VisitsAt(k, ctx, queue, heaps, i);
    VisitKeepsExact(k, ctx, heaps[i], queue[i], heaps[i + 1], Eligible(ctx, queue, i));
  }

  // ---------------------------------------------------------------- every search has a run

  lemma {:induction false} LocalFinish(k: nat, start: Origin, m: Moment) returns (h: Heap)
    requires Leads(k, start, m) && ValidTask(m.task) && |m.heap| > 0
    ensures Leads(k, start, Moment(Task(m.task.ctx, [], Idle), h))
    decreases TaskMeasure(m.task)
  {
    var t := m.task;
    if t.work.Idle? && t.queue == [] {
      h := m.heap;
      assert m == Moment(Task(t.ctx, [], Idle), h);
    } else {
      var t', h', out := TaskCanStep(k, t, m.heap);
      LeadsByOwnStep(k, start, m, t', h', out);
      TaskStepKeepsValid(k, t, m.heap, t', h', out);
      TaskStepProgresses(k, t, m.heap, t', h', out);
      StaysNonEmpty(k, t, m.heap, t', h', out);
      h := LocalFinish(k, start, Moment(t', h'));
    }
  }

  lemma StaysNonEmpty(k: nat, t: Task, h: Heap, t': Task, h': Heap, out: Heap)
    requires ValidTask(t) && TaskStep(k, t, h, t', h', out) && |h| > 0
    ensures |h'| > 0
  {
  }

  lemma FullVisitExists(k: nat, ctx: Context, h: Heap, c: Cluster) returns (h': Heap)
    requires Fits(ctx, c) && |h| == k && k >= 1 && Selected(c) != []
    ensures Visits(k, ctx, h, c, h')
  {
    var t := Task(ctx, [c], Idle);
    var start := Origin(Moment(t, h), true);
    LeadsToItself(k, start);
    h' := LocalFinish(k, start, Moment(t, h));
  }

  lemma ListingSplits(listing: seq<Candidate>, m: nat)
    requires m <= |listing|
    ensures multiset(listing[..m]) <= multiset(listing) && |multiset(listing[..m])| == m
    ensures multiset(listing) - multiset(listing[..m]) == multiset(listing[m..])
  {
    assert listing == listing[..m] + listing[m..];
  }

  lemma FirstAreNearer(listing: seq<Candidate>, m: nat, x: Candidate, y: Candidate)
    requires m <= |listing| && SortedByDistance(listing) && x in listing[..m] && y in listing[m..]
    ensures x.distance <= y.distance
  {
    var i :| 0 <= i < m && listing[..m][i] == x;
    var j :| 0 <= j < |listing| - m && listing[m..][j] == y;
    assert listing[i] == x && listing[m + j] == y;
  }

  lemma TakenExists(k: nat, h: Heap, cand: Heap) returns (h': Heap, taken: Heap)
    requires |h| < k
    ensures TakesNearest(k, h, cand, h', taken)
  {
    var listing := FilteredScan.ListingExists(cand);
    var m := Min(k - |h|, |cand|);
    ListingSplits(listing, m);
    taken := multiset(listing[..m]);
    h' := h + taken;
    forall x: Candidate, y: Candidate | x in taken && y in cand - taken ensures x.distance <= y.distance {
      FirstAreNearer(listing, m, x, y);
    }
  }

  lemma VisitExists(k: nat, ctx: Context, h: Heap, c: Cluster) returns (h': Heap)
    requires Fits(ctx, c) && |h| <= k && k >= 1
    ensures Visits(k, ctx, h, c, h')
  {
    if Selected(c) == [] {
      h' := h;
    } else if |h| < k {
      var taken;
      h', taken := TakenExists(k, h, CandidatesOf(ctx, c));
    } else {
      h' := FullVisitExists(k, ctx, h, c);
    }
  }

  /** Every queue of clusters can be searched. */
  lemma {:induction false} GlobalRunExists(k: nat, ctx: Context, queue: seq<Cluster>) returns (heaps: seq<Heap>)
    requires ValidQueue(ctx, queue) && k >= 1
    ensures IsGlobalRun(k, ctx, queue, heaps)
    decreases |queue|
  {
    if queue == [] {
      heaps := [multiset{}];
    } else {
      var init, c := queue[..|queue| - 1], queue[|queue| - 1];
      assert queue == init + [c];
      heaps := GlobalRunExists(k, ctx, init);
      RunCounts(k, ctx, init, heaps, |init|);
      var h' := VisitExists(k, ctx, heaps[|init|], c);
      LongerRun(k, ctx, init, heaps, c, h');
      heaps := heaps + [h'];
    }
  }

  // ---------------------------------------------------------------- not exact with such a cluster

  /** `n` selected vectors, all the same. */
  function Uniform(id: nat, x: seq<int>, n: nat): (c: Cluster)
    ensures |c.ids| == n
  {
    Cluster(seq(n, p requires 0 <= p < n => id + p), seq(n, p => x), seq(n, p => true))
  }

  lemma {:induction false} UniformSelected(id: nat, x: seq<int>, n: nat, m: nat)
    requires m <= n
    ensures |SelectedBelow(Uniform(id, x, n), m)| == m
  {
    if m > 0 {
      UniformSelected(id, x, n, m - 1);
    }
  }

  lemma UniformFacts(ctx: Context, id: nat, x: seq<int>, n: nat)
    requires |x| == ctx.D && Headroom(ctx, x)
    ensures var c := Uniform(id, x, n);
            && Fits(ctx, c) && Roomy(ctx, c) && |Selected(c)| == n && |CandidatesOf(ctx, c)| == n
            && forall y: Candidate | y in CandidatesOf(ctx, c) :: y.distance == Published(ctx, Full(ctx, x))
  {
    var c := Uniform(id, x, n);
    UniformSelected(id, x, n, n);
    CandidatesCount(ctx, c, Selected(c));
    forall y: Candidate | y in CandidatesOf(ctx, c) ensures y.distance == Published(ctx, Full(ctx, x)) {
      var i := CandidateIn(ctx, c, Selected(c), y);
    }
  }

  /** Cluster `i` holds vectors equal to `near`, the others vectors equal to `far`. */
  function Layers(sizes: seq<nat>, i: nat, near: seq<int>, far: seq<int>): (queue: seq<Cluster>)
    ensures |queue| == |sizes|
  {
    seq(|sizes|, j requires 0 <= j < |sizes| =>
      Uniform(SizeSum(sizes, j), if j == i then near else far, sizes[j]))
  }

  /** Two vectors a search can tell apart. */
  ghost predicate Apart(ctx: Context, near: seq<int>, far: seq<int>) {
    && |near| == |far| == ctx.D && Headroom(ctx, near) && Headroom(ctx, far)
    && Published(ctx, Full(ctx, near)) < Published(ctx, Full(ctx, far))
  }

  lemma LayersAreValid(ctx: Context, sizes: seq<nat>, i: nat, near: seq<int>, far: seq<int>)
    requires Apart(ctx, near, far)
    ensures var queue := Layers(sizes, i, near, far); ValidQueue(ctx, queue) && HasSizes(ctx, queue, sizes)
  {
    var queue := Layers(sizes, i, near, far);
    forall j | 0 <= j < |queue| ensures Fits(ctx, queue[j]) && Roomy(ctx, queue[j]) && SizeAt(queue, sizes, j) {
      UniformFacts(ctx, SizeSum(sizes, j), if j == i then near else far, sizes[j]);
    }
  }

  // ---------------------------------------------------------------- what is taken of each cluster

  /** All of the first `n` but portion `i`. */
  ghost function Others(hs: seq<Heap>, i: nat, n: nat): Heap
    requires n <= |hs|
  {
    if n == 0 then multiset{} else Others(hs, i, n - 1) + (if n - 1 == i then multiset{} else hs[n - 1])
  }

  lemma {:induction false} SumBefore(hs: seq<Heap>, i: nat, n: nat)
    requires n <= |hs| && n <= i
    ensures SumTo(hs, n) == Others(hs, i, n)
  {
    if n > 0 {
      SumBefore(hs, i, n - 1);
    }
  }

  lemma Reorder(all: Heap, a: Heap, b: Heap, c: Heap)
    requires all == a + b
    ensures all + c == (a + c) + b
  {
  }

  lemma {:induction false} SumAfter(hs: seq<Heap>, i: nat, n: nat)
    requires i < n <= |hs|
    ensures SumTo(hs, n) == Others(hs, i, n) + hs[i]
    decreases n
  {
    if n == i + 1 {
      SumBefore(hs, i, i);
    } else {
      SumAfter(hs, i, n - 1);
      Reorder(SumTo(hs, n - 1), Others(hs, i, n - 1), hs[i], hs[n - 1]);
    }
  }

  lemma AddToPart(h: Heap, h': Heap, taken: Heap, others: Heap, c: Heap)
    requires h <= taken + others && h' <= h + c
    ensures h' <= taken + (others + c)
  {
  }

  /** Of portion `i` no more gets in later. */
  lemma {:induction false} NoMoreGetsIn(heaps: seq<Heap>, hs: seq<Heap>, i: nat, n: nat, taken: Heap)
    requires |heaps| == |hs| + 1 && i < n <= |hs| && heaps[i + 1] <= taken + Others(hs, i, i + 1)
    requires forall j :: i < j < |hs| ==> Adds(heaps, hs, j)
    ensures heaps[n] <= taken + Others(hs, i, n)
    decreases n
  {
    if n > i + 1 {
      NoMoreGetsIn(heaps, hs, i, n - 1, taken);
      assert Adds(heaps, hs, n - 1);
      AddToPart(heaps[n - 1], heaps[n], taken, Others(hs, i, n - 1), hs[n - 1]);
    }
  }

  ghost predicate Adds(heaps: seq<Heap>, hs: seq<Heap>, j: nat)
    requires |heaps| == |hs| + 1 && j < |hs|
  {
    heaps[j + 1] <= heaps[j] + hs[j]
  }

  ghost predicate AllAt(h: Heap, b: real) {
    forall y: Candidate | y in h :: y.distance == b
  }

  lemma {:induction false} OthersAreAt(hs: seq<Heap>, i: nat, n: nat, b: real)
    requires n <= |hs| && forall j :: 0 <= j < |hs| && j != i ==> AllAt(hs[j], b)
    ensures AllAt(Others(hs, i, n), b)
    decreases n
  {
    if n > 0 {
      OthersAreAt(hs, i, n - 1, b);
      assert n - 1 != i ==> AllAt(hs[n - 1], b);
    }
  }

  lemma VisitAdds(k: nat, ctx: Context, h: Heap, c: Cluster, h': Heap)
    requires Fits(ctx, c) && Roomy(ctx, c) && k >= 1 && Visits(k, ctx, h, c, h') && AllFinite(h)
    ensures h' <= h + CandidatesOf(ctx, c)
  {
    if Selected(c) != [] && |h| == k {
      FullVisitCounts(k, ctx, h, c, h');
    }
  }

  lemma PartIsFinite(h: Heap, all: Heap)
    requires h <= all && AllFinite(all)
    ensures AllFinite(h)
  {
  }

  lemma HeapIsFinite(k: nat, ctx: Context, queue: seq<Cluster>, heaps: seq<Heap>, n: nat)
    requires ValidQueue(ctx, queue) && IsGlobalRun(k, ctx, queue, heaps) && k >= 1 && n <= |queue|
    ensures AllFinite(heaps[n])
  {
    RunCounts(k, ctx, queue, heaps, n);
    PartIsFinite(heaps[n], Eligible(ctx, queue, n));
  }

  lemma VisitAddsPortion(k: nat, ctx: Context, queue: seq<Cluster>, heaps: seq<Heap>, j: nat)
    requires ValidQueue(ctx, queue) && IsGlobalRun(k, ctx, queue, heaps) && k >= 1 && j < |queue|
    ensures Adds(heaps, Portions(ctx, queue), j)
  {
    HeapIsFinite(k, ctx, queue, heaps, j);
    assert VisitsAt(k, ctx, queue, heaps, j);
    VisitAdds(k, ctx, heaps[j], queue[j], heaps[j + 1]);
  }

  /** What Start takes of an overfilling cluster is not all of it. */
  lemma OverfilledVisit(k: nat, ctx: Context, queue: seq<Cluster>, sizes: seq<nat>, heaps: seq<Heap>, i: nat)
      returns (taken: Heap)
    requires ValidQueue(ctx, queue) && IsGlobalRun(k, ctx, queue, heaps) && k >= 1
    requires HasSizes(ctx, queue, sizes) && Overfills(k, sizes, i)
    ensures taken <= CandidatesOf(ctx, queue[i]) && |taken| < k && |taken| < |CandidatesOf(ctx, queue[i])|
    ensures heaps[i + 1] == Eligible(ctx, queue, i) + taken
  {
    var h, cand := heaps[i], CandidatesOf(ctx, queue[i]);
    RunSize(k, ctx, queue, sizes, heaps, i);
    CandidatesCount(ctx, queue[i], Selected(queue[i]));
    assert SizeAt(queue, sizes, i);
    assert VisitsAt(k, ctx, queue, heaps, i);
    taken :| TakesNearest(k, h, cand, heaps[i + 1], taken);
    PartOfSameSize(h, Eligible(ctx, queue, i));
  }

  lemma FinalHeapIsFull(k: nat, ctx: Context, queue: seq<Cluster>, sizes: seq<nat>, heaps: seq<Heap>, i: nat)
    requires ValidQueue(ctx, queue) && IsGlobalRun(k, ctx, queue, heaps) && k >= 1
    requires HasSizes(ctx, queue, sizes) && Overfills(k, sizes, i)
    ensures |heaps[|queue|]| == k
  {
    RunSize(k, ctx, queue, sizes, heaps, |queue|);
    SizeSumGrows(sizes, i + 1, |queue|);
  }

  /** The final heap: of the overfilling cluster it holds at most what Start has taken. */
  lemma FinalHeap(k: nat, ctx: Context, queue: seq<Cluster>, sizes: seq<nat>, heaps: seq<Heap>, i: nat)
      returns (taken: Heap)
    requires ValidQueue(ctx, queue) && IsGlobalRun(k, ctx, queue, heaps) && k >= 1
    requires HasSizes(ctx, queue, sizes) && Overfills(k, sizes, i)
    ensures var hs, n := Portions(ctx, queue), |queue|;
            && taken <= hs[i] && |taken| < k && |taken| < |hs[i]|
            && heaps[n] <= taken + Others(hs, i, n) && Eligible(ctx, queue, n) == Others(hs, i, n) + hs[i]
  {
    var hs, n := Portions(ctx, queue), |queue|;
    taken := OverfilledVisit(k, ctx, queue, sizes, heaps, i);
    SumBefore(hs, i, i);
    SumAfter(hs, i, n);
    forall j | i < j < |hs| ensures Adds(heaps, hs, j) {
      VisitAddsPortion(k, ctx, queue, heaps, j);
    }
    assert heaps[i + 1] == Others(hs, i, i) + taken;
    NoMoreGetsIn(heaps, hs, i, n, taken);
  }

  lemma LayersAreAt(ctx: Context, sizes: seq<nat>, i: nat, near: seq<int>, far: seq<int>)
    requires Apart(ctx, near, far) && i < |sizes| && ValidQueue(ctx, Layers(sizes, i, near, far))
    ensures var hs := Portions(ctx, Layers(sizes, i, near, far));
            && AllAt(hs[i], Published(ctx, Full(ctx, near)))
            && forall j :: 0 <= j < |hs| && j != i ==> AllAt(hs[j], Published(ctx, Full(ctx, far)))
  {
    var hs := Portions(ctx, Layers(sizes, i, near, far));
    UniformFacts(ctx, SizeSum(sizes, i), near, sizes[i]);
    forall j | 0 <= j < |hs| && j != i ensures AllAt(hs[j], Published(ctx, Full(ctx, far))) {
      UniformFacts(ctx, SizeSum(sizes, j), far, sizes[j]);
    }
  }

  lemma MoreThan(h: Heap, part: Heap) returns (y: Candidate)
    requires |h| > |part|
    ensures h[y] > part[y]
  {
    if h <= part {
      PartCounts(h, part);
      assert false;
    }
    y :| h[y] > part[y];
  }

  /** A heap of few near elements that could hold more is not nearest. */
  lemma NotNearest(k: nat, h: Heap, near: Heap, far: Heap, taken: Heap, a: real, b: real)
    requires |h| == k && h <= taken + far && taken <= near && |taken| < k && |taken| < |near| && a < b
    requires AllAt(near, a) && AllAt(far, b)
    ensures !NearestUpTo(k, h, far + near, 0.0)
  {
    var y := MoreThan(h, taken);
    var x := MoreThan(near, taken);
    assert y in h && y in far;
    assert x in near && x !in far;
    assert (far + near)[x] > h[x];
    assert x in far + near - h;
  }

  /** Every search of these clusters misses a nearer vector. */
  lemma OverfilledLoses(k: nat, ctx: Context, sizes: seq<nat>, i: nat, near: seq<int>, far: seq<int>)
      returns (queue: seq<Cluster>, heaps: seq<Heap>)
    requires Apart(ctx, near, far) && Overfills(k, sizes, i)
    ensures ValidQueue(ctx, queue) && HasSizes(ctx, queue, sizes) && IsGlobalRun(k, ctx, queue, heaps)
    ensures !NearestUpTo(k, heaps[|queue|], Eligible(ctx, queue, |queue|), 0.0)
  {
    queue := Layers(sizes, i, near, far);
    LayersAreValid(ctx, sizes, i, near, far);
    heaps := GlobalRunExists(k, ctx, queue);
    LayersAreAt(ctx, sizes, i, near, far);
    AnyRunLoses(k, ctx, queue, sizes, heaps, i, Published(ctx, Full(ctx, near)), Published(ctx, Full(ctx, far)));
  }

  lemma AnyRunLoses(k: nat, ctx: Context, queue: seq<Cluster>, sizes: seq<nat>, heaps: seq<Heap>, i: nat, a: real,
                    b: real)
    requires ValidQueue(ctx, queue) && HasSizes(ctx, queue, sizes) && IsGlobalRun(k, ctx, queue, heaps)
    requires Overfills(k, sizes, i) && a < b && k >= 1
    requires var hs := Portions(ctx, queue);
             AllAt(hs[i], a) && forall j :: 0 <= j < |hs| && j != i ==> AllAt(hs[j], b)
    ensures !NearestUpTo(k, heaps[|queue|], Eligible(ctx, queue, |queue|), 0.0)
  {
    var hs, n := Portions(ctx, queue), |queue|;
    var taken := FinalHeap(k, ctx, queue, sizes, heaps, i);
    FinalHeapIsFull(k, ctx, queue, sizes, heaps, i);
    OthersAreAt(hs, i, n, b);
    NotNearest(k, heaps[n], hs[i], Others(hs, i, n), taken, a, b);
  }

  // ---------------------------------------------------------------- the exact condition

  /** The same index, searched with another query. */
  predicate SameIndex(ctx: Context, c: Context) {
    c == ctx.(query := c.query)
  }

  /** Every search of clusters with these numbers of eligible vectors, whatever the vectors and the
      query, ends with the k nearest. */
  ghost predicate AlwaysNearest(k: nat, ctx: Context, sizes: seq<nat>) {
    forall c: Context, queue: seq<Cluster>, heaps: seq<Heap>
      | SameIndex(ctx, c) && ValidQueue(c, queue) && HasSizes(c, queue, sizes) && IsGlobalRun(k, c, queue, heaps) ::
      NearestUpTo(k, heaps[|queue|], Eligible(c, queue, |queue|), 0.0)
  }

  lemma LosslessForAllQueries(ctx: Context, c: Context)
    requires SameIndex(ctx, c) && LosslessAlone(ctx)
    ensures LosslessAlone(c)
  {
    forall v: nat, h: nat | IsCheckpoint(c, v, h) ensures Ratio(c, v + h) >= 1.0 {
      var i: nat, j: nat :| CheckpointFrom(c, v, h, i, j);
      assert CheckpointFrom(ctx, v, h, i, j);
      assert IsCheckpoint(ctx, v, h);
    }
  }

  /** Constants under which ordinary vectors have headroom. */
  ghost predicate Ordinary(ctx: Context) {
    && ctx.D >= 1
    && (ctx.quant.F32? ==> FLT_MAX * ctx.scaleSquared >= 281474976710656.0)
    && (ctx.quant.U8? ==> Sensible(ScaleOf(ctx)) && IsStored(ScaleOf(ctx)))
  }

  lemma AxisIsApart(ctx: Context)
    requires Ordinary(ctx) && Lossless(ctx) && ctx.query == Zeros(ctx.D)
    ensures Apart(ctx, OnAxis(ctx.D, 254), OnAxis(ctx.D, 255))
  {
    LosslessIsLarge(ctx);
    DistanceOnAxis(ctx.D, 254, ctx.D);
    DistanceOnAxis(ctx.D, 255, ctx.D);
    if ctx.quant.F32? {
      FloatAxis(ctx, 254);
      FloatAxis(ctx, 255);
      TimesStrict(ctx.inverseScaleSquared);
    } else {
      ByteAxis(ctx, 254);
      ByteAxis(ctx, 255);
      InverseBounds(ctx.scaleSquared, ctx.inverseScaleSquared, 1.0 / ctx.scaleSquared);
      NearerIsPublishedNearer(ctx.inverseScaleSquared);
    }
  }

  lemma NotAlwaysNearest(k: nat, ctx: Context, sizes: seq<nat>, i: nat)
    requires Ordinary(ctx) && LosslessAlone(ctx) && Overfills(k, sizes, i)
    ensures !AlwaysNearest(k, ctx, sizes)
  {
    var c: Context := ctx.(query := Zeros(ctx.D));
    LosslessForAllQueries(ctx, c);
    AxisIsApart(c);
    var queue, heaps := OverfilledLoses(k, c, sizes, i, OnAxis(ctx.D, 254), OnAxis(ctx.D, 255));
  }

  /** For an index that loses nothing on its own, the global search is exact on all data with given
      numbers of eligible vectors if and only if no cluster overfills a heap that holds something. */
  lemma SizesDecideExactness(k: nat, ctx: Context, sizes: seq<nat>)
    requires k >= 1 && Ordinary(ctx) && LosslessAlone(ctx)
    ensures AlwaysNearest(k, ctx, sizes) <==> forall i: nat :: !Overfills(k, sizes, i)
  {
    if i: nat :| Overfills(k, sizes, i) {
      NotAlwaysNearest(k, ctx, sizes, i);
    } else {
      forall c: Context, queue: seq<Cluster>, heaps: seq<Heap>
        | SameIndex(ctx, c) && ValidQueue(c, queue) && HasSizes(c, queue, sizes) && IsGlobalRun(k, c, queue, heaps)
        ensures NearestUpTo(k, heaps[|queue|], Eligible(c, queue, |queue|), 0.0)
      {
        LosslessForAllQueries(ctx, c);
        PrefixIsNearest(k, c, queue, sizes, heaps, |queue|);
      }
    }
  }
}
