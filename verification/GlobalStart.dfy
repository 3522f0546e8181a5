/** How the global search fills its heap: a full scan of a cluster, of which the nearest selected
    vectors are taken, as many as the heap still has room for. */
module GlobalStart {
  import opened Common
  import opened Distances
  import opened KnnHeap
  import opened Multisets
  import opened Layout
  import opened Kernels
  import opened SearchMachine
  import opened SharedHeaps
  import opened PruneSteps
  import opened WarmupPhase
  import opened PrunePhase
  import opened PartialSorting
  import opened Searcher

  // ---------------------------------------------------------------- full distances

  /** Every selected vector has its full distance. */
  ghost predicate Scanned(ctx: Context, c: Cluster, distances: seq<int>)
    requires Fits(ctx, c)
  {
    |c.vecs| <= |distances| && forall p :: 0 <= p < |c.vecs| && c.sel[p] ==> distances[p] == Full(ctx, c.vecs[p])
  }

  lemma ZerosCover(ctx: Context, c: Cluster, alive: seq<nat>, distances: seq<int>)
    requires Fits(ctx, c) && ValidAlive(c, alive) && |c.vecs| <= |distances|
    requires forall p :: 0 <= p < |c.vecs| ==> distances[p] == 0
    ensures Covers(ctx, c, alive, 0, 0, distances)
  {
    assert forall p :: 0 <= p < |c.vecs| ==> Partial(ctx, c.vecs[p], 0, 0) == 0;
  }

  lemma EndsOnBoundary(ctx: Context, st: StoredCluster)
    ensures OnBoundary(ShapeOf(ctx, st), 0) && OnBoundary(ShapeOf(ctx, st), ctx.V)
  {
  }

  lemma AllAlive(ctx: Context, st: StoredCluster, sel: seq<bool>)
    requires ValidStored(ctx, st) && |sel| == |st.ids|
    ensures ValidAlive(View(ctx, st, sel), Iota(|st.ids|)) && Increasing(Iota(|st.ids|))
    ensures ValidTargets(ShapeOf(ctx, st), Iota(|st.ids|))
  {
  }

  /** The whole vertical part, for all vectors. */
  method VerticalScan(ctx: Context, st: StoredCluster, ghost sel: seq<bool>, distances: array<int>)
    requires ValidStored(ctx, st) && |sel| == |st.ids| <= distances.Length
    requires forall p :: 0 <= p < |st.ids| ==> distances[p] == 0
    modifies distances
    ensures ValidAlive(View(ctx, st, sel), Iota(|st.ids|))
    ensures Covers(ctx, View(ctx, st, sel), Iota(|st.ids|), ctx.V, 0, distances[..])
  {
    ghost var before, all := distances[..], Iota(|st.ids|);
    AllAlive(ctx, st, sel);
    EndsOnBoundary(ctx, st);
    ZerosCover(ctx, View(ctx, st, sel), all, before);
    SurvivorsFit(ctx, st, sel, all, 0, 0, ctx.V, 0, before);
    Vertical(ShapeOf(ctx, st), ctx.query, st.data, |st.ids|, 0, ctx.V, distances, false, []);
    CoversMore(ctx, st, sel, all, 0, 0, ctx.V, 0, before, distances[..]);
  }

  /** The horizontal part for the vectors in `alive`, block by block. */
  method HorizontalScan(ctx: Context, st: StoredCluster, ghost sel: seq<bool>, ghost v: nat, alive: seq<nat>,
                        distances: array<int>)
    requires ValidStored(ctx, st) && |sel| == |st.ids| && ValidAlive(View(ctx, st, sel), alive) && Increasing(alive)
    requires v <= ctx.V && Covers(ctx, View(ctx, st, sel), alive, v, 0, distances[..])
    modifies distances
    ensures Covers(ctx, View(ctx, st, sel), alive, v, ctx.H, distances[..])
    ensures KeptOutside(alive, old(distances[..]), distances[..])
  {
    ghost var before := distances[..];
    var h := 0;
    while h < ctx.H
      invariant h <= ctx.H && h % H_DIM_SIZE == 0
      invariant Covers(ctx, View(ctx, st, sel), alive, v, h, distances[..])
      invariant KeptOutside(alive, before, distances[..])
      decreases ctx.H - h
    {
      ghost var between := distances[..];
      NextBlockFits(ctx, h);
      VisitBlock(ctx, st, sel, v, h, alive, distances);
      KeptTwice(alive, before, between, distances[..]);
      h := h + H_DIM_SIZE;
    }
  }

  lemma KeptTwice(alive: seq<nat>, before: seq<int>, between: seq<int>, after: seq<int>)
    requires KeptOutside(alive, before, between) && KeptOutside(alive, between, after)
    ensures KeptOutside(alive, before, after)
  {
  }

  lemma CoveredIsScanned(ctx: Context, c: Cluster, alive: seq<nat>, distances: seq<int>)
    requires Fits(ctx, c) && ValidAlive(c, alive) && Covers(ctx, c, alive, ctx.V, ctx.H, distances)
    requires forall p: nat :: p < |c.vecs| && c.sel[p] ==> p in alive
    ensures Scanned(ctx, c, distances)
  {
    AllCovered(ctx, c, alive, distances);
  }

  /** The scan of `Start`. */
  method ScanAll(ctx: Context, st: StoredCluster, ghost sel: seq<bool>, distances: array<int>)
    requires ValidStored(ctx, st) && |sel| == |st.ids| <= distances.Length
    modifies distances
    ensures Scanned(ctx, View(ctx, st, sel), distances[..])
  {
    AllAlive(ctx, st, sel);
    ResetPruningDistances(|st.ids|, distances);
    VerticalScan(ctx, st, sel, distances);
    HorizontalScan(ctx, st, sel, ctx.V, Iota(|st.ids|), distances);
    forall p: nat | p < |st.ids| ensures p in Iota(|st.ids|) {
      assert Iota(|st.ids|)[p] == p;
    }
    CoveredIsScanned(ctx, View(ctx, st, sel), Iota(|st.ids|), distances[..]);
  }

  // ---------------------------------------------------------------- the scan of the selected vectors

  method InitPositionsArrayFromSelectionVector(n: nat, positions: array<nat>, sel: seq<bool>, ghost c: Cluster)
      returns (count: nat)
    requires n == |sel| <= positions.Length && c.sel == sel
    modifies positions
    ensures count <= n && positions[..count] == Selected(c)
  {
    count := 0;
    var p := 0;
    while p < n
      invariant count <= p <= n && positions[..count] == SelectedBelow(c, p)
    {
      positions[count] := p;
      assert positions[..count + 1] == positions[..count] + [p];
      if sel[p] {
        count := count + 1;
      }
      p := p + 1;
    }
  }

  /** With the horizontal part scanned for `alive` only, the vertical part fits for all vectors. */
  lemma AllFit(ctx: Context, st: StoredCluster, sel: seq<bool>, alive: seq<nat>, before: seq<int>)
    requires ValidStored(ctx, st) && |sel| == |st.ids| && ValidAlive(View(ctx, st, sel), alive)
    requires Covers(ctx, View(ctx, st, sel), alive, 0, ctx.H, before)
    requires forall p :: 0 <= p < |st.ids| && p !in alive ==> before[p] == 0
    ensures NoOverflow(ctx.quant, Iota(|st.ids|), Gain(ShapeOf(ctx, st), ctx.query, st.data, 0, ctx.V), before)
  {
    if ctx.quant.U8? {
      forall p: nat | p < |st.ids|
        ensures 0 <= before[p] && before[p] + Span(ShapeOf(ctx, st), ctx.query, st.data, p, 0, ctx.V) < UINT32_RANGE
      {
        if p in alive {
          SurvivorFits(ctx, st, sel, p, 0, ctx.H, ctx.V, ctx.H);
        } else {
          SpanFits(ctx, st, p, 0, ctx.V);
        }
      }
    }
  }

  function OnlyAt(alive: seq<nat>, before: seq<int>, after: seq<int>): (r: seq<int>)
    requires |before| == |after|
    ensures |r| == |before|
    ensures forall p :: 0 <= p < |r| ==> r[p] == if p in alive then after[p] else before[p]
  {
    seq(|before|, p requires 0 <= p < |before| => if p in alive then after[p] else before[p])
  }

  lemma RaisedOnlyAt(targets: seq<nat>, alive: seq<nat>, gain: seq<nat>, before: seq<int>, after: seq<int>)
    requires Raised(targets, gain, before, after) && forall i :: 0 <= i < |alive| ==> alive[i] in targets
    ensures Raised(alive, gain, before, OnlyAt(alive, before, after))
  {
  }

  /** Raising all vectors covers more for those in `alive`. */
  lemma CoversMoreOfAll(ctx: Context, st: StoredCluster, sel: seq<bool>, alive: seq<nat>, before: seq<int>,
                        after: seq<int>)
    requires ValidStored(ctx, st) && |sel| == |st.ids| && ValidAlive(View(ctx, st, sel), alive)
    requires Covers(ctx, View(ctx, st, sel), alive, 0, ctx.H, before)
    requires Raised(Iota(|st.ids|), Gain(ShapeOf(ctx, st), ctx.query, st.data, 0, ctx.V), before, after)
    ensures Covers(ctx, View(ctx, st, sel), alive, ctx.V, ctx.H, after)
  {
    var all, only := Iota(|st.ids|), OnlyAt(alive, before, after);
    forall i | 0 <= i < |alive| ensures alive[i] in all {
      assert all[alive[i]] == alive[i];
    }
    RaisedOnlyAt(all, alive, Gain(ShapeOf(ctx, st), ctx.query, st.data, 0, ctx.V), before, after);
    CoversMore(ctx, st, sel, alive, 0, ctx.H, ctx.V, ctx.H, before, only);
  }

  /** The vertical part, for all vectors or for the selected ones only. */
  method VerticalFinish(ctx: Context, st: StoredCluster, ghost sel: seq<bool>, all: bool, alive: seq<nat>,
                        distances: array<int>)
    requires ValidStored(ctx, st) && |sel| == |st.ids| && ValidAlive(View(ctx, st, sel), alive) && Increasing(alive)
    requires Covers(ctx, View(ctx, st, sel), alive, 0, ctx.H, distances[..])
    requires forall p :: 0 <= p < |st.ids| && p !in alive ==> distances[p] == 0
    modifies distances
    ensures Covers(ctx, View(ctx, st, sel), alive, ctx.V, ctx.H, distances[..])
  {
    EndsOnBoundary(ctx, st);
    if all {
      ghost var before := distances[..];
      AllAlive(ctx, st, sel);
      AllFit(ctx, st, sel, alive, before);
      Vertical(ShapeOf(ctx, st), ctx.query, st.data, |st.ids|, 0, ctx.V, distances, false, []);
      CoversMoreOfAll(ctx, st, sel, alive, before, distances[..]);
    } else {
      VisitStretch(ctx, st, sel, 0, ctx.V, ctx.H, alive, distances);
    }
  }

  lemma {:induction false} SelectedAreIn(c: Cluster, n: nat, p: nat)
    requires n <= |c.sel| && p < n && c.sel[p]
    ensures p in SelectedBelow(c, n)
  {
    if p < n - 1 {
      SelectedAreIn(c, n - 1, p);
    }
  }

  /** The scan of `FilteredStart`: the horizontal part first, then the vertical part. The comparison is
      that of the source in single precision, where 1 - 0.80 lies just below 0.2. */
  method ScanSelected(ctx: Context, st: StoredCluster, sel: seq<bool>, passing: nat, positions: array<nat>,
                      distances: array<int>)
    requires ValidStored(ctx, st) && |sel| == |st.ids| <= distances.Length && |st.ids| <= positions.Length
    modifies positions, distances
    ensures Scanned(ctx, View(ctx, st, sel), distances[..])
  {
    ghost var c := View(ctx, st, sel);
    ResetPruningDistances(|st.ids|, distances);
    ghost var zeros := distances[..];
    var n := InitPositionsArrayFromSelectionVector(|st.ids|, positions, sel, c);
    var alive := positions[..n];
    assert distances[..] == zeros;
    SelectedIncreases(c, |sel|);
    ZerosCover(ctx, c, alive, distances[..]);
    HorizontalScan(ctx, st, sel, 0, alive, distances);
    VerticalFinish(ctx, st, sel, 5 * passing >= |st.ids|, alive, distances);
    forall p: nat | p < |sel| && sel[p] ensures p in alive {
      SelectedAreIn(c, |sel|, p);
    }
    CoveredIsScanned(ctx, c, alive, distances[..]);
  }

  // ---------------------------------------------------------------- taking the nearest

  /** `taken` are nearest candidates of `all`, as many as a heap `h` of at most `k` has room for. */
  ghost predicate TakesNearest(k: nat, h: Heap, all: Heap, h': Heap, taken: Heap)
    requires |h| <= k
  {
    && taken <= all && |taken| == Min(k - |h|, |all|) && h' == h + taken
    && forall x, y | x in taken && y in all - taken :: x.distance <= y.distance
  }

  /** Unselected vectors have a key above every selected vector's distance. */
  ghost predicate Masked(ctx: Context, c: Cluster, distances: seq<int>)
    requires Fits(ctx, c)
  {
    && Scanned(ctx, c, distances)
    && forall p, q :: 0 <= p < |c.vecs| && 0 <= q < |c.vecs| && c.sel[p] && !c.sel[q] ==> distances[p] < distances[q]
  }

  /** A selected vector that an unselected, masked one can get ahead of. */
  predicate Overtaken(ctx: Context, c: Cluster, p: nat, q: nat)
    requires Fits(ctx, c)
  {
    p < |c.vecs| && q < |c.vecs| && c.sel[p] && !c.sel[q] && Full(ctx, c.vecs[p]) >= MaskValue(ctx)
  }

  /** No selected vector is overtaken. U8 distances are always below the mask. */
  ghost predicate BelowMask(ctx: Context, c: Cluster)
    requires Fits(ctx, c)
  {
    ctx.quant.F32? ==> forall p: nat, q: nat :: !Overtaken(ctx, c, p, q)
  }

  lemma MaskedBy(ctx: Context, st: StoredCluster, sel: seq<bool>, before: seq<int>, after: seq<int>)
    requires ValidStored(ctx, st) && |sel| == |st.ids| <= |before| == |after|
    requires Scanned(ctx, View(ctx, st, sel), before) && BelowMask(ctx, View(ctx, st, sel))
    requires forall p :: 0 <= p < |sel| ==> after[p] == if sel[p] then before[p] else MaskValue(ctx)
    ensures Masked(ctx, View(ctx, st, sel), after)
  {
    var c := View(ctx, st, sel);
    forall p, q | 0 <= p < |c.vecs| && 0 <= q < |c.vecs| && c.sel[p] && !c.sel[q]
      ensures Full(ctx, c.vecs[p]) < MaskValue(ctx)
    {
      if ctx.quant.U8? {
        SpanFits(ctx, st, p, 0, ctx.D);
        MaskFits(ctx);
      } else {
        assert !Overtaken(ctx, c, p, q);
      }
    }
  }

  function OnlySelected(c: Cluster, positions: seq<nat>): (r: seq<nat>)
    requires Within(positions, |c.sel|)
    ensures Within(r, |c.sel|)
    ensures forall i :: 0 <= i < |r| ==> r[i] in positions && c.sel[r[i]]
  {
    if positions == [] then []
    else
      var last := positions[|positions| - 1];
      var before := OnlySelected(c, positions[..|positions| - 1]);
      if c.sel[last] then before + [last] else before
  }

  lemma {:induction false} OnlySelectedCounts(c: Cluster, positions: seq<nat>, p: nat)
    requires Within(positions, |c.sel|)
    ensures multiset(OnlySelected(c, positions))[p]
            == if p < |c.sel| && c.sel[p] then multiset(positions)[p] else 0
  {
    if positions != [] {
      var init, last := positions[..|positions| - 1], positions[|positions| - 1];
      OnlySelectedCounts(c, init, p);
      assert positions == init + [last];
    }
  }

  lemma {:induction false} SelectedCounts(c: Cluster, n: nat, p: nat)
    requires n <= |c.sel|
    ensures multiset(SelectedBelow(c, n))[p] == if p < n && c.sel[p] then 1 else 0
  {
    if n > 0 {
      SelectedCounts(c, n - 1, p);
    }
  }

  lemma {:induction false} IotaCounts(n: nat, p: nat)
    ensures multiset(Iota(n))[p] == if p < n then 1 else 0
  {
    if n > 0 {
      IotaCounts(n - 1, p);
      assert Iota(n) == Iota(n - 1) + [n - 1];
    }
  }

  /** The selected positions are those selected among the sorted ones and those among the rest. */
  lemma SelectedAreSplit(c: Cluster, order: seq<nat>, rest: seq<nat>)
    requires Within(order, |c.sel|) && Within(rest, |c.sel|)
    requires multiset(order) + multiset(rest) == multiset(Iota(|c.sel|))
    ensures multiset(OnlySelected(c, order)) + multiset(OnlySelected(c, rest)) == multiset(Selected(c))
  {
    forall p: nat
      ensures (multiset(OnlySelected(c, order)) + multiset(OnlySelected(c, rest)))[p] == multiset(Selected(c))[p]
    {
      OnlySelectedCounts(c, order, p);
      OnlySelectedCounts(c, rest, p);
      SelectedCounts(c, |c.sel|, p);
      IotaCounts(|c.sel|, p);
      assert (multiset(order) + multiset(rest))[p] == multiset(Iota(|c.sel|))[p];
    }
  }

  /** With at most as many places as there are selected vectors, only selected vectors are taken. */
  lemma SelectedComeFirst(ctx: Context, c: Cluster, distances: seq<int>, m: nat, order: seq<nat>, rest: seq<nat>)
    requires Fits(ctx, c) && |distances| == |c.vecs| && Masked(ctx, c, distances)
    requires IsPartialSort(distances, m, order, rest) && m <= |Selected(c)|
    ensures forall i :: 0 <= i < |order| ==> c.sel[order[i]]
  {
    forall i | 0 <= i < |order| ensures c.sel[order[i]] {
      if !c.sel[order[i]] {
        NoneSelectedInRest(ctx, c, distances, m, order, rest, i);
        SelectedAreSplit(c, order, rest);
        SameLength(OnlySelected(c, order), OnlySelected(c, rest), Selected(c));
        LastUnselected(c, order, i);
        assert false;
      }
    }
  }

  lemma SameLength(a: seq<nat>, b: seq<nat>, all: seq<nat>)
    requires multiset(a) + multiset(b) == multiset(all)
    ensures |a| + |b| == |all|
  {
    assert |multiset(a) + multiset(b)| == |multiset(all)|;
  }

  lemma NoneSelectedInRest(ctx: Context, c: Cluster, distances: seq<int>, m: nat, order: seq<nat>, rest: seq<nat>,
                           i: nat)
    requires Fits(ctx, c) && |distances| == |c.vecs| && Masked(ctx, c, distances)
    requires IsPartialSort(distances, m, order, rest) && i < |order| && !c.sel[order[i]]
    ensures OnlySelected(c, rest) == []
  {
    forall j | 0 <= j < |rest| ensures !c.sel[rest[j]] {
      assert distances[order[i]] <= distances[rest[j]];
    }
    NoneSelected(c, rest);
  }

  lemma {:induction false} NoneSelected(c: Cluster, positions: seq<nat>)
    requires Within(positions, |c.sel|) && forall j :: 0 <= j < |positions| ==> !c.sel[positions[j]]
    ensures OnlySelected(c, positions) == []
  {
    if positions != [] {
      NoneSelected(c, positions[..|positions| - 1]);
    }
  }

  lemma {:induction false} AllAreSelected(c: Cluster, positions: seq<nat>)
    requires Within(positions, |c.sel|) && forall j :: 0 <= j < |positions| ==> c.sel[positions[j]]
    ensures OnlySelected(c, positions) == positions
  {
    if positions != [] {
      AllAreSelected(c, positions[..|positions| - 1]);
    }
  }

  lemma {:induction false} OnlySelectedIsShorter(c: Cluster, positions: seq<nat>)
    requires Within(positions, |c.sel|)
    ensures |OnlySelected(c, positions)| <= |positions|
  {
    if positions != [] {
      OnlySelectedIsShorter(c, positions[..|positions| - 1]);
    }
  }

  lemma {:induction false} LastUnselected(c: Cluster, positions: seq<nat>, i: nat)
    requires Within(positions, |c.sel|) && i < |positions| && !c.sel[positions[i]]
    ensures |OnlySelected(c, positions)| < |positions|
  {
    if i < |positions| - 1 {
      LastUnselected(c, positions[..|positions| - 1], i);
    } else {
      OnlySelectedIsShorter(c, positions[..|positions| - 1]);
    }
  }

  // ---------------------------------------------------------------- candidates of positions

  function ListOf(ctx: Context, c: Cluster, a: seq<nat>): (xs: seq<Candidate>)
    requires Fits(ctx, c) && ValidAlive(c, a)
    ensures |xs| == |a| && forall i :: 0 <= i < |a| ==> xs[i] == CandidateAt(ctx, c, a[i])
  {
    seq(|a|, i requires 0 <= i < |a| => CandidateAt(ctx, c, a[i]))
  }

  lemma {:induction false} ListedCandidates(ctx: Context, c: Cluster, a: seq<nat>)
    requires Fits(ctx, c) && ValidAlive(c, a)
    ensures multiset(ListOf(ctx, c, a)) == Candidates(ctx, c, a)
    decreases |a|
  {
    if a != [] {
      var n := |a| - 1;
      ListedCandidates(ctx, c, a[..n]);
      assert ListOf(ctx, c, a) == ListOf(ctx, c, a[..n]) + [CandidateAt(ctx, c, a[n])];
    }
  }

  lemma CandidatesWithout(ctx: Context, c: Cluster, a: seq<nat>, i: nat)
    requires Fits(ctx, c) && ValidAlive(c, a) && i < |a|
    ensures Candidates(ctx, c, a) == Candidates(ctx, c, a[..i] + a[i + 1..]) + multiset{CandidateAt(ctx, c, a[i])}
  {
    var left := a[..i] + a[i + 1..];
    var xs := ListOf(ctx, c, a);
    ListedCandidates(ctx, c, a);
    ListedCandidates(ctx, c, left);
    assert ListOf(ctx, c, left) == xs[..i] + xs[i + 1..];
    WithoutOne(xs, i);
  }

  lemma WithoutOne(xs: seq<Candidate>, i: nat)
    requires i < |xs|
    ensures multiset(xs) == multiset(xs[..i] + xs[i + 1..]) + multiset{xs[i]}
  {
    assert xs == xs[..i] + [xs[i]] + xs[i + 1..];
  }

  /** The candidates do not depend on the order of the positions. */
  lemma {:induction false} CandidatesOfPermutation(ctx: Context, c: Cluster, a: seq<nat>, b: seq<nat>)
    requires Fits(ctx, c) && ValidAlive(c, a) && ValidAlive(c, b) && multiset(a) == multiset(b)
    ensures Candidates(ctx, c, a) == Candidates(ctx, c, b)
    decreases |a|
  {
    assert |multiset(a)| == |multiset(b)|;
    if a != [] {
      var n := |a| - 1;
      assert a == a[..n] + [a[n]];
      assert a[n] in multiset(b);
      var i :| 0 <= i < |b| && b[i] == a[n];
      Without(b, i);
      var left := b[..i] + b[i + 1..];
      Cancel(multiset(a[..n]), multiset(left), multiset{a[n]});
      CandidatesOfPermutation(ctx, c, a[..n], left);
      CandidatesWithout(ctx, c, b, i);
    }
  }

  lemma ConcatIsAlive(c: Cluster, a: seq<nat>, b: seq<nat>)
    requires ValidAlive(c, a) && ValidAlive(c, b)
    ensures ValidAlive(c, a + b)
  {
  }

  lemma ListOfConcat(ctx: Context, c: Cluster, a: seq<nat>, b: seq<nat>, all: seq<nat>)
    requires Fits(ctx, c) && ValidAlive(c, a) && ValidAlive(c, b) && ValidAlive(c, all) && all == a + b
    ensures ListOf(ctx, c, all) == ListOf(ctx, c, a) + ListOf(ctx, c, b)
  {
    var xs, ys := ListOf(ctx, c, all), ListOf(ctx, c, a) + ListOf(ctx, c, b);
    forall i | 0 <= i < |all| ensures xs[i] == ys[i] {
      assert all[i] == if i < |a| then a[i] else b[i - |a|];
    }
  }

  lemma CandidatesOfConcat(ctx: Context, c: Cluster, a: seq<nat>, b: seq<nat>)
    requires Fits(ctx, c) && ValidAlive(c, a) && ValidAlive(c, b)
    ensures ValidAlive(c, a + b)
    ensures Candidates(ctx, c, a + b) == Candidates(ctx, c, a) + Candidates(ctx, c, b)
  {
    var all := a + b;
    ConcatIsAlive(c, a, b);
    ListOfConcat(ctx, c, a, b, all);
    ListedCandidates(ctx, c, a);
    ListedCandidates(ctx, c, b);
    ListedCandidates(ctx, c, all);
  }

  lemma CandidatesCount(ctx: Context, c: Cluster, a: seq<nat>)
    requires Fits(ctx, c) && ValidAlive(c, a)
    ensures |Candidates(ctx, c, a)| == |a|
  {
    ListedCandidates(ctx, c, a);
    assert |multiset(ListOf(ctx, c, a))| == |ListOf(ctx, c, a)|;
  }

  // ---------------------------------------------------------------- Start and FilteredStart

  /** The selected candidates are those of the first places and those of the other selected ones. */
  lemma CandidatesSplit(ctx: Context, c: Cluster, distances: seq<int>, m: nat, order: seq<nat>, rest: seq<nat>)
      returns (others: seq<nat>)
    requires Fits(ctx, c) && |distances| == |c.vecs| && Masked(ctx, c, distances)
    requires IsPartialSort(distances, m, order, rest) && m <= |Selected(c)|
    ensures ValidAlive(c, order) && ValidAlive(c, others)
    ensures forall i :: 0 <= i < |order| ==> c.sel[order[i]]
    ensures forall i :: 0 <= i < |others| ==> c.sel[others[i]] && others[i] in rest
    ensures Candidates(ctx, c, Selected(c)) == Candidates(ctx, c, order) + Candidates(ctx, c, others)
  {
    SelectedComeFirst(ctx, c, distances, m, order, rest);
    AllAreSelected(c, order);
    others := OnlySelected(c, rest);
    SelectedAreSplit(c, order, rest);
    assert multiset(order + others) == multiset(order) + multiset(others);
    CandidatesOfPermutation(ctx, c, order + others, Selected(c));
    CandidatesOfConcat(ctx, c, order, others);
  }

  lemma Nearer(ctx: Context, c: Cluster, p: nat, q: nat, distances: seq<int>)
    requires Fits(ctx, c) && p < |c.vecs| && q < |c.vecs| && c.sel[p] && c.sel[q] && Scanned(ctx, c, distances)
    requires distances[p] <= distances[q]
    ensures CandidateAt(ctx, c, p).distance <= CandidateAt(ctx, c, q).distance
  {
    PublishedIsMonotone(ctx, distances[p], distances[q]);
  }

  lemma TakenAreNearest(ctx: Context, c: Cluster, distances: seq<int>, m: nat, order: seq<nat>, rest: seq<nat>,
                        k: nat, h: Heap)
    requires Fits(ctx, c) && |distances| == |c.vecs| && Masked(ctx, c, distances)
    requires IsPartialSort(distances, m, order, rest) && |h| <= k && m == Min(k - |h|, |Selected(c)|)
    ensures ValidAlive(c, order)
    ensures var taken := Candidates(ctx, c, order);
            TakesNearest(k, h, Candidates(ctx, c, Selected(c)), h + taken, taken)
  {
    var others := CandidatesSplit(ctx, c, distances, m, order, rest);
    var all, taken, left := Candidates(ctx, c, Selected(c)), Candidates(ctx, c, order), Candidates(ctx, c, others);
    assert all - taken == left;
    forall x: Candidate, y: Candidate | x in taken && y in left ensures x.distance <= y.distance {
      var i := CandidateIn(ctx, c, order, x);
      var j := CandidateIn(ctx, c, others, y);
      KeyBelow(distances, order, rest, i, others[j]);
      Nearer(ctx, c, order[i], others[j], distances);
    }
    CandidatesCount(ctx, c, order);
    CandidatesCount(ctx, c, Selected(c));
  }

  lemma KeyBelow(keys: seq<int>, a: seq<nat>, b: seq<nat>, i: nat, y: nat)
    requires Within(a, |keys|) && Within(b, |keys|) && KeysBelow(keys, a, b) && i < |a| && y in b
    ensures y < |keys| && keys[a[i]] <= keys[y]
  {
  }

  /** Pushes the vectors at the given positions. */
  method PushAt(ctx: Context, st: StoredCluster, ghost c: Cluster, order: seq<nat>, distances: array<int>,
                heap: SharedHeap)
    requires Fits(ctx, c) && c.ids == st.ids && ValidAlive(c, order) && |c.vecs| <= distances.Length
    requires forall i :: 0 <= i < |order| ==> distances[order[i]] == Full(ctx, c.vecs[order[i]])
    modifies heap`items
    ensures heap.items == old(heap.items) + Candidates(ctx, c, order)
  {
    ghost var before := heap.items;
    var i := 0;
    while i < |order|
      invariant i <= |order| && heap.items == before + Candidates(ctx, c, order[..i])
    {
      heap.Insert(Candidate(st.ids[order[i]], Published(ctx, distances[order[i]])));
      assert order[..i + 1][..i] == order[..i];
      i := i + 1;
    }
    assert order[..i] == order;
  }

  /** Sorts the vectors by their distances as far as needed, and pushes the first ones. */
  method PushNearest(ctx: Context, st: StoredCluster, ghost c: Cluster, ghost k: nat, m: nat, distances: array<int>,
                     heap: SharedHeap)
      returns (ghost taken: Heap)
    requires Fits(ctx, c) && c.ids == st.ids && |c.vecs| <= distances.Length
    requires |heap.items| <= k && m == Min(k - |heap.items|, |Selected(c)|)
    requires Masked(ctx, c, distances[..|c.vecs|])
    modifies heap`items
    ensures TakesNearest(k, old(heap.items), Candidates(ctx, c, Selected(c)), heap.items, taken)
  {
    var n := |st.ids|;
    var keys := distances[..n];
    SelectedAtMost(c);
    var order;
    ghost var rest;
    order, rest := PartialSort(keys, m);
    TakenAreNearest(ctx, c, keys, m, order, rest, k, heap.items);
    SelectedComeFirst(ctx, c, keys, m, order, rest);
    taken := Candidates(ctx, c, order);
    assert forall i :: 0 <= i < |order| ==> distances[order[i]] == keys[order[i]];
    PushAt(ctx, st, c, order, distances, heap);
  }

  lemma SelectedAtMost(c: Cluster)
    ensures |Selected(c)| <= |c.sel|
  {
  }

  /** `Start`: a full scan of a cluster for a heap that is not full yet. */
  method Start(ctx: Context, st: StoredCluster, k: nat, distances: array<int>, heap: SharedHeap)
      returns (ghost taken: Heap)
    requires ValidStored(ctx, st) && |st.ids| <= distances.Length && |heap.items| < k
    modifies distances, heap`items
    ensures var c := View(ctx, st, AllOf(|st.ids|));
            TakesNearest(k, old(heap.items), Candidates(ctx, c, Selected(c)), heap.items, taken)
  {
    ghost var sel := AllOf(|st.ids|);
    ghost var c := View(ctx, st, sel);
    ScanAll(ctx, st, sel, distances);
    AllSelected(c, |st.ids|);
    assert Masked(ctx, c, distances[..|c.vecs|]);
    taken := PushNearest(ctx, st, c, k, Min(k - |heap.items|, |st.ids|), distances, heap);
  }

  /** `FilteredStart`: the same for the rows that passed the filter. */
  method FilteredStart(ctx: Context, st: StoredCluster, k: nat, sel: seq<bool>, passing: nat, positions: array<nat>,
                       distances: array<int>, heap: SharedHeap)
      returns (ghost taken: Heap)
    requires ValidStored(ctx, st) && |sel| == |st.ids| <= distances.Length && |st.ids| <= positions.Length
    requires |heap.items| < k && passing == |Selected(View(ctx, st, sel))| && BelowMask(ctx, View(ctx, st, sel))
    modifies positions, distances, heap`items
    ensures var c := View(ctx, st, sel);
            TakesNearest(k, old(heap.items), Candidates(ctx, c, Selected(c)), heap.items, taken)
  {
    ghost var c := View(ctx, st, sel);
    ScanSelected(ctx, st, sel, passing, positions, distances);
    ghost var before := distances[..];
    MaskDistancesWithSelectionVector(ctx, |st.ids|, distances, sel);
    MaskedBy(ctx, st, sel, before, distances[..]);
    assert Masked(ctx, c, distances[..|c.vecs|]);
    taken := PushNearest(ctx, st, c, k, Min(k - |heap.items|, passing), distances, heap);
  }
}
