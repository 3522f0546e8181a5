/** The loops of the pruned search over one stored cluster, and what they compute in terms of the
    search machine. */
module PruneSteps {
  import opened Common
  import opened Distances
  import opened KnnHeap
  import opened Layout
  import opened Kernels
  import opened SearchMachine

  /** A cluster as it is stored. */
  datatype StoredCluster = StoredCluster(ids: seq<nat>, data: seq<int>)

  function ShapeOf(ctx: Context, st: StoredCluster): (s: Shape)
    ensures s.D() == ctx.D
  {
    Shape(ctx.quant, ctx.V, ctx.H, |st.ids|)
  }

  /** The buffer has the right size; U8 buffers and queries hold bytes. */
  predicate ValidStored(ctx: Context, st: StoredCluster) {
    |st.data| == ctx.D * |st.ids| && (ctx.quant.U8? ==> Bytes(st.data) && Bytes(ctx.query))
  }

  /** The cluster that is stored, with the rows `sel` selects. */
  function View(ctx: Context, st: StoredCluster, sel: seq<bool>): (c: Cluster)
    requires ValidStored(ctx, st) && |sel| == |st.ids|
    ensures Fits(ctx, c)
  {
    Cluster(st.ids, Rows(ShapeOf(ctx, st), st.data), sel)
  }

  lemma RowIsBytes(s: Shape, data: seq<int>, v: nat)
    requires |data| == s.D() * s.n && v < s.n && Bytes(data)
    ensures Bytes(Row(s, data, v))
  {
    forall d | 0 <= d < s.D() ensures 0 <= Row(s, data, v)[d] <= 255 {
      PositionIsInjective(s, v, d);
    }
  }

  /** A U8 distance over any range of dimensions is at most 255^2 times the supported dimensions,
      so even on top of the mask value it fits a `uint32_t`. */
  lemma SpanFits(ctx: Context, st: StoredCluster, v: nat, lo: nat, hi: nat)
    requires ValidStored(ctx, st) && ctx.quant.U8? && v < |st.ids| && lo <= hi <= ctx.D
    ensures Span(ShapeOf(ctx, st), ctx.query, st.data, v, lo, hi) <= 65025 * (hi - lo) <= 65025 * PDX_MAX_DIMS
    ensures UINT32_MAX / 2 + 65025 * PDX_MAX_DIMS < UINT32_RANGE
    ensures 65025 * PDX_MAX_DIMS < UINT32_MAX / 2
  {
    RowIsBytes(ShapeOf(ctx, st), st.data, v);
    SqDistAtBytes(ctx.query, Row(ShapeOf(ctx, st), st.data, v), lo, hi);
  }

  // ---------------------------------------------------------------- the positions array

  /** The positions below `n` that are selected and whose distance is below the threshold. */
  function Passing(distances: seq<int>, sel: seq<bool>, threshold: real, n: nat): (r: seq<nat>)
    requires n <= |distances| && n <= |sel|
    ensures |r| <= n
  {
    if n == 0 then []
    else if distances[n - 1] as real < threshold && sel[n - 1] then Passing(distances, sel, threshold, n - 1) + [n - 1]
    else Passing(distances, sel, threshold, n - 1)
  }

  method InitPositionsArray(n: nat, positions: array<nat>, threshold: real, distances: array<int>, filtered: bool,
                            sel: seq<bool>) returns (notPruned: nat)
    requires n <= positions.Length && n <= distances.Length && n == |sel|
    requires !filtered ==> forall p :: 0 <= p < n ==> sel[p]
    modifies positions
    ensures distances[..] == old(distances[..])
    ensures notPruned <= n && positions[..notPruned] == Passing(distances[..], sel, threshold, n)
  {
    ghost var ds := distances[..];
    notPruned := 0;
    var p := 0;
    while p < n
      invariant notPruned <= p <= n && distances[..] == ds
      invariant positions[..notPruned] == Passing(ds, sel, threshold, p)
    {
      positions[notPruned] := p;
      assert positions[..notPruned + 1] == positions[..notPruned] + [p];
      if distances[p] as real < threshold && (!filtered || sel[p]) {
        notPruned := notPruned + 1;
      }
      p := p + 1;
    }
  }

  /** The positions of `alive` whose distance is below the threshold, in order. */
  function Compacted(alive: seq<nat>, distances: seq<int>, threshold: real): (r: seq<nat>)
    requires forall i :: 0 <= i < |alive| ==> alive[i] < |distances|
    ensures |r| <= |alive|
  {
    if alive == [] then []
    else
      var last := alive[|alive| - 1];
      var before := Compacted(alive[..|alive| - 1], distances, threshold);
      if distances[last] as real < threshold then before + [last] else before
  }

  method EvaluatePruningPredicateOnPositionsArray(n: nat, positions: array<nat>, threshold: real,
                                                  distances: array<int>) returns (notPruned: nat)
    requires n <= positions.Length
    requires forall i :: 0 <= i < n ==> positions[i] < distances.Length
    modifies positions
    ensures distances[..] == old(distances[..])
    ensures notPruned <= n && positions[..notPruned] == Compacted(old(positions[..n]), distances[..], threshold)
  {
    ghost var ds, alive := distances[..], positions[..n];
    notPruned := 0;
    var i := 0;
    while i < n
      invariant notPruned <= i <= n && distances[..] == ds
      invariant positions[i..n] == alive[i..]
      invariant positions[..notPruned] == Compacted(alive[..i], ds, threshold)
    {
      var p := positions[i];
      assert p == positions[i..n][0] == alive[i];
      assert alive[..i + 1][..i] == alive[..i];
      positions[notPruned] := p;
      assert positions[..notPruned + 1] == positions[..notPruned] + [p];
      if distances[p] as real < threshold {
        notPruned := notPruned + 1;
      }
      i := i + 1;
    }
    assert alive[..n] == alive;
  }

  // ---------------------------------------------------------------- distances and the machine

  /** The distances of the positions in `alive` cover the first `v` vertical and `h` horizontal
      dimensions. */
  ghost predicate Covers(ctx: Context, c: Cluster, alive: seq<nat>, v: nat, h: nat, distances: seq<int>)
    requires Fits(ctx, c) && v <= ctx.V && h <= ctx.H && ValidAlive(c, alive)
  {
    |c.vecs| <= |distances|
    && forall i :: 0 <= i < |alive| ==> distances[alive[i]] == Partial(ctx, c.vecs[alive[i]], v, h)
  }

  lemma {:induction false} CompactedIsSieve(ctx: Context, c: Cluster, alive: seq<nat>, v: nat, h: nat,
                                            distances: seq<int>, top: real)
    requires Fits(ctx, c) && v <= ctx.V && h <= ctx.H && ValidAlive(c, alive) && Covers(ctx, c, alive, v, h, distances)
    ensures Compacted(alive, distances, Threshold(ctx, top, v + h)) == Sieve(ctx, c, v, h, top, alive, true)
  {
    if alive != [] {
      var init := alive[..|alive| - 1];
      CompactedIsSieve(ctx, c, init, v, h, distances, top);
      assert Survives(ctx, c, v, h, top, alive[|alive| - 1])
             == (distances[alive[|alive| - 1]] as real < Threshold(ctx, top, v + h));
    }
  }

  lemma {:induction false} PassingIsSieve(ctx: Context, c: Cluster, v: nat, distances: seq<int>, top: real, n: nat)
    requires Fits(ctx, c) && v <= ctx.V && n <= |c.vecs| <= |distances|
    requires forall p :: 0 <= p < n && c.sel[p] ==> distances[p] == Partial(ctx, c.vecs[p], v, 0)
    ensures Passing(distances, c.sel, Threshold(ctx, top, v + 0), n)
            == Sieve(ctx, c, v, 0, top, SelectedBelow(c, n), true)
  {
    if n > 0 {
      PassingIsSieve(ctx, c, v, distances, top, n - 1);
      if c.sel[n - 1] {
        assert SelectedBelow(c, n)[..|SelectedBelow(c, n)| - 1] == SelectedBelow(c, n - 1);
        assert Survives(ctx, c, v, 0, top, n - 1) == (distances[n - 1] as real < Threshold(ctx, top, v + 0));
      }
    }
  }

  predicate Increasing(s: seq<nat>) {
    forall i, j :: 0 <= i < j < |s| ==> s[i] < s[j]
  }

  lemma {:induction false} SelectedIncreases(c: Cluster, n: nat)
    requires n <= |c.sel|
    ensures Increasing(SelectedBelow(c, n))
  {
    if n > 0 {
      SelectedIncreases(c, n - 1);
    }
  }

  /** A checkpoint keeps the positions in order. */
  lemma {:induction false} SieveIncreases(ctx: Context, c: Cluster, v: nat, h: nat, top: real, alive: seq<nat>)
    requires Fits(ctx, c) && v <= ctx.V && h <= ctx.H && ValidAlive(c, alive) && Increasing(alive)
    ensures Increasing(Sieve(ctx, c, v, h, top, alive, true))
  {
    if alive != [] {
      var init, last := alive[..|alive| - 1], alive[|alive| - 1];
      SieveIncreases(ctx, c, v, h, top, init);
      assert forall x :: x in init ==> x < last;
    }
  }

  /** What a vertical stretch or a horizontal block adds to a vector. */
  function Added(ctx: Context, st: StoredCluster, v: nat, h: nat, v': nat, h': nat): (g: seq<nat>)
    requires ValidStored(ctx, st) && v <= v' <= ctx.V && h <= h' <= ctx.H
    ensures |g| == |st.ids|
  {
    var s := ShapeOf(ctx, st);
    if v == v' then Gain(s, ctx.query, st.data, ctx.V + h, ctx.V + h') else Gain(s, ctx.query, st.data, v, v')
  }

  lemma PartialGrows(ctx: Context, st: StoredCluster, sel: seq<bool>, p: nat, v: nat, h: nat, v': nat, h': nat)
    requires ValidStored(ctx, st) && |sel| == |st.ids| && p < |st.ids|
    requires v <= v' <= ctx.V && h <= h' <= ctx.H && (v == v' || h == h')
    ensures Partial(ctx, View(ctx, st, sel).vecs[p], v, h) + Added(ctx, st, v, h, v', h')[p]
            == Partial(ctx, View(ctx, st, sel).vecs[p], v', h')
  {
    var x := View(ctx, st, sel).vecs[p];
    if v == v' {
      SqDistSplit(ctx.query, x, ctx.V, ctx.V + h, ctx.V + h');
    } else {
      SqDistSplit(ctx.query, x, 0, v, v');
    }
  }

  lemma SurvivorFits(ctx: Context, st: StoredCluster, sel: seq<bool>, p: nat, v: nat, h: nat, v': nat, h': nat)
    requires ValidStored(ctx, st) && |sel| == |st.ids| && p < |st.ids| && ctx.quant.U8?
    requires v <= v' <= ctx.V && h <= h' <= ctx.H && (v == v' || h == h')
    ensures Partial(ctx, View(ctx, st, sel).vecs[p], v, h) + Added(ctx, st, v, h, v', h')[p] < UINT32_RANGE
  {
    PartialGrows(ctx, st, sel, p, v, h, v', h');
    PartialBelowFull(ctx, View(ctx, st, sel).vecs[p], v', h');
    SpanFits(ctx, st, p, 0, ctx.D);
  }

  /** The next pass over surviving positions never wraps. */
  lemma SurvivorsFit(ctx: Context, st: StoredCluster, sel: seq<bool>, alive: seq<nat>, v: nat, h: nat, v': nat, h': nat,
                     before: seq<int>)
    requires ValidStored(ctx, st) && |sel| == |st.ids| && ValidAlive(View(ctx, st, sel), alive)
    requires v <= v' <= ctx.V && h <= h' <= ctx.H && (v == v' || h == h')
    requires Covers(ctx, View(ctx, st, sel), alive, v, h, before)
    ensures NoOverflow(ctx.quant, alive, Added(ctx, st, v, h, v', h'), before)
  {
    if ctx.quant.U8? {
      forall i | 0 <= i < |alive|
        ensures 0 <= before[alive[i]] && before[alive[i]] + Added(ctx, st, v, h, v', h')[alive[i]] < UINT32_RANGE
      {
        SurvivorFits(ctx, st, sel, alive[i], v, h, v', h');
      }
    }
  }

  /** Visiting the next horizontal block or vertical stretch extends what the distances cover. */
  lemma CoversMore(ctx: Context, st: StoredCluster, sel: seq<bool>, alive: seq<nat>, v: nat, h: nat, v': nat, h': nat,
                   before: seq<int>, after: seq<int>)
    requires ValidStored(ctx, st) && |sel| == |st.ids| && ValidAlive(View(ctx, st, sel), alive)
    requires v <= v' <= ctx.V && h <= h' <= ctx.H && (v == v' || h == h')
    requires Covers(ctx, View(ctx, st, sel), alive, v, h, before)
    requires Raised(alive, Added(ctx, st, v, h, v', h'), before, after)
    ensures Covers(ctx, View(ctx, st, sel), alive, v', h', after)
  {
    var c := View(ctx, st, sel);
    forall i | 0 <= i < |alive| ensures after[alive[i]] == Partial(ctx, c.vecs[alive[i]], v', h') {
      PartialGrows(ctx, st, sel, alive[i], v, h, v', h');
    }
  }
}
