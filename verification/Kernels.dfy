/** The scalar distance kernels over the transposed layout. Additions into the distance array wrap
    like `uint32_t` for U8; the kernels are called where nothing wraps. */
module Kernels {
  import opened Common
  import opened Distances
  import opened Layout

  /** Addition in the distance type: it wraps for U8. */
  function Plus(quant: Quantization, a: int, b: int): int {
    if quant.U8? then (a + b) % UINT32_RANGE else a + b
  }

  function Iota(n: nat): (r: seq<nat>)
    ensures |r| == n && forall i :: 0 <= i < n ==> r[i] == i
  {
    seq(n, i requires 0 <= i < n => i)
  }

  /** The vectors a vertical pass visits: all of them, or the surviving positions only. */
  function Targets(skipPruned: bool, positions: seq<nat>, nVectors: nat): seq<nat>
    requires skipPruned ==> nVectors <= |positions|
  {
    if skipPruned then positions[..nVectors] else Iota(nVectors)
  }

  predicate ValidTargets(s: Shape, targets: seq<nat>) {
    NoRepeats(targets) && forall i :: 0 <= i < |targets| ==> targets[i] < s.n
  }

  /** The squared distance of vector `v` over a range of dimensions. */
  function Span(s: Shape, query: seq<int>, data: seq<int>, v: nat, lo: nat, hi: nat): nat
    requires |query| == s.D() && |data| == s.D() * s.n && v < s.n && lo <= hi <= s.D()
  {
    SqDist(query, Row(s, data, v), lo, hi)
  }

  /** What each vector gains over lo .. hi. */
  function Gain(s: Shape, query: seq<int>, data: seq<int>, lo: nat, hi: nat): (g: seq<nat>)
    requires |query| == s.D() && |data| == s.D() * s.n && lo <= hi <= s.D()
    ensures |g| == s.n && forall v :: 0 <= v < s.n ==> g[v] == Span(s, query, data, v, lo, hi)
  {
    seq(s.n, v requires 0 <= v < s.n => Span(s, query, data, v, lo, hi))
  }

  /** Every target has gained its share, nothing else has changed. */
  ghost predicate Raised(targets: seq<nat>, gain: seq<nat>, before: seq<int>, after: seq<int>) {
    && |after| == |before| >= |gain|
    && (forall i :: 0 <= i < |targets| && targets[i] < |gain| ==>
          after[targets[i]] == before[targets[i]] + gain[targets[i]])
    && (forall v :: 0 <= v < |before| && v !in targets ==> after[v] == before[v])
  }

  predicate KeptOutside(targets: seq<nat>, before: seq<int>, after: seq<int>) {
    |after| == |before| && forall v :: 0 <= v < |before| && v !in targets ==> after[v] == before[v]
  }

  lemma RaisedKeepsOthers(targets: seq<nat>, gain: seq<nat>, before: seq<int>, after: seq<int>)
    requires Raised(targets, gain, before, after)
    ensures KeptOutside(targets, before, after)
  {
  }

  /** No target overflows its accumulator when it gains its share. */
  ghost predicate NoOverflow(quant: Quantization, targets: seq<nat>, gain: seq<nat>, before: seq<int>) {
    && |gain| <= |before|
    && (quant.U8? ==> forall i :: 0 <= i < |targets| && targets[i] < |gain| ==>
          0 <= before[targets[i]] && before[targets[i]] + gain[targets[i]] < UINT32_RANGE)
  }

  predicate IsSum(a: seq<nat>, b: seq<nat>, c: seq<nat>) {
    |a| == |b| == |c| && forall v :: 0 <= v < |a| ==> c[v] == a[v] + b[v]
  }

  lemma GainSplit(s: Shape, query: seq<int>, data: seq<int>, lo: nat, mid: nat, hi: nat)
    requires |query| == s.D() && |data| == s.D() * s.n && lo <= mid <= hi <= s.D()
    ensures IsSum(Gain(s, query, data, lo, mid), Gain(s, query, data, mid, hi), Gain(s, query, data, lo, hi))
  {
    forall v | 0 <= v < s.n
      ensures Span(s, query, data, v, lo, hi) == Span(s, query, data, v, lo, mid) + Span(s, query, data, v, mid, hi)
    {
      SqDistSplit(query, Row(s, data, v), lo, mid, hi);
    }
  }

  lemma RaisedTwice(targets: seq<nat>, a: seq<nat>, b: seq<nat>, c: seq<nat>, before: seq<int>, between: seq<int>,
                    after: seq<int>)
    requires IsSum(a, b, c) && Raised(targets, a, before, between) && Raised(targets, b, between, after)
    ensures Raised(targets, c, before, after)
  {
  }

  lemma RaisedByNothing(s: Shape, query: seq<int>, data: seq<int>, targets: seq<nat>, d: nat, before: seq<int>)
    requires |query| == s.D() && |data| == s.D() * s.n && d <= s.D() && s.n <= |before|
    ensures Raised(targets, Gain(s, query, data, d, d), before, before)
  {
    assert forall v :: 0 <= v < s.n ==> Span(s, query, data, v, d, d) == 0;
  }

  /** A pass that fits as a whole fits part by part. */
  lemma NoOverflowSplits(quant: Quantization, targets: seq<nat>, a: seq<nat>, b: seq<nat>, c: seq<nat>,
                         before: seq<int>, between: seq<int>)
    requires IsSum(a, b, c) && NoOverflow(quant, targets, c, before) && Raised(targets, a, before, between)
    ensures NoOverflow(quant, targets, b, between) && NoOverflow(quant, targets, a, before)
  {
  }

  // ---------------------------------------------------------------- one block

  /** The sum of the squared differences of vector `v` in the block at `b`, as the loops compute it
      from the stored values. */
  method BlockDistance(s: Shape, query: seq<int>, data: seq<int>, v: nat, b: nat, w: nat) returns (sum: nat)
    requires |query| == s.D() && |data| == s.D() * s.n && v < s.n
    requires b < s.D() && BlockStart(s, b) == b && BlockWidth(s, b) == w && b + w <= s.D()
    ensures sum == Span(s, query, data, v, b, b + w)
  {
    var p := b * s.n + v * w;
    StoredSlice(s, data, v, b, w, p);
    var q, stored := query[b..b + w], data[p..p + w];
    SqDistOfSlices(query, Row(s, data, v), b, w);
    sum := SumOfSquares(q, stored);
  }

  /** The sum of the squared differences of two short vectors; it never wraps an `int` in the source. */
  method SumOfSquares(q: seq<int>, x: seq<int>) returns (sum: nat)
    requires |q| == |x|
    ensures sum == SqDist(q, x, 0, |q|)
  {
    sum := 0;
    var r := 0;
    while r < |q|
      invariant r <= |q| && sum == SqDist(q, x, 0, r)
    {
      sum := sum + Sq(q[r] - x[r]);
      r := r + 1;
    }
  }

  lemma StoredSlice(s: Shape, data: seq<int>, v: nat, b: nat, w: nat, p: nat)
    requires |data| == s.D() * s.n && v < s.n && b < s.D() && BlockStart(s, b) == b
    requires w == BlockWidth(s, b) && p == b * s.n + v * w
    ensures b + w <= s.D() && p + w <= |data| && data[p..p + w] == Row(s, data, v)[b..b + w]
  {
    RowWithin(s, b, v, w, p);
    StoredRow(s, data, v, b, w, p);
  }

  lemma StoredRow(s: Shape, data: seq<int>, v: nat, b: nat, w: nat, p: nat)
    requires |data| == s.D() * s.n && v < s.n && b < s.D() && BlockStart(s, b) == b
    requires w == BlockWidth(s, b) && p == b * s.n + v * w && b + w <= s.D() && p + w <= |data|
    ensures data[p..p + w] == Row(s, data, v)[b..b + w]
  {
    var slice, row := data[p..p + w], Row(s, data, v)[b..b + w];
    forall r | 0 <= r < |slice| ensures slice[r] == row[r] {
      StoredValue(s, data, v, b, r);
    }
  }

  lemma StoredValue(s: Shape, data: seq<int>, v: nat, b: nat, r: nat)
    requires |data| == s.D() * s.n && v < s.n && b < s.D() && BlockStart(s, b) == b && r < BlockWidth(s, b)
    ensures var p := b * s.n + v * BlockWidth(s, b) + r;
            b + r < s.D() && p < |data| && data[p] == Row(s, data, v)[b + r]
  {
    BlocksPartition(s, b, b + r);
    PositionIsInjective(s, v, b + r);
  }

  /** One group of dimensions for all targets. */
  method BlockPass(s: Shape, query: seq<int>, data: seq<int>, targets: seq<nat>, b: nat, w: nat,
                   distances: array<int>)
    requires |query| == s.D() && |data| == s.D() * s.n && ValidTargets(s, targets)
    requires b < s.D() && BlockStart(s, b) == b && BlockWidth(s, b) == w && b + w <= s.D()
    requires NoOverflow(s.quant, targets, Gain(s, query, data, b, b + w), distances[..])
    modifies distances
    ensures Raised(targets, Gain(s, query, data, b, b + w), old(distances[..]), distances[..])
  {
    ghost var gain, before := Gain(s, query, data, b, b + w), distances[..];
    var i := 0;
    while i < |targets|
      invariant i <= |targets| && Raised(targets[..i], gain, before, distances[..])
    {
      var v := targets[i];
      var sum := BlockDistance(s, query, data, v, b, w);
      NextTargetFits(s.quant, targets, i, gain, before, distances[..]);
      RaisedOneMore(targets, i, gain, before, distances[..]);
      AddTo(s.quant, distances, v, sum);
      i := i + 1;
    }
    assert targets[..i] == targets;
  }

  /** Adds to one accumulator. */
  method AddTo(quant: Quantization, distances: array<int>, p: nat, amount: nat)
    requires p < distances.Length
    requires quant.U8? ==> 0 <= distances[p] && distances[p] + amount < UINT32_RANGE
    modifies distances
    ensures distances[..] == old(distances[..])[p := old(distances[p]) + amount]
  {
    distances[p] := Plus(quant, distances[p], amount);
  }

  /** The accumulator of the next target is still untouched and has room. */
  lemma NextTargetFits(quant: Quantization, targets: seq<nat>, i: nat, gain: seq<nat>, before: seq<int>,
                       between: seq<int>)
    requires i < |targets| && NoRepeats(targets) && targets[i] < |gain|
    requires NoOverflow(quant, targets, gain, before) && Raised(targets[..i], gain, before, between)
    ensures between[targets[i]] == before[targets[i]]
    ensures quant.U8? ==> 0 <= between[targets[i]] && between[targets[i]] + gain[targets[i]] < UINT32_RANGE
  {
  }

  lemma RaisedOneMore(targets: seq<nat>, i: nat, gain: seq<nat>, before: seq<int>, between: seq<int>)
    requires i < |targets| && NoRepeats(targets) && targets[i] < |gain|
    requires Raised(targets[..i], gain, before, between)
    ensures Raised(targets[..i + 1], gain, before, between[targets[i] := before[targets[i]] + gain[targets[i]]])
  {
    assert targets[..i + 1] == targets[..i] + [targets[i]];
  }

  // ---------------------------------------------------------------- the kernels

  /** Boundaries at which a vertical pass may start or stop. */
  predicate OnBoundary(s: Shape, d: nat) {
    d <= s.V && (Aligned(s, d) || d == s.V)
  }

  /** `Vertical`: adds the squared distances over start .. end to all vectors, or to the surviving
      positions, group by group and with the compact tail last. */
  method Vertical(s: Shape, query: seq<int>, data: seq<int>, nVectors: nat, start: nat, end: nat,
                  distances: array<int>, skipPruned: bool, positions: seq<nat>)
    requires |query| == s.D() && |data| == s.D() * s.n
    requires start <= end && OnBoundary(s, start) && OnBoundary(s, end)
    requires skipPruned ==> nVectors <= |positions|
    requires var targets := Targets(skipPruned, positions, nVectors);
             ValidTargets(s, targets)
             && NoOverflow(s.quant, targets, Gain(s, query, data, start, end), distances[..])
    modifies distances
    ensures Raised(Targets(skipPruned, positions, nVectors), Gain(s, query, data, start, end),
                   old(distances[..]), distances[..])
  {
    if s.quant.F32? {
      VerticalF32(s, query, data, Targets(skipPruned, positions, nVectors), start, end, distances);
    } else {
      VerticalU8(s, query, data, Targets(skipPruned, positions, nVectors), start, end, distances);
    }
  }

  method VerticalF32(s: Shape, query: seq<int>, data: seq<int>, targets: seq<nat>, start: nat, end: nat,
                     distances: array<int>)
    requires |query| == s.D() && |data| == s.D() * s.n && ValidTargets(s, targets) && s.quant.F32?
    requires start <= end <= s.V
    requires NoOverflow(s.quant, targets, Gain(s, query, data, start, end), distances[..])
    modifies distances
    ensures Raised(targets, Gain(s, query, data, start, end), old(distances[..]), distances[..])
  {
    ghost var before := distances[..];
    var dim := start;
    RaisedByNothing(s, query, data, targets, start, before);
    while dim < end
      invariant start <= dim <= end
      invariant Raised(targets, Gain(s, query, data, start, dim), before, distances[..])
    {
      VerticalBlock(s, dim);
      BlockStep(s, query, data, targets, start, dim, 1, end, before, distances);
      dim := dim + 1;
    }
  }

  method VerticalU8(s: Shape, query: seq<int>, data: seq<int>, targets: seq<nat>, start: nat, end: nat,
                    distances: array<int>)
    requires |query| == s.D() && |data| == s.D() * s.n && ValidTargets(s, targets) && s.quant.U8?
    requires start <= end && OnBoundary(s, start) && OnBoundary(s, end)
    requires NoOverflow(s.quant, targets, Gain(s, query, data, start, end), distances[..])
    modifies distances
    ensures Raised(targets, Gain(s, query, data, start, end), old(distances[..]), distances[..])
  {
    ghost var before := distances[..];
    var dim := VerticalGroups(s, query, data, targets, start, end, distances);
    if dim < end {
      TailBlock(s, dim, end);
      BlockStep(s, query, data, targets, start, dim, end - dim, end, before, distances);
    }
  }

  lemma GroupBlock(s: Shape, dim: nat)
    requires s.quant.U8? && dim % 4 == 0 && dim + 4 <= s.V
    ensures BlockStart(s, dim) == dim && BlockWidth(s, dim) == 4
  {
    VerticalBlock(s, dim);
  }

  /** What is left after the full groups is the compact tail. */
  lemma TailBlock(s: Shape, dim: nat, end: nat)
    requires s.quant.U8? && OnBoundary(s, end) && dim < end < dim + 4 && dim % 4 == 0
    ensures BlockStart(s, dim) == dim && BlockWidth(s, dim) == end - dim
  {
    VerticalBlock(s, dim);
  }

  /** The full groups of four dimensions. */
  method VerticalGroups(s: Shape, query: seq<int>, data: seq<int>, targets: seq<nat>, start: nat, end: nat,
                        distances: array<int>) returns (dim: nat)
    requires |query| == s.D() && |data| == s.D() * s.n && ValidTargets(s, targets) && s.quant.U8?
    requires start <= end <= s.V && (start < end ==> start % 4 == 0)
    requires NoOverflow(s.quant, targets, Gain(s, query, data, start, end), distances[..])
    modifies distances
    ensures start <= dim <= end < dim + 4 && (dim < end ==> dim % 4 == 0)
    ensures Raised(targets, Gain(s, query, data, start, dim), old(distances[..]), distances[..])
  {
    ghost var before := distances[..];
    dim := start;
    RaisedByNothing(s, query, data, targets, start, before);
    while dim + 4 <= end
      invariant start <= dim <= end && (dim < end ==> dim % 4 == 0)
      invariant Raised(targets, Gain(s, query, data, start, dim), before, distances[..])
      decreases end - dim
    {
      GroupBlock(s, dim);
      BlockStep(s, query, data, targets, start, dim, 4, end, before, distances);
      dim := dim + 4;
    }
  }

  /** Extends a pass over start .. dim by the block at `dim`. */
  method BlockStep(s: Shape, query: seq<int>, data: seq<int>, targets: seq<nat>, ghost start: nat, dim: nat, w: nat,
                   ghost end: nat, ghost before: seq<int>, distances: array<int>)
    requires |query| == s.D() && |data| == s.D() * s.n && ValidTargets(s, targets)
    requires start <= dim < dim + w <= end <= s.V && BlockStart(s, dim) == dim && BlockWidth(s, dim) == w
    requires NoOverflow(s.quant, targets, Gain(s, query, data, start, end), before)
    requires Raised(targets, Gain(s, query, data, start, dim), before, distances[..])
    modifies distances
    ensures Raised(targets, Gain(s, query, data, start, dim + w), before, distances[..])
  {
    GainSplit(s, query, data, start, dim, end);
    GainSplit(s, query, data, dim, dim + w, end);
    GainSplit(s, query, data, start, dim, dim + w);
    ghost var between := distances[..];
    ghost var done, here, left, whole := Gain(s, query, data, start, dim), Gain(s, query, data, dim, dim + w),
      Gain(s, query, data, dim, end), Gain(s, query, data, start, end);
    NoOverflowSplits(s.quant, targets, done, left, whole, before, between);
    FirstPartFits(s.quant, targets, here, Gain(s, query, data, dim + w, end), left, between);
    BlockPass(s, query, data, targets, dim, w, distances);
    RaisedTwice(targets, done, here, Gain(s, query, data, start, dim + w), before, between, distances[..]);
  }

  lemma FirstPartFits(quant: Quantization, targets: seq<nat>, a: seq<nat>, b: seq<nat>, c: seq<nat>, before: seq<int>)
    requires IsSum(a, b, c) && NoOverflow(quant, targets, c, before)
    ensures NoOverflow(quant, targets, a, before)
  {
  }

  /** `Horizontal`: the squared distance of two vectors. */
  method Horizontal(quant: Quantization, query: seq<int>, x: seq<int>) returns (distance: nat)
    requires |x| == |query| && (quant.U8? ==> SqDist(query, x, 0, |query|) < UINT32_RANGE)
    ensures distance == SqDist(query, x, 0, |query|)
  {
    distance := 0;
    var d := 0;
    while d < |query|
      invariant d <= |query| && distance == SqDist(query, x, 0, d)
    {
      SqDistSplit(query, x, 0, d + 1, |query|);
      distance := Plus(quant, distance, Sq(query[d] - x[d]));
      d := d + 1;
    }
  }

  lemma SumTimes(a: nat, b: nat, c: nat)
    ensures a * c + b * c == (a + b) * c
  {
  }

  /** Where the values of vector `v` in the horizontal block `j` start. */
  function HorizontalOffset(s: Shape, v: nat, j: nat): (p: nat)
    ensures p == (s.V + j) * s.n + v * H_DIM_SIZE
  {
    SumTimes(s.V, j, s.n);
    s.V * s.n + j * s.n + v * H_DIM_SIZE
  }

  /** `Horizontal` on the horizontal block `j` of the stored vector `v`. */
  method HorizontalOfBlock(s: Shape, query: seq<int>, data: seq<int>, v: nat, j: nat) returns (d: nat)
    requires |query| == s.D() && |data| == s.D() * s.n && v < s.n
    requires j < s.H && j % H_DIM_SIZE == 0 && j + H_DIM_SIZE <= s.H
    requires s.quant.U8? ==> Span(s, query, data, v, s.V + j, s.V + j + H_DIM_SIZE) < UINT32_RANGE
    ensures d == Span(s, query, data, v, s.V + j, s.V + j + H_DIM_SIZE)
  {
    var dataPos := HorizontalOffset(s, v, j);
    HorizontalBlock(s, j);
    d := HorizontalAt(s, query, data, v, s.V + j, H_DIM_SIZE, dataPos);
  }

  method HorizontalAt(s: Shape, query: seq<int>, data: seq<int>, v: nat, b: nat, w: nat, dataPos: nat)
      returns (d: nat)
    requires |query| == s.D() && |data| == s.D() * s.n && v < s.n && b < s.D() && b + w <= s.D()
    requires BlockStart(s, b) == b && BlockWidth(s, b) == w && dataPos == b * s.n + v * w
    requires s.quant.U8? ==> Span(s, query, data, v, b, b + w) < UINT32_RANGE
    ensures d == Span(s, query, data, v, b, b + w)
  {
    StoredSlice(s, data, v, b, w, dataPos);
    SqDistOfSlices(query, Row(s, data, v), b, w);
    var q, x := query[b..b + w], data[dataPos..dataPos + w];
    d := Horizontal(s.quant, q, x);
  }
}
