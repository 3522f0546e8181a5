/** The U8 kernels of AVX2 and NEON: whole registers first, then the scalar tails. Their contracts are
    those of the scalar kernels. */
module SimdKernels {
  import opened Common
  import opened Distances
  import opened Layout
  import opened Kernels
  import opened SimdLanes

  // ---------------------------------------------------------------- one register of vectors

  /** Four query bytes repeated over a register (`_mm256_set1_epi32`, `vqtbl1q_u8`). */
  function Broadcast(isa: Isa, four: seq<nat>): (r: seq<nat>)
    requires |four| == 4
    ensures |r| == RegisterSize(isa) && forall i :: 0 <= i < |r| ==> r[i] == four[i % 4]
  {
    seq(RegisterSize(isa), i requires 0 <= i < RegisterSize(isa) => four[i % 4])
  }

  function Load(data: seq<int>, p: nat, n: nat): (r: seq<nat>)
    requires p + n <= |data| && Bytes(data)
    ensures IsBytes(r, n) && r == data[p..p + n]
  {
    data[p..p + n]
  }

  method Differences(isa: Isa, a: seq<nat>, b: seq<nat>) returns (d: seq<nat>)
    requires IsBytes(a, RegisterSize(isa)) && IsBytes(b, RegisterSize(isa))
    ensures IsBytes(d, RegisterSize(isa)) && forall i :: 0 <= i < |d| ==> Sq(d[i]) == Sq(a[i] as int - b[i])
  {
    d := AbsDiffs(isa, a, b);
    AbsDiffsAreBytes(isa, a, b);
    forall i | 0 <= i < |d| ensures Sq(d[i]) == Sq(a[i] as int - b[i]) {
      SquareOfAbsDiff(isa, a[i], b[i]);
    }
  }

  /** The vertical kernels' lane arithmetic. */
  method SumFours(isa: Isa, d: seq<nat>) returns (r: seq<nat>)
    requires IsBytes(d, RegisterSize(isa))
    ensures |r| == Lanes(isa) && forall v :: 0 <= v < |r| ==> r[v] == FourSquares(d, v)
  {
    r := LaneSums(isa, d);
    forall v | 0 <= v < |r| ensures r[v] == FourSquares(d, v) {
      LaneSumsAreFourSquares(isa, d, v);
    }
  }

  lemma SpanOfFour(query: seq<int>, row: seq<int>, b: nat)
    requires b + 4 <= |query| == |row|
    ensures SqDist(query, row, b, b + 4)
            == Sq(query[b] - row[b]) + Sq(query[b + 1] - row[b + 1])
             + Sq(query[b + 2] - row[b + 2]) + Sq(query[b + 3] - row[b + 3])
  {
    assert SqDist(query, row, b, b + 1) == Sq(query[b] - row[b]);
    assert SqDist(query, row, b, b + 2) == SqDist(query, row, b, b + 1) + Sq(query[b + 1] - row[b + 1]);
    assert SqDist(query, row, b, b + 3) == SqDist(query, row, b, b + 2) + Sq(query[b + 2] - row[b + 2]);
  }

  lemma QueryBytes(isa: Isa, query: seq<int>, b: nat, v: nat)
    requires Bytes(query) && b + 4 <= |query| && v < Lanes(isa)
    ensures Broadcast(isa, Load(query, b, 4))[4 * v..4 * v + 4] == query[b..b + 4]
  {
    var four, got := query[b..b + 4], Broadcast(isa, Load(query, b, 4))[4 * v..4 * v + 4];
    forall r | 0 <= r < |four| ensures got[r] == four[r] {
      assert (4 * v + r) % 4 == r;
    }
  }

  lemma StoredBytes(s: Shape, data: seq<int>, b: nat, i: nat, v: nat, p: nat)
    requires |data| == s.D() * s.n && i + v < s.n && b < s.D() && BlockStart(s, b) == b && BlockWidth(s, b) == 4
    requires p == b * s.n + i * 4
    ensures b + 4 <= s.D() && p + 4 * v + 4 <= |data|
    ensures data[p + 4 * v..p + 4 * v + 4] == Row(s, data, i + v)[b..b + 4]
  {
    assert (i + v) * 4 == i * 4 + 4 * v;
    StoredSlice(s, data, i + v, b, 4, p + 4 * v);
  }

  lemma SliceOfSlice(data: seq<int>, p: nat, n: nat, at: nat)
    requires p + n <= |data| && at + 4 <= n
    ensures data[p..p + n][at..at + 4] == data[p + at..p + at + 4]
  {
    var x, y := data[p..p + n][at..at + 4], data[p + at..p + at + 4];
    assert forall k :: 0 <= k < |x| ==> x[k] == data[p + at + k] == y[k];
  }

  /** The bytes 4v, ..., 4v + 3 of the register loaded at `p` are values of vector i + v. */
  lemma LoadedBytes(isa: Isa, s: Shape, data: seq<int>, b: nat, i: nat, v: nat, p: nat)
    requires |data| == s.D() * s.n && Bytes(data)
    requires b < s.D() && BlockStart(s, b) == b && BlockWidth(s, b) == 4 && b + 4 <= s.D()
    requires v < Lanes(isa) && i + Lanes(isa) <= s.n && p == b * s.n + i * 4 && p + RegisterSize(isa) <= |data|
    ensures Load(data, p, RegisterSize(isa))[4 * v..4 * v + 4] == Row(s, data, i + v)[b..b + 4]
  {
    StoredBytes(s, data, b, i, v, p);
    SliceOfSlice(data, p, RegisterSize(isa), 4 * v);
  }

  /** Four squared differences that match byte by byte have the same sum. */
  lemma FourSquaresMatch(query: seq<int>, row: seq<int>, b: nat, v: nat, q: seq<nat>, x: seq<nat>, d: seq<nat>)
    requires b + 4 <= |query| == |row| && 4 * v + 4 <= |q| == |x| == |d|
    requires q[4 * v..4 * v + 4] == query[b..b + 4] && x[4 * v..4 * v + 4] == row[b..b + 4]
    requires forall j :: 0 <= j < |d| ==> Sq(d[j]) == Sq(q[j] as int - x[j])
    ensures FourSquares(d, v) == SqDist(query, row, b, b + 4)
  {
    var qs, xs := q[4 * v..4 * v + 4], x[4 * v..4 * v + 4];
    assert qs[0] == query[b] && qs[1] == query[b + 1] && qs[2] == query[b + 2] && qs[3] == query[b + 3];
    assert xs[0] == row[b] && xs[1] == row[b + 1] && xs[2] == row[b + 2] && xs[3] == row[b + 3];
    SpanOfFour(query, row, b);
  }

  lemma RegisterInData(isa: Isa, s: Shape, b: nat, i: nat)
    requires b + 4 <= s.D() && i + Lanes(isa) <= s.n
    ensures b * s.n + i * 4 + RegisterSize(isa) <= s.D() * s.n
  {
    MulMonotone(b + 4, s.D(), s.n);
    assert (b + 4) * s.n == b * s.n + 4 * s.n;
  }

  /** What one register step adds to the vectors i, i + 1, ... */
  method Gained(isa: Isa, s: Shape, query: seq<int>, data: seq<int>, b: nat, i: nat) returns (r: seq<nat>)
    requires |query| == s.D() && |data| == s.D() * s.n && Bytes(query) && Bytes(data)
    requires b < s.D() && BlockStart(s, b) == b && BlockWidth(s, b) == 4 && b + 4 <= s.D()
    requires i + Lanes(isa) <= s.n
    ensures |r| == Lanes(isa) && forall v :: 0 <= v < |r| ==> r[v] == Span(s, query, data, i + v, b, b + 4)
  {
    RegisterInData(isa, s, b, i);
    var q := Broadcast(isa, Load(query, b, 4));
    var x := Load(data, b * s.n + i * 4, RegisterSize(isa));
    var d := Differences(isa, q, x);
    r := SumFours(isa, d);
    forall v | 0 <= v < |r| ensures r[v] == Span(s, query, data, i + v, b, b + 4) {
      QueryBytes(isa, query, b, v);
      LoadedBytes(isa, s, data, b, i, v, b * s.n + i * 4);
      FourSquaresMatch(query, Row(s, data, i + v), b, v, q, x, d);
    }
  }

  function WithRegister(before: seq<int>, i: nat, register: seq<nat>): (r: seq<int>)
    requires i + |register| <= |before|
    ensures |r| == |before|
    ensures forall j :: 0 <= j < |before| ==>
              r[j] == if i <= j < i + |register| then Add32(before[j], register[j - i]) else before[j]
  {
    seq(|before|, j requires 0 <= j < |before| =>
      if i <= j < i + |register| then Add32(before[j], register[j - i]) else before[j])
  }

  /** Loads the accumulators from `i` on, adds the register lanewise, stores the result. */
  method AddRegister(distances: array<int>, i: nat, register: seq<nat>)
    requires i + |register| <= distances.Length
    modifies distances
    ensures distances[..] == WithRegister(old(distances[..]), i, register)
  {
    ghost var before := distances[..];
    var v := 0;
    while v < |register|
      invariant v <= |register|
      invariant distances[..] == WithRegister(before, i, register[..v])
    {
      distances[i + v] := Add32(distances[i + v], register[v]);
      v := v + 1;
    }
    assert register[..v] == register;
  }

  lemma NotInIota(j: nat, n: nat)
    ensures j in Iota(n) <==> j < n
  {
    if j < n {
      assert Iota(n)[j] == j;
    }
  }

  /** If the register holds the gains of the vectors i, i + 1, ..., adding it raises exactly them. */
  lemma RaisedByRegister(i: nat, register: seq<nat>, nVectors: nat, gain: seq<nat>, before: seq<int>,
                         between: seq<int>)
    requires i + |register| <= nVectors <= |gain|
    requires NoOverflow(U8, Iota(nVectors), gain, before) && Raised(Iota(i), gain, before, between)
    requires forall v :: 0 <= v < |register| ==> register[v] == gain[i + v]
    ensures Raised(Iota(i + |register|), gain, before, WithRegister(between, i, register))
  {
    var done, more, all := Iota(i), Iota(i + |register|), Iota(nVectors);
    var after := WithRegister(between, i, register);
    forall j | 0 <= j < |more| ensures after[more[j]] == before[more[j]] + gain[more[j]] {
      if j < i {
        assert done[j] == j;
      } else {
        assert all[j] == j && register[j - i] == gain[i + (j - i)] && j !in done;
      }
    }
    forall j | 0 <= j < |before| && j !in more ensures after[j] == before[j] {
      NotInIota(j, i + |register|);
      NotInIota(j, i);
    }
  }

  /** One register step of the vertical kernel. */
  method RegisterStep(isa: Isa, s: Shape, query: seq<int>, data: seq<int>, nVectors: nat, b: nat, i: nat,
                      ghost before: seq<int>, distances: array<int>)
    requires |query| == s.D() && |data| == s.D() * s.n && Bytes(query) && Bytes(data) && s.quant.U8?
    requires b < s.D() && BlockStart(s, b) == b && BlockWidth(s, b) == 4 && b + 4 <= s.D()
    requires i + Lanes(isa) <= nVectors <= s.n
    requires NoOverflow(U8, Iota(nVectors), Gain(s, query, data, b, b + 4), before)
    requires Raised(Iota(i), Gain(s, query, data, b, b + 4), before, distances[..])
    modifies distances
    ensures Raised(Iota(i + Lanes(isa)), Gain(s, query, data, b, b + 4), before, distances[..])
  {
    ghost var gain, between := Gain(s, query, data, b, b + 4), distances[..];
    var register := Gained(isa, s, query, data, b, i);
    assert forall v :: 0 <= v < |register| ==> register[v] == gain[i + v];
    AddRegister(distances, i, register);
    RaisedByRegister(i, register, nVectors, gain, before, between);
  }

  // ---------------------------------------------------------------- a block for all vectors

  /** A full group of four dimensions: registers of vectors, then the vectors left over. */
  method FullBlockPass(isa: Isa, s: Shape, query: seq<int>, data: seq<int>, nVectors: nat, b: nat,
                       distances: array<int>)
    requires |query| == s.D() && |data| == s.D() * s.n && Bytes(query) && Bytes(data) && s.quant.U8?
    requires b < s.D() && BlockStart(s, b) == b && BlockWidth(s, b) == 4 && b + 4 <= s.D()
    requires nVectors <= s.n && NoOverflow(U8, Iota(nVectors), Gain(s, query, data, b, b + 4), distances[..])
    modifies distances
    ensures Raised(Iota(nVectors), Gain(s, query, data, b, b + 4), old(distances[..]), distances[..])
  {
    ghost var before := distances[..];
    var i := 0;
    while i + Lanes(isa) <= nVectors
      invariant i <= nVectors && Raised(Iota(i), Gain(s, query, data, b, b + 4), before, distances[..])
      decreases nVectors - i
    {
      RegisterStep(isa, s, query, data, nVectors, b, i, before, distances);
      i := i + Lanes(isa);
    }
    LeftOver(s, query, data, nVectors, b, i, before, distances);
  }

  /** The vectors from `first` on, one by one. */
  method LeftOver(s: Shape, query: seq<int>, data: seq<int>, nVectors: nat, b: nat, first: nat, ghost before: seq<int>,
                  distances: array<int>)
    requires |query| == s.D() && |data| == s.D() * s.n && s.quant.U8?
    requires b < s.D() && BlockStart(s, b) == b && BlockWidth(s, b) == 4 && b + 4 <= s.D()
    requires first <= nVectors <= s.n && NoOverflow(U8, Iota(nVectors), Gain(s, query, data, b, b + 4), before)
    requires Raised(Iota(first), Gain(s, query, data, b, b + 4), before, distances[..])
    modifies distances
    ensures Raised(Iota(nVectors), Gain(s, query, data, b, b + 4), before, distances[..])
  {
    var i := first;
    while i < nVectors
      invariant i <= nVectors && Raised(Iota(i), Gain(s, query, data, b, b + 4), before, distances[..])
    {
      OneVector(s, query, data, nVectors, b, i, before, distances);
      i := i + 1;
    }
  }

  /** The scalar tail's step. */
  method OneVector(s: Shape, query: seq<int>, data: seq<int>, nVectors: nat, b: nat, i: nat,
                   ghost before: seq<int>, distances: array<int>)
    requires |query| == s.D() && |data| == s.D() * s.n && s.quant.U8?
    requires b < s.D() && BlockStart(s, b) == b && BlockWidth(s, b) == 4 && b + 4 <= s.D()
    requires i < nVectors <= s.n && NoOverflow(U8, Iota(nVectors), Gain(s, query, data, b, b + 4), before)
    requires Raised(Iota(i), Gain(s, query, data, b, b + 4), before, distances[..])
    modifies distances
    ensures Raised(Iota(i + 1), Gain(s, query, data, b, b + 4), before, distances[..])
  {
    ghost var gain, all := Gain(s, query, data, b, b + 4), Iota(nVectors);
    var sum := BlockDistance(s, query, data, i, b, 4);
    assert all[..i] == Iota(i) && all[..i + 1] == Iota(i + 1) && all[i] == i;
    NextTargetFits(U8, all, i, gain, before, distances[..]);
    RaisedOneMore(all, i, gain, before, distances[..]);
    AddTo(U8, distances, i, sum);
  }

  // ---------------------------------------------------------------- the kernels

  /** `Vertical` on U8 with a vector instruction set. Only the pass over all vectors uses registers; the
      pass over surviving positions and the group of fewer than four dimensions are scalar. */
  method Vertical(isa: Isa, s: Shape, query: seq<int>, data: seq<int>, nVectors: nat, start: nat, end: nat,
                  distances: array<int>, skipPruned: bool, positions: seq<nat>)
    requires |query| == s.D() && |data| == s.D() * s.n && Bytes(query) && Bytes(data) && s.quant.U8?
    requires start <= end && OnBoundary(s, start) && OnBoundary(s, end)
    requires skipPruned ==> nVectors <= |positions|
    requires var targets := Targets(skipPruned, positions, nVectors);
             ValidTargets(s, targets)
             && NoOverflow(U8, targets, Gain(s, query, data, start, end), distances[..])
    modifies distances
    ensures Raised(Targets(skipPruned, positions, nVectors), Gain(s, query, data, start, end),
                   old(distances[..]), distances[..])
  {
    if skipPruned {
      VerticalU8(s, query, data, positions[..nVectors], start, end, distances);
    } else {
      VerticalAll(isa, s, query, data, nVectors, start, end, distances);
    }
  }

  method VerticalAll(isa: Isa, s: Shape, query: seq<int>, data: seq<int>, nVectors: nat, start: nat, end: nat,
                     distances: array<int>)
    requires |query| == s.D() && |data| == s.D() * s.n && Bytes(query) && Bytes(data) && s.quant.U8?
    requires start <= end && OnBoundary(s, start) && OnBoundary(s, end)
    requires ValidTargets(s, Iota(nVectors))
    requires NoOverflow(U8, Iota(nVectors), Gain(s, query, data, start, end), distances[..])
    modifies distances
    ensures Raised(Iota(nVectors), Gain(s, query, data, start, end), old(distances[..]), distances[..])
  {
    ghost var before := distances[..];
    var targets := Iota(nVectors);
    AllWithinShape(s, nVectors);
    RaisedByNothing(s, query, data, targets, start, before);
    var dim := VerticalGroups(isa, s, query, data, nVectors, targets, start, end, before, distances);
    ScalarTail(s, query, data, targets, start, dim, end, before, distances);
  }

  /** The group of fewer than four dimensions. */
  method ScalarTail(s: Shape, query: seq<int>, data: seq<int>, targets: seq<nat>, ghost start: nat, dim: nat, end: nat,
                    ghost before: seq<int>, distances: array<int>)
    requires |query| == s.D() && |data| == s.D() * s.n && s.quant.U8? && ValidTargets(s, targets)
    requires start <= dim <= end < dim + 4 && OnBoundary(s, end) && (dim < end ==> dim % 4 == 0)
    requires NoOverflow(U8, targets, Gain(s, query, data, start, end), before)
    requires Raised(targets, Gain(s, query, data, start, dim), before, distances[..])
    modifies distances
    ensures Raised(targets, Gain(s, query, data, start, end), before, distances[..])
  {
    if dim < end {
      TailBlock(s, dim, end);
      BlockStep(s, query, data, targets, start, dim, end - dim, end, before, distances);
    }
  }

  /** The loop over the full groups. */
  method VerticalGroups(isa: Isa, s: Shape, query: seq<int>, data: seq<int>, nVectors: nat, ghost targets: seq<nat>,
                        start: nat, end: nat, ghost before: seq<int>, distances: array<int>) returns (dim: nat)
    requires |query| == s.D() && |data| == s.D() * s.n && Bytes(query) && Bytes(data) && s.quant.U8?
    requires start <= end <= s.V && (start < end ==> start % 4 == 0) && nVectors <= s.n && targets == Iota(nVectors)
    requires NoOverflow(U8, targets, Gain(s, query, data, start, end), before)
    requires Raised(targets, Gain(s, query, data, start, start), before, distances[..])
    modifies distances
    ensures start <= dim <= end < dim + 4 && (dim < end ==> dim % 4 == 0)
    ensures Raised(targets, Gain(s, query, data, start, dim), before, distances[..])
  {
    dim := start;
    while dim + 4 <= end
      invariant start <= dim <= end && (dim < end ==> dim % 4 == 0)
      invariant Raised(targets, Gain(s, query, data, start, dim), before, distances[..])
      decreases end - dim
    {
      GroupBlock(s, dim);
      FullBlockStep(isa, s, query, data, nVectors, targets, start, dim, end, before, distances);
      dim := dim + 4;
    }
  }

  lemma AllWithinShape(s: Shape, nVectors: nat)
    requires ValidTargets(s, Iota(nVectors))
    ensures nVectors <= s.n
  {
    if nVectors > 0 {
      assert Iota(nVectors)[nVectors - 1] == nVectors - 1;
    }
  }

  /** Extends a pass over start .. dim by the full group at `dim`. */
  method FullBlockStep(isa: Isa, s: Shape, query: seq<int>, data: seq<int>, nVectors: nat, ghost targets: seq<nat>,
                       ghost start: nat, dim: nat, ghost end: nat, ghost before: seq<int>, distances: array<int>)
    requires |query| == s.D() && |data| == s.D() * s.n && Bytes(query) && Bytes(data) && s.quant.U8?
    requires start <= dim < dim + 4 <= end <= s.V && BlockStart(s, dim) == dim && BlockWidth(s, dim) == 4
    requires nVectors <= s.n && targets == Iota(nVectors)
    requires NoOverflow(U8, targets, Gain(s, query, data, start, end), before)
    requires Raised(targets, Gain(s, query, data, start, dim), before, distances[..])
    modifies distances
    ensures Raised(targets, Gain(s, query, data, start, dim + 4), before, distances[..])
  {
    GainSplit(s, query, data, start, dim, end);
    GainSplit(s, query, data, dim, dim + 4, end);
    GainSplit(s, query, data, start, dim, dim + 4);
    ghost var between := distances[..];
    ghost var done, here, left := Gain(s, query, data, start, dim), Gain(s, query, data, dim, dim + 4),
      Gain(s, query, data, dim, end);
    NoOverflowSplits(U8, targets, done, left, Gain(s, query, data, start, end), before, between);
    FirstPartFits(U8, targets, here, Gain(s, query, data, dim + 4, end), left, between);
    FullBlockPass(isa, s, query, data, nVectors, dim, distances);
    RaisedTwice(targets, done, here, Gain(s, query, data, start, dim + 4), before, between, distances[..]);
  }

  // ---------------------------------------------------------------- horizontal

  /** The squared norm of a register of differences is the squared distance over those dimensions. */
  lemma {:induction false} SquaresAreSpan(query: seq<int>, x: seq<int>, at: nat, d: seq<nat>)
    requires at + |d| <= |query| == |x|
    requires forall j :: 0 <= j < |d| ==> Sq(d[j]) == Sq(query[at + j] - x[at + j])
    ensures Squares(d) == SqDist(query, x, at, at + |d|)
  {
    if d != [] {
      var n := |d| - 1;
      SquaresAreSpan(query, x, at, d[..n]);
      assert Sq(d[n]) == Sq(query[at + n] - x[at + n]);
    }
  }

  function Zeros(n: nat): (r: seq<nat>)
    ensures |r| == n && Total(r) == 0
  {
    if n == 0 then [] else
      var z := Zeros(n - 1) + [0];
      assert z[..n - 1] == Zeros(n - 1);
      z
  }

  /** One register of the horizontal kernel. */
  method AccumulateRegister(isa: Isa, query: seq<int>, x: seq<int>, at: nat, acc: seq<nat>) returns (r: seq<nat>)
    requires |query| == |x| && Bytes(query) && Bytes(x) && at + RegisterSize(isa) <= |x| && |acc| == Lanes(isa)
    requires Total(acc) + SqDist(query, x, at, at + RegisterSize(isa)) < UINT32_RANGE
    ensures |r| == Lanes(isa) && Total(r) == Total(acc) + SqDist(query, x, at, at + RegisterSize(isa))
  {
    var q, y := Load(query, at, RegisterSize(isa)), Load(x, at, RegisterSize(isa));
    var d := Differences(isa, q, y);
    SquaresAreSpan(query, x, at, d);
    AccumulateAddsSquares(isa, acc, d);
    r := Accumulate(isa, acc, d);
  }

  /** `Horizontal` on U8 with a vector instruction set. */
  method Horizontal(isa: Isa, query: seq<int>, x: seq<int>) returns (distance: nat)
    requires |x| == |query| && Bytes(query) && Bytes(x) && SqDist(query, x, 0, |query|) < UINT32_RANGE
    ensures distance == SqDist(query, x, 0, |query|)
  {
    var acc, d := Zeros(Lanes(isa)), 0;
    while d + RegisterSize(isa) <= |query|
      invariant d <= |query| && |acc| == Lanes(isa) && Total(acc) == SqDist(query, x, 0, d)
      decreases |query| - d
    {
      SqDistSplit(query, x, 0, d, d + RegisterSize(isa));
      SqDistSplit(query, x, 0, d + RegisterSize(isa), |query|);
      acc := AccumulateRegister(isa, query, x, d, acc);
      d := d + RegisterSize(isa);
    }
    SqDistSplit(query, x, 0, d, |query|);
    ReduceIsTotal(isa, acc);
    distance := AddRest(query, x, d, Reduce(isa, acc));
  }

  /** The scalar loop over what is left of the vectors. */
  method AddRest(query: seq<int>, x: seq<int>, first: nat, sum: nat) returns (distance: nat)
    requires first <= |query| == |x| && SqDist(query, x, 0, |query|) < UINT32_RANGE && sum == SqDist(query, x, 0, first)
    ensures distance == SqDist(query, x, 0, |query|)
  {
    distance := sum;
    var d := first;
    while d < |query|
      invariant d <= |query| && distance == SqDist(query, x, 0, d)
    {
      SqDistSplit(query, x, 0, d + 1, |query|);
      distance := Add32(distance, Sq(query[d] - x[d]));
      d := d + 1;
    }
  }
}
