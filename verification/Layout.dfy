/** The transposed storage of a cluster. Both layouts are a succession of blocks of consecutive
    dimensions; a block of width w that starts at dimension b occupies the n * w elements from
    b * n on, each vector's w values next to each other. F32 has vertical blocks of width 1, U8 of
    width 4 with a compact tail, and both have horizontal blocks of width 64. */
module Layout {
  import opened Common

  /** Element type, dimension split and number of vectors of a stored cluster. */
  datatype RawShape = Shape(quant: Quantization, V: nat, H: nat, n: nat) {
    function D(): nat {
      V + H
    }
  }

  type Shape = s: RawShape | s.H % H_DIM_SIZE == 0 witness Shape(U8, 1, 0, 0)

  function BlockStart(s: Shape, d: nat): (b: nat)
    ensures b <= d && (d < s.V ==> b < s.V) && (d >= s.V ==> b >= s.V)
  {
    if d >= s.V then s.V + (d - s.V) / H_DIM_SIZE * H_DIM_SIZE
    else if s.quant.F32? then d
    else d / U8_INTERLEAVE_SIZE * U8_INTERLEAVE_SIZE
  }

  function BlockWidth(s: Shape, d: nat): (w: nat)
    ensures w >= 1 && d < BlockStart(s, d) + w
  {
    if d >= s.V then H_DIM_SIZE
    else if s.quant.F32? then 1
    else Min(U8_INTERLEAVE_SIZE, s.V - BlockStart(s, d))
  }

  /** A dimension of the block of `d` has the same block; blocks do not overlap, and none crosses
      the end of the vertical part or of the vector. */
  lemma BlocksPartition(s: Shape, d: nat, e: nat)
    requires d < s.D()
    ensures BlockStart(s, d) + BlockWidth(s, d) <= s.D()
    ensures d < s.V ==> BlockStart(s, d) + BlockWidth(s, d) <= s.V
    ensures BlockStart(s, d) <= e < BlockStart(s, d) + BlockWidth(s, d)
            ==> BlockStart(s, e) == BlockStart(s, d) && BlockWidth(s, e) == BlockWidth(s, d)
    ensures e >= BlockStart(s, d) + BlockWidth(s, d) ==> BlockStart(s, e) >= BlockStart(s, d) + BlockWidth(s, d)
  {
    if d >= s.V {
      var j := (d - s.V) / 64;
      assert s.H == s.H / 64 * 64;
      assert j < s.H / 64;
      if e >= s.V {
        var j' := (e - s.V) / 64;
        assert s.V + j * 64 <= e < s.V + j * 64 + 64 ==> j' == j;
        assert e >= s.V + j * 64 + 64 ==> j' >= j + 1;
      }
    } else if s.quant.U8? {
      var j, j' := d / 4, e / 4;
      assert j * 4 <= e < j * 4 + 4 ==> j' == j;
      assert e >= j * 4 + 4 ==> j' >= j + 1;
    }
  }

  // ---------------------------------------------------------------- positions

  /** Where the value of vector `i` in dimension `d` is stored. */
  function Position(s: Shape, i: nat, d: nat): nat {
    BlockStart(s, d) * s.n + i * BlockWidth(s, d) + (d - BlockStart(s, d))
  }

  /** The two layouts, dimension by dimension: vertical dimensions column by column or four at a time, with
      the last, up to three, of U8 packed together; and horizontal dimensions 64 at a time. */
  lemma PositionIs(s: Shape, i: nat, d: nat)
    requires i < s.n && d < s.D()
    ensures d < s.V && s.quant.F32? ==> Position(s, i, d) == d * s.n + i
    ensures d < s.V && s.quant.U8? && d < s.V - s.V % 4 ==> Position(s, i, d) == (d - d % 4) * s.n + i * 4 + d % 4
    ensures d < s.V && s.quant.U8? && d >= s.V - s.V % 4 ==>
              Position(s, i, d) == (s.V - s.V % 4) * s.n + i * (s.V % 4) + d % 4
    ensures d >= s.V ==> var r := (d - s.V) % 64; Position(s, i, d) == (d - r) * s.n + i * 64 + r
  {
    if d >= s.V {
      assert (d - s.V) / 64 * 64 == d - s.V - (d - s.V) % 64;
    } else if s.quant.U8? {
      assert d / 4 * 4 == d - d % 4;
    }
  }

  lemma RowInBlock(i: nat, n: nat, w: nat, r: nat)
    requires i < n && r < w
    ensures i * w + r < n * w
  {
    assert (i + 1) * w <= n * w;
  }

  lemma PositionInBlock(s: Shape, i: nat, d: nat)
    requires i < s.n && d < s.D()
    ensures var b, w := BlockStart(s, d), BlockWidth(s, d);
            b * s.n <= Position(s, i, d) < (b + w) * s.n <= s.D() * s.n
  {
    var b, w := BlockStart(s, d), BlockWidth(s, d);
    BlocksPartition(s, d, d);
    RowInBlock(i, s.n, w, d - b);
    assert (b + w) * s.n == b * s.n + s.n * w;
    MulMonotone(b + w, s.D(), s.n);
  }

  lemma MulMonotone(a: nat, b: nat, c: nat)
    requires a <= b
    ensures a * c <= b * c
  {
  }

  lemma QuotientTimes(b: nat, p: nat, n: nat)
    requires n > 0 && b <= p / n
    ensures b * n <= p
  {
    var q := p / n;
    assert q * n <= p;
    MulMonotone(b, q, n);
  }

  /** How far into its block a stored element lies. */
  function OffsetInBlock(s: Shape, p: nat): nat
    requires s.n > 0
  {
    QuotientTimes(BlockStart(s, p / s.n), p, s.n);
    p - BlockStart(s, p / s.n) * s.n
  }

  /** Which vector and dimension a stored element belongs to. */
  function VectorAt(s: Shape, p: nat): nat
    requires s.n > 0
  {
    OffsetInBlock(s, p) / BlockWidth(s, p / s.n)
  }

  function DimensionAt(s: Shape, p: nat): nat
    requires s.n > 0
  {
    BlockStart(s, p / s.n) + OffsetInBlock(s, p) % BlockWidth(s, p / s.n)
  }

  lemma QuotientBetween(lo: nat, p: nat, hi: nat, n: nat)
    requires n > 0 && lo * n <= p < hi * n
    ensures lo <= p / n < hi
  {
    var q := p / n;
    assert q * n <= p < (q + 1) * n;
    if q < lo {
      MulMonotone(q + 1, lo, n);
    }
    if q >= hi {
      MulMonotone(hi, q, n);
    }
  }

  lemma DivModUnique(q: nat, w: nat, r: nat)
    requires r < w
    ensures (q * w + r) / w == q && (q * w + r) % w == r
  {
    var x := q * w + r;
    assert x / w * w + x % w == x;
    if x / w < q {
      MulMonotone(x / w + 1, q, w);
    }
    if x / w > q {
      MulMonotone(q + 1, x / w, w);
    }
  }

  /** Every (vector, dimension) has its own position in the buffer ... */
  lemma PositionIsInjective(s: Shape, i: nat, d: nat)
    requires i < s.n && d < s.D()
    ensures Position(s, i, d) < s.D() * s.n
    ensures VectorAt(s, Position(s, i, d)) == i && DimensionAt(s, Position(s, i, d)) == d
  {
    var p, b, w := Position(s, i, d), BlockStart(s, d), BlockWidth(s, d);
    PositionInBlock(s, i, d);
    QuotientBetween(b, p, b + w, s.n);
    BlocksPartition(s, d, p / s.n);
    DivModUnique(i, w, d - b);
    assert p - b * s.n == i * w + (d - b);
  }

  lemma DivModBelow(x: nat, w: nat, n: nat)
    requires w > 0 && x < w * n
    ensures x / w < n && x % w < w && x / w * w + x % w == x
  {
    QuotientBetween(0, x, n, w);
  }

  lemma OffsetBelow(b: nat, w: nat, p: nat, n: nat)
    requires n > 0 && b <= p / n < b + w
    ensures b * n <= p < b * n + w * n
  {
    QuotientTimes(b, p, n);
    var q := p / n;
    assert p < (q + 1) * n;
    MulMonotone(q + 1, b + w, n);
    assert (b + w) * n == b * n + w * n;
  }

  /** ... and every position of the buffer is used. */
  lemma PositionIsSurjective(s: Shape, p: nat)
    requires s.n > 0 && p < s.D() * s.n
    ensures VectorAt(s, p) < s.n && DimensionAt(s, p) < s.D()
    ensures Position(s, VectorAt(s, p), DimensionAt(s, p)) == p
  {
    var e := p / s.n;
    QuotientBetween(0, p, s.D(), s.n);
    var b, w := BlockStart(s, e), BlockWidth(s, e);
    OffsetBelow(b, w, p, s.n);
    DivModBelow(OffsetInBlock(s, p), w, s.n);
    BlocksPartition(s, e, DimensionAt(s, p));
  }

  // ---------------------------------------------------------------- reading back

  /** The coordinates of vector `i` of a stored cluster. */
  function Row(s: Shape, data: seq<int>, i: nat): (x: seq<int>)
    requires |data| == s.D() * s.n && i < s.n
    ensures |x| == s.D()
  {
    seq(s.D(), d requires 0 <= d < s.D() => (PositionIsInjective(s, i, d); data[Position(s, i, d)]))
  }

  function Rows(s: Shape, data: seq<int>): (xs: seq<seq<int>>)
    requires |data| == s.D() * s.n
    ensures |xs| == s.n && forall i :: 0 <= i < s.n ==> |xs[i]| == s.D()
  {
    seq(s.n, i requires 0 <= i < s.n => Row(s, data, i))
  }

  predicate IsMatrix(xs: seq<seq<int>>, rows: nat, columns: nat) {
    |xs| == rows && forall i :: 0 <= i < rows ==> |xs[i]| == columns
  }

  // ---------------------------------------------------------------- storing

  /** The buffer that holds a row-major matrix in this layout. */
  function Image(s: Shape, xs: seq<seq<int>>): (data: seq<int>)
    requires IsMatrix(xs, s.n, s.D())
    ensures |data| == s.D() * s.n
  {
    seq(s.D() * s.n, p requires 0 <= p < s.D() * s.n =>
      (SizePositive(s, p); PositionIsSurjective(s, p); xs[VectorAt(s, p)][DimensionAt(s, p)]))
  }

  lemma SizePositive(s: Shape, p: nat)
    requires p < s.D() * s.n
    ensures s.n > 0
  {
  }

  /** Storing is a bijection on the coordinates: reading back gives the matrix. */
  lemma ReadBackOfImage(s: Shape, xs: seq<seq<int>>)
    requires IsMatrix(xs, s.n, s.D())
    ensures Rows(s, Image(s, xs)) == xs
  {
    forall i | 0 <= i < s.n ensures Row(s, Image(s, xs), i) == xs[i] {
      forall d | 0 <= d < s.D() ensures Row(s, Image(s, xs), i)[d] == xs[i][d] {
        PositionIsInjective(s, i, d);
      }
    }
  }

  /** ... and a buffer is determined by what is read back. */
  lemma ImageOfReadBack(s: Shape, data: seq<int>)
    requires |data| == s.D() * s.n
    ensures Image(s, Rows(s, data)) == data
  {
    forall p | 0 <= p < |data| ensures Image(s, Rows(s, data))[p] == data[p] {
      SizePositive(s, p);
      PositionIsSurjective(s, p);
    }
  }

  lemma ImageAt(s: Shape, xs: seq<seq<int>>, i: nat, d: nat)
    requires IsMatrix(xs, s.n, s.D()) && i < s.n && d < s.D()
    ensures Position(s, i, d) < s.D() * s.n && Image(s, xs)[Position(s, i, d)] == xs[i][d]
  {
    PositionIsInjective(s, i, d);
  }

  /** The first `upto` elements of the buffer already hold what they should. */
  ghost predicate StoredBelow(image: seq<int>, data: array<int>, upto: nat)
    reads data
  {
    upto <= data.Length == |image| && forall p :: 0 <= p < upto ==> data[p] == image[p]
  }

  lemma ImageInRow(s: Shape, xs: seq<seq<int>>, b: nat, i: nat, r: nat)
    requires IsMatrix(xs, s.n, s.D()) && b < s.D() && BlockStart(s, b) == b && i < s.n && r < BlockWidth(s, b)
    ensures var p := b * s.n + i * BlockWidth(s, b) + r;
            b + r < s.D() && p < s.D() * s.n && Image(s, xs)[p] == xs[i][b + r]
  {
    BlocksPartition(s, b, b + r);
    ImageAt(s, xs, i, b + r);
  }

  /** Copies `w` values to the elements from `start` on. */
  method CopyValues(row: seq<int>, b: nat, w: nat, start: nat, data: array<int>, ghost image: seq<int>)
    requires b + w <= |row| && start + w <= |image| && image[start..start + w] == row[b..b + w]
    requires StoredBelow(image, data, start)
    modifies data
    ensures StoredBelow(image, data, start + w)
  {
    var r := 0;
    while r < w
      invariant r <= w && StoredBelow(image, data, start + r)
    {
      assert image[start + r] == image[start..start + w][r] == row[b..b + w][r] == row[b + r];
      data[start + r] := row[b + r];
      r := r + 1;
    }
  }

  /** Copies the values of vector `i` in the dimensions of the block at `b`, of width `w`. */
  method StoreRow(s: Shape, xs: seq<seq<int>>, b: nat, w: nat, i: nat, start: nat, data: array<int>)
    requires IsMatrix(xs, s.n, s.D()) && b < s.D() && BlockStart(s, b) == b && i < s.n
    requires w == BlockWidth(s, b) && start == b * s.n + i * w && StoredBelow(Image(s, xs), data, start)
    modifies data
    ensures StoredBelow(Image(s, xs), data, start + w)
  {
    RowWithin(s, b, i, w, start);
    ImageRow(s, xs, b, i, w, start);
    CopyValues(xs[i], b, w, start, data, Image(s, xs));
  }

  /** The values of vector `i` in the block at `b`, of width `w`, lie within the buffer. */
  lemma RowWithin(s: Shape, b: nat, i: nat, w: nat, start: nat)
    requires b < s.D() && BlockStart(s, b) == b && i < s.n
    requires w == BlockWidth(s, b) && start == b * s.n + i * w
    ensures b + w <= s.D() && start + w <= s.D() * s.n
  {
    BlocksPartition(s, b, b);
    MulMonotone(b + w, s.D(), s.n);
    MulMonotone(i + 1, s.n, w);
    NextRow(b, s.n, i, w, start);
    assert (b + w) * s.n == b * s.n + s.n * w;
  }

  lemma NextRow(b: nat, n: nat, i: nat, w: nat, start: nat)
    requires start == b * n + i * w
    ensures start + w == b * n + (i + 1) * w
  {
  }

  lemma BlockEnd(b: nat, n: nat, w: nat)
    ensures b * n + n * w == (b + w) * n
  {
  }

  lemma ImageRow(s: Shape, xs: seq<seq<int>>, b: nat, i: nat, w: nat, start: nat)
    requires IsMatrix(xs, s.n, s.D()) && b < s.D() && BlockStart(s, b) == b && i < s.n
    requires w == BlockWidth(s, b) && start == b * s.n + i * w && b + w <= s.D() && start + w <= s.D() * s.n
    ensures Image(s, xs)[start..start + w] == xs[i][b..b + w]
  {
    var got, row := Image(s, xs)[start..start + w], xs[i][b..b + w];
    forall r | 0 <= r < |got| ensures got[r] == row[r] {
      ImageInRow(s, xs, b, i, r);
    }
  }

  /** Copies the columns of one block, vector by vector. */
  method StoreBlock(s: Shape, xs: seq<seq<int>>, b: nat, data: array<int>)
    requires IsMatrix(xs, s.n, s.D()) && b < s.D() && BlockStart(s, b) == b
    requires StoredBelow(Image(s, xs), data, b * s.n)
    modifies data
    ensures StoredBelow(Image(s, xs), data, (b + BlockWidth(s, b)) * s.n)
  {
    var w, start := BlockWidth(s, b), b * s.n;
    var i := 0;
    while i < s.n
      invariant i <= s.n && start == b * s.n + i * w && StoredBelow(Image(s, xs), data, start)
    {
      StoreRow(s, xs, b, w, i, start, data);
      NextRow(b, s.n, i, w, start);
      start := start + w;
      i := i + 1;
    }
    BlockEnd(b, s.n, w);
  }

  predicate Aligned(s: Shape, dim: nat) {
    s.quant.F32? || dim % U8_INTERLEAVE_SIZE == 0
  }

  /** Where the vertical loop stands: on a block boundary, with room for a whole block or not. */
  lemma VerticalBlock(s: Shape, dim: nat)
    requires dim < s.V && Aligned(s, dim)
    ensures BlockStart(s, dim) == dim
    ensures BlockWidth(s, dim) == if s.quant.F32? then 1 else Min(U8_INTERLEAVE_SIZE, s.V - dim)
  {
  }

  lemma HorizontalBlock(s: Shape, j: nat)
    requires j < s.H && j % H_DIM_SIZE == 0
    ensures BlockStart(s, s.V + j) == s.V + j && BlockWidth(s, s.V + j) == H_DIM_SIZE && j + H_DIM_SIZE <= s.H
  {
    BlocksPartition(s, s.V + j, s.V + j);
  }

  /** Stores the vertical blocks, the compact tail and the horizontal blocks of a cluster. */
  method StoreClusterEmbeddings(s: Shape, xs: seq<seq<int>>, data: array<int>)
    requires IsMatrix(xs, s.n, s.D()) && data.Length == s.D() * s.n
    modifies data
    ensures data[..] == Image(s, xs)
    ensures Rows(s, data[..]) == xs
  {
    StoreVerticalBlocks(s, xs, data);
    StoreHorizontalBlocks(s, xs, data);
    assert data[..] == Image(s, xs);
    ReadBackOfImage(s, xs);
  }

  method StoreVerticalBlocks(s: Shape, xs: seq<seq<int>>, data: array<int>)
    requires IsMatrix(xs, s.n, s.D()) && data.Length == s.D() * s.n
    modifies data
    ensures StoredBelow(Image(s, xs), data, s.V * s.n)
  {
    var width := if s.quant.F32? then 1 else U8_INTERLEAVE_SIZE;
    var dim := 0;
    while dim + width <= s.V
      invariant dim <= s.V && Aligned(s, dim) && StoredBelow(Image(s, xs), data, dim * s.n)
    {
      VerticalBlock(s, dim);
      StoreBlock(s, xs, dim, data);
      dim := dim + width;
    }
    if dim < s.V {
      VerticalBlock(s, dim);
      StoreBlock(s, xs, dim, data);
    }
  }

  method StoreHorizontalBlocks(s: Shape, xs: seq<seq<int>>, data: array<int>)
    requires IsMatrix(xs, s.n, s.D()) && StoredBelow(Image(s, xs), data, s.V * s.n)
    modifies data
    ensures StoredBelow(Image(s, xs), data, s.D() * s.n)
  {
    var j := 0;
    while j < s.H
      invariant j <= s.H && j % H_DIM_SIZE == 0 && StoredBelow(Image(s, xs), data, (s.V + j) * s.n)
    {
      HorizontalBlock(s, j);
      StoreBlock(s, xs, s.V + j, data);
      j := j + H_DIM_SIZE;
    }
  }
}
