/** Register contents of the AVX2 and NEON kernels, lane by lane, and what their instruction
    sequences compute. A register is a sequence of unsigned lane values; additions wrap at the width
    of the lane, products are taken at the width the instruction gives them. */
module SimdLanes {
  import opened Common
  import opened Distances

  datatype Isa = Avx2 | Neon

  /** Bytes in a register. */
  function RegisterSize(isa: Isa): nat {
    if isa.Avx2? then 32 else 16
  }

  /** Vectors whose accumulators one register holds. */
  function Lanes(isa: Isa): nat {
    if isa.Avx2? then 8 else 4
  }

  predicate IsBytes(a: seq<nat>, n: nat) {
    |a| == n && forall i :: 0 <= i < n ==> a[i] <= 255
  }

  /** An addition of lanes. */
  type Adder = (int, int) -> nat

  /** 32-bit addition. */
  function Add32(a: int, b: int): nat {
    (a + b) % UINT32_RANGE
  }

  lemma SumOfFourFits(a: nat, b: nat, c: nat, d: nat)
    requires a + b + c + d < UINT32_RANGE
    ensures Add32(Add32(a, b), Add32(c, d)) == a + b + c + d
  {
  }

  // ---------------------------------------------------------------- absolute difference

  function SubsU8(a: nat, b: nat): nat {
    if a > b then a - b else 0
  }

  /** Bitwise or. */
  function Or(a: nat, b: nat): nat {
    if a == 0 then b
    else if b == 0 then a
    else (if a % 2 == 1 || b % 2 == 1 then 1 else 0) + 2 * Or(a / 2, b / 2)
  }

  /** The absolute difference: of two saturated differences ored together on AVX2, directly on NEON. */
  function AbsDiff(isa: Isa, a: nat, b: nat): (d: nat)
    requires a <= 255 && b <= 255
  {
    if isa.Avx2? then Or(SubsU8(a, b), SubsU8(b, a)) else if a > b then a - b else b - a
  }

  lemma SqOfNegative(z: int)
    ensures Sq(-z) == Sq(z)
  {
    assert (-z) * (-z) == z * z;
  }

  lemma AbsDiffIsDifference(isa: Isa, a: nat, b: nat)
    requires a <= 255 && b <= 255
    ensures AbsDiff(isa, a, b) == if a > b then a - b else b - a
  {
    assert SubsU8(a, b) == 0 || SubsU8(b, a) == 0;
  }

  lemma SquareOfAbsDiff(isa: Isa, a: nat, b: nat)
    requires a <= 255 && b <= 255
    ensures AbsDiff(isa, a, b) <= 255 && Sq(AbsDiff(isa, a, b)) == Sq(a - b)
  {
    AbsDiffIsDifference(isa, a, b);
    SqOfNegative(a - b);
  }

  function AbsDiffs(isa: Isa, a: seq<nat>, b: seq<nat>): (d: seq<nat>)
    requires IsBytes(a, RegisterSize(isa)) && IsBytes(b, RegisterSize(isa))
    ensures |d| == RegisterSize(isa)
  {
    seq(RegisterSize(isa), i requires 0 <= i < RegisterSize(isa) => AbsDiff(isa, a[i], b[i]))
  }

  lemma AbsDiffsAreBytes(isa: Isa, a: seq<nat>, b: seq<nat>)
    requires IsBytes(a, RegisterSize(isa)) && IsBytes(b, RegisterSize(isa))
    ensures IsBytes(AbsDiffs(isa, a, b), RegisterSize(isa))
  {
    forall i | 0 <= i < RegisterSize(isa) ensures AbsDiffs(isa, a, b)[i] <= 255 {
      AbsDiffIsDifference(isa, a[i], b[i]);
    }
  }

  // ---------------------------------------------------------------- AVX2

  /** `_mm256_unpacklo_epi8(d, 0)`: within each 128-bit half, the low eight bytes, zero-extended. */
  function UnpackLo(d: seq<nat>): (w: seq<nat>)
    requires |d| == 32
    ensures |w| == 16 && forall i :: 0 <= i < 16 ==> w[i] == if i < 8 then d[i] else d[i + 8]
  {
    d[0..8] + d[16..24]
  }

  /** `_mm256_unpackhi_epi8(d, 0)`: within each half, the high eight bytes. */
  function UnpackHi(d: seq<nat>): (w: seq<nat>)
    requires |d| == 32
    ensures |w| == 16 && forall i :: 0 <= i < 16 ==> w[i] == if i < 8 then d[i + 8] else d[i + 16]
  {
    d[8..16] + d[24..32]
  }

  /** `_mm256_madd_epi16(w, w)`: 32-bit sums of the squares of adjacent words. */
  function Madd(add: Adder, w: seq<nat>): (m: seq<nat>)
    requires |w| == 16
    ensures |m| == 8 && forall i :: 0 <= i < 8 ==> m[i] == add(Sq(w[2 * i]), Sq(w[2 * i + 1]))
  {
    seq(8, i requires 0 <= i < 8 => add(Sq(w[2 * i]), Sq(w[2 * i + 1])))
  }

  /** `_mm256_hadd_epi32(a, b)`: within each half, sums of adjacent lanes of `a`, then of `b`. */
  function Hadd256(add: Adder, a: seq<nat>, b: seq<nat>): (r: seq<nat>)
    requires |a| == |b| == 8
    ensures |r| == 8 && forall i :: 0 <= i < 8 ==> r[i] == HaddLane(add, a, b, i)
  {
    seq(8, i requires 0 <= i < 8 => HaddLane(add, a, b, i))
  }

  function HaddLane(add: Adder, a: seq<nat>, b: seq<nat>, i: nat): nat
    requires |a| == |b| == 8 && i < 8
  {
    var half := if i < 4 then 0 else 4;
    var x, pair := if i - half < 2 then a else b, if i - half < 2 then i - half else i - half - 2;
    add(x[half + 2 * pair], x[half + 2 * pair + 1])
  }

  // ---------------------------------------------------------------- NEON

  /** `vmull_u8(x, x)` on half a register: 16-bit products. */
  function SquareLong(x: seq<nat>): (r: seq<nat>)
    requires |x| == 8
    ensures |r| == 8
  {
    seq(8, i requires 0 <= i < 8 => Sq(x[i]) % 0x1_0000)
  }

  /** `vpaddlq_u16`: 32-bit sums of adjacent words. */
  function PairwiseAddLong(add: Adder, x: seq<nat>): (r: seq<nat>)
    requires |x| == 8
    ensures |r| == 4
  {
    [add(x[0], x[1]), add(x[2], x[3]), add(x[4], x[5]), add(x[6], x[7])]
  }

  /** `vpaddq_u32(x, y)`. */
  function PairwiseAdd(add: Adder, x: seq<nat>, y: seq<nat>): (r: seq<nat>)
    requires |x| == |y| == 4
    ensures |r| == 4
  {
    [add(x[0], x[1]), add(x[2], x[3]), add(y[0], y[1]), add(y[2], y[3])]
  }

  // ---------------------------------------------------------------- four dimensions per lane

  function AvxLaneSums(add: Adder, d: seq<nat>): (r: seq<nat>)
    requires |d| == 32
    ensures |r| == 8
  {
    Hadd256(add, Madd(add, UnpackLo(d)), Madd(add, UnpackHi(d)))
  }

  function NeonLaneSums(add: Adder, d: seq<nat>): (r: seq<nat>)
    requires |d| == 16
    ensures |r| == 4
  {
    PairwiseAdd(add, PairwiseAddLong(add, SquareLong(d[0..8])), PairwiseAddLong(add, SquareLong(d[8..16])))
  }

  /** What the instruction sequence adds to each 32-bit lane. */
  function LaneSums(isa: Isa, d: seq<nat>): (r: seq<nat>)
    requires |d| == RegisterSize(isa)
    ensures |r| == Lanes(isa)
  {
    if isa.Avx2? then AvxLaneSums(Add32, d) else NeonLaneSums(Add32, d)
  }

  function FourSquares(d: seq<nat>, v: nat): nat
    requires 4 * v + 4 <= |d|
  {
    Sq(d[4 * v]) + Sq(d[4 * v + 1]) + Sq(d[4 * v + 2]) + Sq(d[4 * v + 3])
  }

  lemma SumOfFourBytes(a: nat, b: nat, c: nat, d: nat)
    requires a <= 255 && b <= 255 && c <= 255 && d <= 255
    ensures Add32(Add32(Sq(a), Sq(b)), Add32(Sq(c), Sq(d))) == Sq(a) + Sq(b) + Sq(c) + Sq(d)
    ensures Sq(a) % 0x1_0000 == Sq(a) && Sq(b) % 0x1_0000 == Sq(b)
    ensures Sq(c) % 0x1_0000 == Sq(c) && Sq(d) % 0x1_0000 == Sq(d)
  {
    SqIsMonotone(a, 255);
    SqIsMonotone(b, 255);
    SqIsMonotone(c, 255);
    SqIsMonotone(d, 255);
    SumOfFourFits(Sq(a), Sq(b), Sq(c), Sq(d));
  }

  /** Half, source and pair of the horizontal sum that lane `v` holds. */
  lemma UnpackedWords(d: seq<nat>, v: nat, half: nat, pair: nat, high: bool)
    requires |d| == 32 && (half == 0 || half == 4) && pair < 2 && v == half + pair + if high then 2 else 0
    ensures var w, k := if high then UnpackHi(d) else UnpackLo(d), 2 * half + 4 * pair;
            w[k] == d[4 * v] && w[k + 1] == d[4 * v + 1] && w[k + 2] == d[4 * v + 2] && w[k + 3] == d[4 * v + 3]
  {
  }

  lemma MaddPair(add: Adder, w: seq<nat>, k: nat)
    requires |w| == 16 && k < 7
    ensures Madd(add, w)[k] == add(Sq(w[2 * k]), Sq(w[2 * k + 1]))
    ensures Madd(add, w)[k + 1] == add(Sq(w[2 * k + 2]), Sq(w[2 * k + 3]))
  {
  }

  /** The bytes that AVX2's unpacking and adding brings together in lane v are 4v, ..., 4v + 3. */
  lemma AvxLane(add: Adder, d: seq<nat>, v: nat)
    requires |d| == 32 && v < 8
    ensures AvxLaneSums(add, d)[v]
            == add(add(Sq(d[4 * v]), Sq(d[4 * v + 1])), add(Sq(d[4 * v + 2]), Sq(d[4 * v + 3])))
  {
    var half := if v < 4 then 0 else 4;
    var high := v - half >= 2;
    var pair := if high then v - half - 2 else v - half;
    var w := if high then UnpackHi(d) else UnpackLo(d);
    UnpackedWords(d, v, half, pair, high);
    MaddPair(add, w, half + 2 * pair);
    assert AvxLaneSums(add, d)[v] == HaddLane(add, Madd(add, UnpackLo(d)), Madd(add, UnpackHi(d)), v);
  }

  lemma NeonLane(add: Adder, d: seq<nat>, v: nat)
    requires |d| == 16 && v < 4
    ensures NeonLaneSums(add, d)[v]
            == add(add(Sq(d[4 * v]) % 0x1_0000, Sq(d[4 * v + 1]) % 0x1_0000),
                   add(Sq(d[4 * v + 2]) % 0x1_0000, Sq(d[4 * v + 3]) % 0x1_0000))
  {
    var x := if v < 2 then d[0..8] else d[8..16];
    var at := 4 * (v % 2);
    assert x[at] == d[4 * v] && x[at + 1] == d[4 * v + 1];
    assert x[at + 2] == d[4 * v + 2] && x[at + 3] == d[4 * v + 3];
    var p := PairwiseAddLong(add, SquareLong(x));
    assert NeonLaneSums(add, d)[v] == add(p[at / 2], p[at / 2 + 1]);
  }

  /** Both instruction sequences put the squared norm of the bytes 4v, ..., 4v + 3 into lane v, and
      nothing overflows on the way. */
  lemma LaneSumsAreFourSquares(isa: Isa, d: seq<nat>, v: nat)
    requires IsBytes(d, RegisterSize(isa)) && v < Lanes(isa)
    ensures LaneSums(isa, d)[v] == FourSquares(d, v)
  {
    SumOfFourBytes(d[4 * v], d[4 * v + 1], d[4 * v + 2], d[4 * v + 3]);
    if isa.Avx2? {
      AvxLane(Add32, d, v);
    } else {
      NeonLane(Add32, d, v);
    }
  }

  // ---------------------------------------------------------------- accumulating a whole vector

  function Total(lanes: seq<nat>): nat {
    if lanes == [] then 0 else Total(lanes[..|lanes| - 1]) + lanes[|lanes| - 1]
  }

  lemma {:induction false} LaneAtMostTotal(lanes: seq<nat>, i: nat)
    requires i < |lanes|
    ensures lanes[i] <= Total(lanes)
  {
    if i < |lanes| - 1 {
      LaneAtMostTotal(lanes[..|lanes| - 1], i);
    }
  }

  function LanewiseAdd(a: seq<nat>, b: seq<nat>): (r: seq<nat>)
    requires |a| == |b|
    ensures |r| == |a| && forall i :: 0 <= i < |a| ==> r[i] == Add32(a[i], b[i])
  {
    seq(|a|, i requires 0 <= i < |a| => Add32(a[i], b[i]))
  }

  /** Lanewise addition adds the totals, as long as the sum fits. */
  lemma {:induction false} TotalOfAdd(a: seq<nat>, b: seq<nat>)
    requires |a| == |b| && Total(a) + Total(b) < UINT32_RANGE
    ensures Total(LanewiseAdd(a, b)) == Total(a) + Total(b)
  {
    if a != [] {
      var n := |a| - 1;
      TotalOfAdd(a[..n], b[..n]);
      assert LanewiseAdd(a, b)[..n] == LanewiseAdd(a[..n], b[..n]);
      assert a[n] + b[n] < UINT32_RANGE;
    }
  }

  /** AVX2: add the two halves, then two horizontal adds; lane 0 of the result. NEON: `vaddvq_u32`. */
  function Reduce(isa: Isa, lanes: seq<nat>): nat
    requires |lanes| == Lanes(isa)
  {
    if isa.Avx2? then
      var s := LanewiseAdd(lanes[0..4], lanes[4..8]);
      Add32(Add32(s[0], s[1]), Add32(s[2], s[3]))
    else
      Add32(Add32(lanes[0], lanes[1]), Add32(lanes[2], lanes[3]))
  }

  lemma TotalOfFour(a: seq<nat>)
    requires |a| == 4
    ensures Total(a) == a[0] + a[1] + a[2] + a[3]
  {
    assert a[..3][..2] == a[..2] && a[..2][..1] == a[..1] && a[..1][..0] == [];
    assert Total(a[..1]) == a[0];
    assert Total(a[..2]) == Total(a[..1]) + a[1];
    assert Total(a[..3]) == Total(a[..2]) + a[2];
  }

  lemma {:induction false} TotalOfConcat(a: seq<nat>, b: seq<nat>)
    ensures Total(a + b) == Total(a) + Total(b)
  {
    if b == [] {
      assert a + b == a;
    } else {
      var n := |b| - 1;
      TotalOfConcat(a, b[..n]);
      assert (a + b)[..|a + b| - 1] == a + b[..n];
    }
  }

  lemma ReduceIsTotal(isa: Isa, lanes: seq<nat>)
    requires |lanes| == Lanes(isa) && Total(lanes) < UINT32_RANGE
    ensures Reduce(isa, lanes) == Total(lanes)
  {
    if isa.Avx2? {
      var lo, hi := lanes[0..4], lanes[4..8];
      assert lanes == lo + hi;
      TotalOfConcat(lo, hi);
      TotalOfAdd(lo, hi);
      var s := LanewiseAdd(lo, hi);
      TotalOfFour(s);
      SumOfFourFits(s[0], s[1], s[2], s[3]);
    } else {
      TotalOfFour(lanes);
      SumOfFourFits(lanes[0], lanes[1], lanes[2], lanes[3]);
    }
  }

  /** What the horizontal kernels do to the accumulator register with the differences `d`. */
  function Accumulate(isa: Isa, acc: seq<nat>, d: seq<nat>): (r: seq<nat>)
    requires |d| == RegisterSize(isa) && |acc| == Lanes(isa)
    ensures |r| == Lanes(isa)
  {
    if isa.Avx2? then LanewiseAdd(LanewiseAdd(acc, Madd(Add32, UnpackLo(d))), Madd(Add32, UnpackHi(d)))
    else LanewiseAdd(acc, LaneSums(isa, d))
  }

  function Squares(d: seq<nat>): nat {
    if d == [] then 0 else Squares(d[..|d| - 1]) + Sq(d[|d| - 1])
  }

  lemma {:induction false} SquaresOfConcat(a: seq<nat>, b: seq<nat>)
    ensures Squares(a + b) == Squares(a) + Squares(b)
  {
    if b == [] {
      assert a + b == a;
    } else {
      var n := |b| - 1;
      SquaresOfConcat(a, b[..n]);
      assert (a + b)[..|a + b| - 1] == a + b[..n];
    }
  }

  lemma TwoMoreSquares(d: seq<nat>, n: nat)
    requires 2 * n + 2 <= |d| && (forall i :: 0 <= i < |d| ==> d[i] <= 255)
    ensures Squares(d[..2 * n + 2]) == Squares(d[..2 * n]) + Add32(Sq(d[2 * n]), Sq(d[2 * n + 1]))
  {
    var a, b := d[2 * n], d[2 * n + 1];
    assert d[..2 * n + 2][..2 * n + 1] == d[..2 * n + 1] && d[..2 * n + 1][..2 * n] == d[..2 * n];
    assert Squares(d[..2 * n + 1]) == Squares(d[..2 * n]) + Sq(a);
    SqIsMonotone(a, 255);
    SqIsMonotone(b, 255);
  }

  lemma {:induction false} TotalOfMadd(w: seq<nat>, n: nat)
    requires IsBytes(w, 16) && n <= 8
    ensures Total(Madd(Add32, w)[..n]) == Squares(w[..2 * n])
  {
    if n > 0 {
      TotalOfMadd(w, n - 1);
      assert Madd(Add32, w)[..n][..n - 1] == Madd(Add32, w)[..n - 1];
      TwoMoreSquares(w, n - 1);
    }
  }

  lemma FourMoreSquares(d: seq<nat>, v: nat)
    requires 4 * v + 4 <= |d|
    ensures Squares(d[..4 * v + 4]) == Squares(d[..4 * v]) + FourSquares(d, v)
  {
    var four := d[4 * v..4 * v + 4];
    assert d[..4 * v + 4] == d[..4 * v] + four;
    SquaresOfConcat(d[..4 * v], four);
    assert four[..3][..2] == four[..2] && four[..2][..1] == four[..1] && four[..1][..0] == [];
    assert Squares(four[..1]) == Sq(four[0]);
    assert Squares(four[..2]) == Squares(four[..1]) + Sq(four[1]);
    assert Squares(four[..3]) == Squares(four[..2]) + Sq(four[2]);
  }

  lemma {:induction false} TotalOfFours(lanes: seq<nat>, d: seq<nat>, n: nat)
    requires n <= |lanes| && 4 * |lanes| <= |d| && forall v :: 0 <= v < |lanes| ==> lanes[v] == FourSquares(d, v)
    ensures Total(lanes[..n]) == Squares(d[..4 * n])
    decreases n
  {
    if n > 0 {
      TotalOfFours(lanes, d, n - 1);
      assert lanes[..n][..n - 1] == lanes[..n - 1];
      FourMoreSquares(d, n - 1);
    }
  }

  lemma TotalOfLaneSums(isa: Isa, d: seq<nat>)
    requires IsBytes(d, RegisterSize(isa))
    ensures Total(LaneSums(isa, d)) == Squares(d)
  {
    var lanes := LaneSums(isa, d);
    forall v | 0 <= v < |lanes| ensures lanes[v] == FourSquares(d, v) {
      LaneSumsAreFourSquares(isa, d, v);
    }
    TotalOfFours(lanes, d, |lanes|);
    assert lanes[..|lanes|] == lanes && d[..4 * |lanes|] == d;
  }

  /** Unpacking rearranges the bytes but loses none. */
  lemma UnpackedSquares(d: seq<nat>)
    requires |d| == 32
    ensures Squares(UnpackLo(d)) + Squares(UnpackHi(d)) == Squares(d)
  {
    var a, b, c, e := d[0..8], d[8..16], d[16..24], d[24..32];
    assert d == ((a + b) + c) + e;
    SquaresOfConcat((a + b) + c, e);
    SquaresOfConcat(a + b, c);
    SquaresOfConcat(a, b);
    SquaresOfConcat(a, c);
    SquaresOfConcat(b, e);
  }

  lemma TotalOfMadds(d: seq<nat>)
    requires IsBytes(d, 32)
    ensures Total(Madd(Add32, UnpackLo(d))) + Total(Madd(Add32, UnpackHi(d))) == Squares(d)
  {
    var lo, hi := UnpackLo(d), UnpackHi(d);
    TotalOfMadd(lo, 8);
    TotalOfMadd(hi, 8);
    assert lo[..16] == lo && hi[..16] == hi;
    assert Madd(Add32, lo)[..8] == Madd(Add32, lo) && Madd(Add32, hi)[..8] == Madd(Add32, hi);
    UnpackedSquares(d);
  }

  /** One step of a horizontal kernel adds the squared norm of the register to the total over all
      lanes, as long as the sum fits 32 bits. */
  lemma AccumulateAddsSquares(isa: Isa, acc: seq<nat>, d: seq<nat>)
    requires IsBytes(d, RegisterSize(isa)) && |acc| == Lanes(isa)
    requires Total(acc) + Squares(d) < UINT32_RANGE
    ensures Total(Accumulate(isa, acc, d)) == Total(acc) + Squares(d)
  {
    if isa.Avx2? {
      TotalOfMadds(d);
      TotalOfAdd(acc, Madd(Add32, UnpackLo(d)));
      TotalOfAdd(LanewiseAdd(acc, Madd(Add32, UnpackLo(d))), Madd(Add32, UnpackHi(d)));
    } else {
      TotalOfLaneSums(isa, d);
      TotalOfAdd(acc, LaneSums(isa, d));
    }
  }
}
