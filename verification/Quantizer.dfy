/** Scalar quantization of embeddings to bytes, in exact arithmetic. */
module Quantizer {
  import opened Common
  import opened Distances
  import opened Reals

  predicate IsFinite(v: real) {
    -FLT_MAX <= v <= FLT_MAX
  }

  function Lesser(a: real, b: real): real {
    if b < a then b else a
  }

  function Greater(a: real, b: real): real {
    if a < b then b else a
  }

  /** `lo` and `hi` are the least and the greatest of the values. */
  predicate AreExtremes(values: seq<real>, lo: real, hi: real) {
    && lo in values && hi in values
    && forall i :: 0 <= i < |values| ==> lo <= values[i] <= hi
  }

  /** Base and scale fit the data range lo .. hi. */
  predicate FitsRange(base: real, hi: real, scale: real, maxValue: nat) {
    base <= hi && scale > 0.0 && (base < hi ==> (hi - base) * scale == maxValue as real)
  }

  /** `ComputeQuantizationParams`: the scale stretches the range of the values to 0 .. maxValue. */
  method ComputeQuantizationParams(embeddings: seq<real>, maxValue: nat) returns (base: real, scale: real)
    requires maxValue > 0 && forall i :: 0 <= i < |embeddings| ==> IsFinite(embeddings[i])
    ensures scale > 0.0
    ensures embeddings == [] ==> base == FLT_MAX && scale == 1.0
    ensures embeddings != [] ==>
              exists hi :: AreExtremes(embeddings, base, hi) && FitsRange(base, hi, scale, maxValue)
                && (base == hi ==> scale == 1.0)
  {
    var globalMin, globalMax := FLT_MAX, -FLT_MAX;
    var i := 0;
    while i < |embeddings|
      invariant i <= |embeddings|
      invariant i == 0 ==> globalMin == FLT_MAX && globalMax == -FLT_MAX
      invariant i > 0 ==> AreExtremes(embeddings[..i], globalMin, globalMax)
    {
      ghost var seen := embeddings[..i];
      assert embeddings[..i + 1] == seen + [embeddings[i]];
      globalMin := Lesser(globalMin, embeddings[i]);
      globalMax := Greater(globalMax, embeddings[i]);
      i := i + 1;
    }
    assert embeddings[..i] == embeddings;
    var range := globalMax - globalMin;
    base := globalMin;
    scale := if range > 0.0 then maxValue as real / range else 1.0;
    if range > 0.0 {
      DivideBack(maxValue as real, range);
    }
  }

  lemma DivideBack(a: real, b: real)
    requires a > 0.0 && b > 0.0
    ensures a / b > 0.0 && b * (a / b) == a
  {
  }

  // ---------------------------------------------------------------- one value

  /** The value before rounding. */
  function ScaledValue(v: real, base: real, scale: real): real {
    (v - base) * scale
  }

  /** The conversion of the rounded value to a 32-bit integer is defined. */
  predicate Convertible(v: real, base: real, scale: real) {
    INT32_MIN <= Round(ScaledValue(v, base, scale)) <= INT32_MAX
  }

  /** It is not for values too far from the data range. */
  lemma ConvertibleExactly(v: real, base: real, scale: real)
    ensures Convertible(v, base, scale)
            <==> -2147483648.5 < ScaledValue(v, base, scale) < 2147483647.5
  {
    RoundBelow(ScaledValue(v, base, scale), INT32_MAX);
    RoundAbove(ScaledValue(v, base, scale), 0x8000_0000);
  }

  function Clamp(i: int, maxValue: nat): (c: nat)
    ensures c <= maxValue
  {
    if i > maxValue then maxValue else if i < 0 then 0 else i
  }

  function Quantized(v: real, base: real, scale: real, maxValue: nat): (c: nat)
    ensures c <= maxValue
  {
    Clamp(Round(ScaledValue(v, base, scale)), maxValue)
  }

  function Gap(c: int, y: real): (g: real) {
    Abs(c as real - y)
  }

  /** No byte is nearer to `y` than `c`. */
  ghost predicate IsNearest(c: nat, y: real, maxValue: nat) {
    c <= maxValue && forall other: nat :: other <= maxValue ==> Gap(c, y) <= Gap(other, y)
  }

  lemma ClampedIsNearest(y: real, maxValue: nat)
    ensures IsNearest(Clamp(Round(y), maxValue), y, maxValue)
  {
    var r := Round(y);
    var c := Clamp(r, maxValue);
    forall other: nat | other <= maxValue ensures Gap(c, y) <= Gap(other, y) {
      if other < r {
        assert other + 1 <= r;
      } else if other > r {
        assert other >= r + 1;
      }
    }
  }

  /** `QuantizeEmbedding`: every coordinate becomes the byte nearest to its scaled value. */
  method QuantizeEmbedding(embedding: seq<real>, base: real, scale: real, maxValue: nat, output: array<nat>)
    requires output.Length == |embedding|
    requires forall i :: 0 <= i < |embedding| ==> Convertible(embedding[i], base, scale)
    modifies output
    ensures forall i :: 0 <= i < |embedding| ==>
              output[i] == Quantized(embedding[i], base, scale, maxValue)
              && IsNearest(output[i], ScaledValue(embedding[i], base, scale), maxValue)
  {
    var i := 0;
    while i < |embedding|
      invariant i <= |embedding|
      invariant forall j :: 0 <= j < i ==>
                  output[j] == Quantized(embedding[j], base, scale, maxValue)
                  && IsNearest(output[j], ScaledValue(embedding[j], base, scale), maxValue)
    {
      var rounded := Round(ScaledValue(embedding[i], base, scale));
      ClampedIsNearest(ScaledValue(embedding[i], base, scale), maxValue);
      if rounded > maxValue {
        output[i] := maxValue;
      } else if rounded < 0 {
        output[i] := 0;
      } else {
        output[i] := rounded;
      }
      i := i + 1;
    }
  }

  // ---------------------------------------------------------------- values within the data range

  lemma TimesZero(a: real, b: real)
    requires a == 0.0
    ensures a * b == 0.0
  {
  }

  lemma WithinRange(v: real, base: real, hi: real, scale: real, maxValue: nat)
    requires FitsRange(base, hi, scale, maxValue) && base <= v <= hi
    ensures 0.0 <= ScaledValue(v, base, scale) <= maxValue as real
  {
    if base < hi {
      ProductIsMonotone(v - base, hi - base, scale);
    } else {
      TimesZero(v - base, scale);
    }
  }

  lemma RoundWithinRange(y: real, maxValue: nat)
    requires 0.0 <= y <= maxValue as real
    ensures 0 <= Round(y) <= maxValue
  {
    RoundBelow(y, maxValue);
  }

  /** Within the data range nothing is clamped, the conversion is defined, and the byte is within a half. */
  lemma NothingIsClamped(v: real, base: real, hi: real, scale: real, maxValue: nat)
    requires FitsRange(base, hi, scale, maxValue) && base <= v <= hi && maxValue <= 255
    ensures Convertible(v, base, scale)
    ensures Quantized(v, base, scale, maxValue) == Round(ScaledValue(v, base, scale))
    ensures Gap(Quantized(v, base, scale, maxValue), ScaledValue(v, base, scale)) <= 0.5
  {
    WithinRange(v, base, hi, scale, maxValue);
    RoundWithinRange(ScaledValue(v, base, scale), maxValue);
  }

  // ---------------------------------------------------------------- distances

  function Product(a: real, b: real): real {
    a * b
  }

  lemma ProductOfPositives(a: real, b: real)
    requires a > 0.0 && b > 0.0
    ensures Product(a, b) > 0.0
  {
  }

  function Square(x: real): real {
    Product(x, x)
  }

  function ScaleSquared(scale: real): (r: real)
    requires scale > 0.0
    ensures r > 0.0
  {
    ProductOfPositives(scale, scale);
    Square(scale)
  }

  function RealSum(terms: seq<real>): real {
    if terms == [] then 0.0 else RealSum(terms[..|terms| - 1]) + terms[|terms| - 1]
  }

  function IntSum(terms: seq<int>): int {
    if terms == [] then 0 else IntSum(terms[..|terms| - 1]) + terms[|terms| - 1]
  }

  /** The squared distance of two embeddings. */
  function TrueDistance(a: seq<real>, b: seq<real>): real
    requires |a| == |b|
  {
    RealSum(SquaredDifferences(a, b))
  }

  function Code(a: seq<real>, base: real, scale: real, maxValue: nat): (q: seq<int>)
    ensures |q| == |a| && forall i :: 0 <= i < |a| ==> q[i] == Quantized(a[i], base, scale, maxValue)
  {
    seq(|a|, i requires 0 <= i < |a| => Quantized(a[i], base, scale, maxValue))
  }

  /** The squared distance of two quantized vectors. */
  function QuantizedDistance(p: seq<int>, q: seq<int>): int
    requires |p| == |q|
  {
    IntSum(SquaredCodeDifferences(p, q))
  }

  function DimensionBound(gap: real, scale: real): real
    requires scale > 0.0
  {
    2.0 * gap / scale + 1.0 / ScaleSquared(scale)
  }

  /** The sum over all dimensions of 2 |a - b| / scale + 1 / scale^2. */
  function ErrorBound(a: seq<real>, b: seq<real>, scale: real): real
    requires |a| == |b| && scale > 0.0
  {
    RealSum(Bounds(a, b, scale))
  }

  lemma SmallFactor(d: real, e: real)
    requires -1.0 <= e <= 1.0
    ensures -Abs(d) <= d * e <= Abs(d)
  {
    ProductIsNonNegative(Abs(d), 1.0 - e);
    ProductIsNonNegative(Abs(d), 1.0 + e);
  }

  lemma SquareOfSum(d: real, e: real)
    ensures (d + e) * (d + e) == d * d + 2.0 * (d * e) + e * e
  {
  }

  /** A change by at most one changes a square by at most 2 |d| + 1. */
  lemma SquareMoves(d: real, e: real)
    requires -1.0 <= e <= 1.0
    ensures Abs(Square(d + e) - Square(d)) <= 2.0 * Abs(d) + 1.0
  {
    SmallFactor(d, e);
    SmallFactor(e, e);
    SquareOfSum(d, e);
    ProductIsNonNegative(Abs(e), Abs(e));
  }

  lemma AbsOfProduct(d: real, scale: real)
    requires scale > 0.0
    ensures Abs(d * scale) == Abs(d) * scale
  {
    if d < 0.0 {
      assert (-d) * scale == -(d * scale);
    }
  }

  lemma SquareOfProduct(d: real, s: real)
    ensures Square(d * s) == Square(d) * Square(s)
  {
    assert (d * s) * (d * s) == d * (s * (d * s)) == d * (d * (s * s));
  }

  lemma MovedSquare(g: real, d: real, scale: real)
    requires scale > 0.0 && Abs(g - d * scale) <= 1.0
    ensures Abs(Square(g) - Square(d) * Square(scale)) <= 2.0 * (Abs(d) * scale) + 1.0
  {
    SquareMoves(d * scale, g - d * scale);
    assert d * scale + (g - d * scale) == g;
    AbsOfProduct(d, scale);
    SquareOfProduct(d, scale);
  }

  lemma SumTimes(x: real, y: real, s: real)
    ensures (x + y) * s == x * s + y * s
  {
  }

  lemma Distribute(a: real, b: real, base: real, scale: real)
    ensures ScaledValue(a, base, scale) - ScaledValue(b, base, scale) == (a - b) * scale
  {
    assert (a - base) * scale == a * scale - base * scale;
    assert (b - base) * scale == b * scale - base * scale;
  }

  lemma WithinHalves(p: int, q: int, y: real, z: real, difference: real)
    requires Gap(p, y) <= 0.5 && Gap(q, z) <= 0.5 && y - z == difference
    ensures Abs((p - q) as real - difference) <= 1.0
  {
  }

  /** The difference of two quantized values is within one of the scaled difference. */
  lemma DifferenceError(a: real, b: real, base: real, hi: real, scale: real, maxValue: nat, g: int, d: real)
    requires FitsRange(base, hi, scale, maxValue) && base <= a <= hi && base <= b <= hi && maxValue <= 255
    requires g == Quantized(a, base, scale, maxValue) - Quantized(b, base, scale, maxValue) && d == a - b
    ensures Abs(g as real - d * scale) <= 1.0
  {
    NothingIsClamped(a, base, hi, scale, maxValue);
    NothingIsClamped(b, base, hi, scale, maxValue);
    Distribute(a, b, base, scale);
    WithinHalves(Quantized(a, base, scale, maxValue), Quantized(b, base, scale, maxValue),
                 ScaledValue(a, base, scale), ScaledValue(b, base, scale), d * scale);
  }

  lemma SquareOfInteger(g: int)
    ensures Sq(g) as real == Square(g as real)
  {
  }

  lemma BoundTimes(gap: real, scale: real)
    requires scale > 0.0
    ensures DimensionBound(gap, scale) * ScaleSquared(scale) == 2.0 * (gap * scale) + 1.0
  {
    var s := ScaleSquared(scale);
    var u, w := 2.0 * gap / scale, 1.0 / s;
    assert u * scale == 2.0 * gap;
    assert u * s == (u * scale) * scale;
    assert w * s == 1.0;
    SumTimes(u, w, s);
  }

  /** In the unit 1/s, the integer `x` is within `e` of the exact value. */
  predicate Close(x: int, exact: real, e: real, s: real) {
    Abs(x as real - exact * s) <= e * s
  }

  lemma SquareIsClose(g: int, d: real, scale: real)
    requires scale > 0.0 && Abs(g as real - d * scale) <= 1.0
    ensures Close(Sq(g), Square(d), DimensionBound(Abs(d), scale), ScaleSquared(scale))
  {
    MovedSquare(g as real, d, scale);
    SquareOfInteger(g);
    BoundTimes(Abs(d), scale);
  }

  lemma CloseSum(x: int, y: int, u: real, w: real, e: real, f: real, s: real)
    requires Close(x, u, e, s) && Close(y, w, f, s)
    ensures Close(x + y, u + w, e + f, s)
  {
    SumTimes(u, w, s);
    SumTimes(e, f, s);
  }

  lemma {:induction false} SumsAreClose(x: seq<int>, exact: seq<real>, e: seq<real>, s: real)
    requires |x| == |exact| == |e|
    requires forall i :: 0 <= i < |x| ==> Close(x[i], exact[i], e[i], s)
    ensures Close(IntSum(x), RealSum(exact), RealSum(e), s)
    decreases |x|
  {
    if x != [] {
      var n := |x| - 1;
      SumsAreClose(x[..n], exact[..n], e[..n], s);
      CloseSum(IntSum(x[..n]), x[n], RealSum(exact[..n]), exact[n], RealSum(e[..n]), e[n], s);
    }
  }

  lemma DivideThrough(x: int, exact: real, e: real, s: real)
    requires s > 0.0 && Close(x, exact, e, s)
    ensures Abs(x as real / s - exact) <= e
  {
    var z := x as real / s;
    assert z * s == x as real;
    if z - exact > e {
      ProductOfPositives(z - exact - e, s);
    } else if exact - z > e {
      ProductOfPositives(exact - z - e, s);
    }
  }

  function SquaredCodeDifferences(p: seq<int>, q: seq<int>): (x: seq<int>)
    requires |p| == |q|
    ensures |x| == |p|
  {
    seq(|p|, i requires 0 <= i < |p| => Sq(p[i] - q[i]))
  }

  function SquaredDifferences(a: seq<real>, b: seq<real>): (x: seq<real>)
    requires |a| == |b|
    ensures |x| == |a|
  {
    seq(|a|, i requires 0 <= i < |a| => Square(a[i] - b[i]))
  }

  function Bounds(a: seq<real>, b: seq<real>, scale: real): (x: seq<real>)
    requires |a| == |b| && scale > 0.0
    ensures |x| == |a|
  {
    seq(|a|, i requires 0 <= i < |a| => DimensionBound(Abs(a[i] - b[i]), scale))
  }

  lemma OneDimension(a: real, b: real, base: real, hi: real, scale: real, maxValue: nat, g: int, d: real)
    requires FitsRange(base, hi, scale, maxValue) && base <= a <= hi && base <= b <= hi && maxValue <= 255
    requires g == Quantized(a, base, scale, maxValue) - Quantized(b, base, scale, maxValue) && d == a - b
    ensures Close(Sq(g), Square(d), DimensionBound(Abs(d), scale), ScaleSquared(scale))
  {
    DifferenceError(a, b, base, hi, scale, maxValue, g, d);
    SquareIsClose(g, d, scale);
  }

  lemma DimensionIsClose(a: seq<real>, b: seq<real>, base: real, hi: real, scale: real, maxValue: nat,
                         p: seq<int>, q: seq<int>, i: nat)
    requires i < |a| == |b| && FitsRange(base, hi, scale, maxValue) && maxValue <= 255
    requires base <= a[i] <= hi && base <= b[i] <= hi
    requires p == Code(a, base, scale, maxValue) && q == Code(b, base, scale, maxValue)
    ensures Close(SquaredCodeDifferences(p, q)[i], SquaredDifferences(a, b)[i], Bounds(a, b, scale)[i],
                  ScaleSquared(scale))
  {
    OneDimension(a[i], b[i], base, hi, scale, maxValue, p[i] - q[i], a[i] - b[i]);
  }

  /** The quantized squared distance, divided by the squared scale, is within the error bound of the
      true one, for all vectors within the data range. */
  lemma DistanceError(a: seq<real>, b: seq<real>, base: real, hi: real, scale: real, maxValue: nat)
    requires |a| == |b| && FitsRange(base, hi, scale, maxValue) && maxValue <= 255
    requires forall i :: 0 <= i < |a| ==> base <= a[i] <= hi && base <= b[i] <= hi
    ensures var quantized := QuantizedDistance(Code(a, base, scale, maxValue), Code(b, base, scale, maxValue));
            Abs(quantized as real / ScaleSquared(scale) - TrueDistance(a, b)) <= ErrorBound(a, b, scale)
  {
    var p, q, s := Code(a, base, scale, maxValue), Code(b, base, scale, maxValue), ScaleSquared(scale);
    var x, exact, e := SquaredCodeDifferences(p, q), SquaredDifferences(a, b), Bounds(a, b, scale);
    forall i | 0 <= i < |x| ensures Close(x[i], exact[i], e[i], s) {
      DimensionIsClose(a, b, base, hi, scale, maxValue, p, q, i);
    }
    SumsAreClose(x, exact, e, s);
    DivideThrough(IntSum(x), RealSum(exact), RealSum(e), s);
  }
}
