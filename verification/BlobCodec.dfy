/** The lossy 16-bit encoding of float vectors, in exact arithmetic: a 14-bit quantity and a two-bit
    selector of its scale. */
module BlobCodec {
  import opened Reals

  /** The values of the scales and their inverses. */
  function BlobScale(x: nat): real
    requires x < 4
  {
    if x == 0 then 0.00001 else if x == 1 then 0.0001 else if x == 2 then 0.001 else 0.01
  }

  function BlobInvScale(x: nat): real
    requires x < 4
  {
    if x == 0 then 100000.0 else if x == 1 then 10000.0 else if x == 2 then 1000.0 else 100.0
  }

  predicate FitsInBits(q: int) {
    -8192 <= q <= 8191
  }

  predicate IsInt16(e: int) {
    -0x8000 <= e <= 0x7FFF
  }

  /** What the processor makes of a rounded float that no 32-bit integer represents: the language
      leaves it undefined, x86 yields the least integer, Arm the nearest one. */
  datatype Processor = X86 | Arm

  function ToInt32(cpu: Processor, i: int): (r: int)
    ensures INT32_MIN <= r <= INT32_MAX
    ensures INT32_MIN <= i <= INT32_MAX ==> r == i
    ensures FitsInBits(r) <==> FitsInBits(i)
  {
    if INT32_MIN <= i <= INT32_MAX then i
    else if cpu.Arm? && i > 0 then INT32_MAX
    else INT32_MIN
  }

  /** `(q << 2) | x` */
  function Pack(q: int, x: nat): (e: int)
    requires FitsInBits(q) && x < 4
    ensures IsInt16(e)
  {
    4 * q + x
  }

  /** The value at scale `x`, rounded. */
  function QuantityAt(value: real, x: nat): int
    requires x < 4
  {
    Round(value * BlobInvScale(x))
  }

  /** The smallest scale from `x` on at which the value fits 14 bits, 4 if there is none. */
  function SelectFrom(value: real, x: nat): (y: nat)
    requires x <= 4
    ensures x <= y <= 4
    ensures y < 4 ==> FitsInBits(QuantityAt(value, y))
    ensures forall z :: x <= z < y ==> !FitsInBits(QuantityAt(value, z))
    decreases 4 - x
  {
    if x == 4 || FitsInBits(QuantityAt(value, x)) then x else SelectFrom(value, x + 1)
  }

  function Selected(value: real): nat {
    SelectFrom(value, 0)
  }

  function Clamped(q: int): (c: int)
    ensures FitsInBits(c)
  {
    if q > 8191 then 8191 else if q < -8192 then -8192 else q
  }

  /** What the encoding of a value is. */
  function Encode(cpu: Processor, value: real): (e: int)
    ensures IsInt16(e)
  {
    var x := Selected(value);
    if x < 4 then Pack(QuantityAt(value, x), x)
    else Pack(Clamped(ToInt32(cpu, QuantityAt(value, 3))), 3)
  }

  /** `EncodeFloatToInt16` */
  method EncodeFloatToInt16(cpu: Processor, value: real) returns (e: int)
    ensures e == Encode(cpu, value)
  {
    var x := 0;
    while x < 4
      invariant x <= 4 && forall z :: 0 <= z < x ==> !FitsInBits(QuantityAt(value, z))
    {
      var q := ToInt32(cpu, QuantityAt(value, x));
      if FitsInBits(q) {
        return Pack(q, x);
      }
      x := x + 1;
    }
    var q := ToInt32(cpu, QuantityAt(value, 3));
    if q > 8191 {
      q := 8191;
    } else if q < -8192 {
      q := -8192;
    }
    return Pack(q, 3);
  }

  /** `DecodeInt16ToFloat` */
  function Decode(e: int): real
    requires IsInt16(e)
  {
    (e / 4) as real * BlobScale(e % 4)
  }

  /** What is left of a value after encoding and decoding. */
  function Restored(cpu: Processor, value: real): real {
    Decode(Encode(cpu, value))
  }

  lemma DecodeOfPack(q: int, x: nat)
    requires FitsInBits(q) && x < 4
    ensures Decode(Pack(q, x)) == q as real * BlobScale(x)
  {
    assert Pack(q, x) / 4 == q && Pack(q, x) % 4 == x;
  }

  lemma PackOfParts(e: int)
    requires IsInt16(e)
    ensures FitsInBits(e / 4) && 0 <= e % 4 < 4 && Pack(e / 4, e % 4) == e
  {
  }

  // ---------------------------------------------------------------- which values fit

  lemma FitsWithin(value: real, x: nat)
    requires x < 4
    ensures FitsInBits(QuantityAt(value, x)) <==> -8192.5 < value * BlobInvScale(x) < 8191.5
  {
    RoundBelow(value * BlobInvScale(x), 8191);
    RoundAbove(value * BlobInvScale(x), 8192);
  }

  /** A value is clamped exactly when it is outside (-81.925, 81.915). */
  lemma ClampedExactly(value: real)
    ensures Selected(value) == 4 <==> value <= -81.925 || value >= 81.915
  {
    FitsWithin(value, 0);
    FitsWithin(value, 1);
    FitsWithin(value, 2);
    FitsWithin(value, 3);
  }

  /** The conversion to a 32-bit integer goes wrong for a positive value on x86 from here on. */
  predicate WrapsNegative(cpu: Processor, value: real) {
    cpu.X86? && value >= 21474836.475
  }

  /** A clamped value is restored to the end of the range on its own side, except where the conversion
      to an integer goes wrong; there a large positive value is restored to the negative end. */
  lemma ClampedIsRestored(cpu: Processor, value: real)
    requires value <= -81.925 || value >= 81.915
    ensures Restored(cpu, value) == if value > 0.0 && !WrapsNegative(cpu, value) then 81.91 else -81.92
  {
    ClampedExactly(value);
    var q := QuantityAt(value, 3);
    assert value * BlobInvScale(3) == 100.0 * value;
    RoundBelow(100.0 * value, 8191);
    RoundBelow(100.0 * value, INT32_MAX);
    RoundAbove(100.0 * value, 8192);
    DecodeOfPack(Clamped(ToInt32(cpu, q)), 3);
  }

  /** Ten to the fifth, fourth, third and second power. */
  const UNITS_PER_VALUE: seq<real> := [100000.0, 10000.0, 1000.0, 100.0]

  predicate FitsRange(x: real) {
    -8192.5 < x < 8191.5
  }

  function InUnits(value: real, x: nat): real
    requires x < 4
  {
    value * UNITS_PER_VALUE[x]
  }

  lemma FitsInUnits(value: real, x: nat)
    requires x < 4
    ensures FitsInBits(QuantityAt(value, x)) <==> FitsRange(InUnits(value, x))
    ensures -0.5 <= QuantityAt(value, x) as real - InUnits(value, x) <= 0.5
  {
    assert UNITS_PER_VALUE[x] == BlobInvScale(x);
    FitsWithin(value, x);
  }

  lemma EncodedAs(cpu: Processor, value: real) returns (x: nat, q: int)
    requires -81.925 < value < 81.915
    ensures x == Selected(value) < 4 && q == QuantityAt(value, x)
    ensures Encode(cpu, value) % 4 == x && Encode(cpu, value) / 4 == q
  {
    ClampedExactly(value);
    x := Selected(value);
    q := QuantityAt(value, x);
    PackedParts(q, x);
  }

  /** The lower two bits name the finest unit in which the value fits, the upper 14 count its units. */
  lemma EncodedBits(cpu: Processor, value: real)
    requires -81.925 < value < 81.915
    ensures var e := Encode(cpu, value);
            && -0.5 <= (e / 4) as real - InUnits(value, e % 4) <= 0.5
            && FitsRange(InUnits(value, e % 4))
            && forall y :: 0 <= y < e % 4 ==> !FitsRange(InUnits(value, y))
  {
    var x, q := EncodedAs(cpu, value);
    FitsInUnits(value, x);
    forall y | 0 <= y < x ensures !FitsRange(InUnits(value, y)) {
      FitsInUnits(value, y);
    }
  }

  lemma PackedParts(q: int, x: nat)
    requires FitsInBits(q) && x < 4
    ensures Pack(q, x) % 4 == x && Pack(q, x) / 4 == q
  {
  }

  /** Decoding divides the count by the unit. */
  lemma DecodedUnits(e: int)
    requires IsInt16(e)
    ensures InUnits(Decode(e), e % 4) == (e / 4) as real
  {
    InUnitsOfScale((e / 4) as real, e % 4);
  }

  lemma InUnitsOfScale(q: real, x: nat)
    requires x < 4
    ensures InUnits(q * BlobScale(x), x) == q
  {
    if x == 0 {
      assert q * 0.00001 * 100000.0 == q;
    } else if x == 1 {
      assert q * 0.0001 * 10000.0 == q;
    } else if x == 2 {
      assert q * 0.001 * 1000.0 == q;
    } else {
      assert q * 0.01 * 100.0 == q;
    }
  }

  // ---------------------------------------------------------------- error

  lemma RestoredIs(cpu: Processor, value: real, x: nat, q: int)
    requires x == Selected(value) < 4 && q == QuantityAt(value, x)
    ensures Restored(cpu, value) == q as real * BlobScale(x)
  {
    DecodeOfPack(q, x);
  }

  /** Half a unit of the selected scale. */
  lemma ErrorOfScale(value: real, x: nat)
    requires x < 4
    ensures Abs(QuantityAt(value, x) as real * BlobScale(x) - value) <= BlobScale(x) / 2.0
  {
    var y := value * BlobInvScale(x);
    assert value == y * BlobScale(x);
  }

  /** A scale is selected only if the value is at least 819.15 times as large, or the scale is the
      finest. */
  lemma ScaleTiedToMagnitude(value: real)
    requires 0 < Selected(value) < 4
    ensures Abs(value) >= 819.15 * BlobScale(Selected(value))
  {
    var x := Selected(value);
    FitsWithin(value, x - 1);
  }

  /** An unclamped value is restored within 0.000005 or within a 1638th of its magnitude. */
  lemma RestorationError(cpu: Processor, value: real)
    requires -81.925 < value < 81.915
    ensures Abs(Restored(cpu, value) - value) <= 0.000005
            || Abs(Restored(cpu, value) - value) <= Abs(value) / 1638.0
  {
    ClampedExactly(value);
    var x := Selected(value);
    RestoredIs(cpu, value, x, QuantityAt(value, x));
    ErrorOfScale(value, x);
    if x > 0 {
      ScaleTiedToMagnitude(value);
    }
  }

  // ---------------------------------------------------------------- idempotence

  function Pow10(n: nat): int {
    if n == 0 then 1 else 10 * Pow10(n - 1)
  }

  lemma SameScale(v: real, x: nat)
    requires x < 4
    ensures (v * BlobScale(x)) * BlobInvScale(x) == v
  {
  }

  lemma NextScale(v: real, y: nat)
    requires y < 3
    ensures 10.0 * v * BlobScale(y) == v * BlobScale(y + 1)
    ensures BlobInvScale(y) == 10.0 * BlobInvScale(y + 1)
  {
  }

  lemma TenTimes(q: int, n: nat)
    ensures q * Pow10(n + 1) == (10 * q) * Pow10(n) && (10 * q) as real == 10.0 * q as real
  {
  }

  /** A decoded value is an integer at every scale that is at least as fine as its own. */
  lemma {:induction false} Rescale(q: int, x: nat, y: nat)
    requires y <= x < 4
    ensures (q as real * BlobScale(x)) * BlobInvScale(y) == (q * Pow10(x - y)) as real
    ensures (q * Pow10(x - y)) as real * BlobScale(y) == q as real * BlobScale(x)
    decreases x
  {
    if x == y {
      SameScale(q as real, x);
      assert q * Pow10(0) == q;
    } else {
      NextScale(q as real, x - 1);
      TenTimes(q, x - 1 - y);
      Rescale(10 * q, x - 1, y);
    }
  }

  lemma QuantityOfDecoded(q: int, x: nat, y: nat)
    requires y <= x < 4
    ensures QuantityAt(q as real * BlobScale(x), y) == q * Pow10(x - y)
  {
    Rescale(q, x, y);
    RoundOfInteger(q * Pow10(x - y));
  }

  /** The selected scale is at least as fine as the one the value was decoded with. */
  lemma SelectedForDecoded(q: int, x: nat)
    requires FitsInBits(q) && x < 4
    ensures Selected(q as real * BlobScale(x)) <= x
  {
    QuantityOfDecoded(q, x, x);
    assert q * Pow10(0) == q;
  }

  lemma QuantityIsRestored(cpu: Processor, q: int, x: nat, value: real)
    requires FitsInBits(q) && x < 4 && value == q as real * BlobScale(x)
    ensures Restored(cpu, value) == value
  {
    var y := Selected(value);
    SelectedForDecoded(q, x);
    QuantityOfDecoded(q, x, y);
    RestoredIs(cpu, value, y, q * Pow10(x - y));
    Rescale(q, x, y);
  }

  /** Every decoded value survives being encoded and decoded again. */
  lemma DecodedIsRestored(cpu: Processor, e: int)
    requires IsInt16(e)
    ensures Restored(cpu, Decode(e)) == Decode(e)
  {
    PackOfParts(e);
    QuantityIsRestored(cpu, e / 4, e % 4, Decode(e));
  }

  /** Encoding is idempotent on all reals, clamped or not. */
  lemma RestoringTwice(cpu: Processor, value: real)
    ensures Restored(cpu, Restored(cpu, value)) == Restored(cpu, value)
  {
    DecodedIsRestored(cpu, Encode(cpu, value));
  }

  // ---------------------------------------------------------------- arrays

  /** `EncodeFloatArrayToBlob` */
  method EncodeFloatArrayToBlob(cpu: Processor, input: seq<real>, output: array<int>)
    requires output.Length == |input|
    modifies output
    ensures forall i :: 0 <= i < |input| ==> output[i] == Encode(cpu, input[i])
  {
    var i := 0;
    while i < |input|
      invariant i <= |input| && forall j :: 0 <= j < i ==> output[j] == Encode(cpu, input[j])
    {
      output[i] := EncodeFloatToInt16(cpu, input[i]);
      i := i + 1;
    }
  }

  /** `DecodeBlobToFloatArray` */
  method DecodeBlobToFloatArray(input: seq<int>, output: array<real>)
    requires output.Length == |input| && forall i :: 0 <= i < |input| ==> IsInt16(input[i])
    modifies output
    ensures forall i :: 0 <= i < |input| ==> output[i] == Decode(input[i])
  {
    var i := 0;
    while i < |input|
      invariant i <= |input| && forall j :: 0 <= j < i ==> output[j] == Decode(input[j])
    {
      output[i] := Decode(input[i]);
      i := i + 1;
    }
  }
}
