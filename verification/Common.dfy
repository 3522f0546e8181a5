/** Constants, the split of the dimensions into a vertical and a horizontal part, and the
    checkpoints at which the warmup phase may stop (common.hpp). */
module Common {

  const H_DIM_SIZE: nat := 64
  const U8_INTERLEAVE_SIZE: nat := 4
  const PDX_MAX_DIMS: nat := 16384
  const UINT32_RANGE: nat := 0x1_0000_0000
  const UINT32_MAX: nat := 0xFFFF_FFFF

  /** `std::numeric_limits<float>::max()`. */
  const FLT_MAX: real := 340282346638528859811704183484516925440.0

  const DIMENSIONS_FETCHING_SIZES: seq<nat> :=
    [16, 16, 32, 32, 32, 32, 64, 64, 64, 64, 128, 128, 128, 128, 256, 256, 512, 1024, 2048, 16384]

  /** The element types a search can be instantiated with. */
  datatype Quantization = F32 | U8

  datatype DimensionSplit = DimensionSplit(horizontal: nat, vertical: nat)

  function Min(a: nat, b: nat): nat {
    if a <= b then a else b
  }

  predicate NoRepeats(s: seq<nat>) {
    forall i, j :: 0 <= i < j < |s| ==> s[i] != s[j]
  }

  /** Subtraction on `uint32_t`: it wraps below zero. */
  function Sub32(a: nat, b: nat): nat {
    (a - b) % UINT32_RANGE
  }

  /** The split, branch by branch, in wrapping 32-bit arithmetic. The proportions 0.25 and 0.75
      times a number of dimensions are exact in single precision in the supported range. */
  function GetDimensionSplit(numDimensions: nat): DimensionSplit {
    var h0 := if numDimensions <= 128 then numDimensions / 4 else 3 * numDimensions / 4;
    var v0 := Sub32(numDimensions, h0);
    var h1 := if h0 % H_DIM_SIZE > 0 then (h0 + H_DIM_SIZE / 2) / H_DIM_SIZE * H_DIM_SIZE else h0;
    var v1 := if h0 % H_DIM_SIZE > 0 then Sub32(numDimensions, h1) else v0;
    var h2 := if v1 == 0 then H_DIM_SIZE else h1;
    var v2 := if v1 == 0 then Sub32(numDimensions, h2) else v1;
    if numDimensions <= H_DIM_SIZE then DimensionSplit(0, numDimensions) else DimensionSplit(h2, v2)
  }

  /** Every supported number of dimensions is split without wrap-around into a non-empty vertical
      part and whole horizontal blocks; up to 127 dimensions there is no horizontal part, from 128
      on there is one. */
  lemma SplitIsSound(numDimensions: nat)
    requires 1 <= numDimensions <= PDX_MAX_DIMS
    ensures var s := GetDimensionSplit(numDimensions);
            && s.horizontal + s.vertical == numDimensions
            && s.vertical >= 1
            && s.horizontal % H_DIM_SIZE == 0
            && (s.horizontal == 0 <==> numDimensions < 128)
  {
    if numDimensions > H_DIM_SIZE {
      var h0 := if numDimensions <= 128 then numDimensions / 4 else 3 * numDimensions / 4;
      var h1 := if h0 % H_DIM_SIZE > 0 then (h0 + H_DIM_SIZE / 2) / H_DIM_SIZE * H_DIM_SIZE else h0;
      RoundedToBlocks(h0, h1);
      NoWrap(numDimensions, h0);
      NoWrap(numDimensions, h1);
    }
  }

  /** Above 128 dimensions the horizontal part is the one multiple of 64 that lies nearest to three quarters
      of the dimensions, rounded down. */
  lemma SplitIsThreeQuarters(numDimensions: nat, horizontal: nat)
    requires 128 < numDimensions <= PDX_MAX_DIMS && horizontal % H_DIM_SIZE == 0
    ensures horizontal == GetDimensionSplit(numDimensions).horizontal
            <==> 3 * numDimensions - 127 <= 4 * horizontal <= 3 * numDimensions + 128
  {
    SplitIsSound(numDimensions);
    var h0, h := 3 * numDimensions / 4, GetDimensionSplit(numDimensions).horizontal;
    var h1 := if h0 % H_DIM_SIZE > 0 then (h0 + H_DIM_SIZE / 2) / H_DIM_SIZE * H_DIM_SIZE else h0;
    RoundedToBlocks(h0, h1);
    NoWrap(numDimensions, h0);
    NoWrap(numDimensions, h1);
    assert h == h1;
    OneMultiple(h, horizontal);
  }

  lemma OneMultiple(a: nat, b: nat)
    requires a % H_DIM_SIZE == 0 && b % H_DIM_SIZE == 0
    ensures a == b || a >= b + H_DIM_SIZE || b >= a + H_DIM_SIZE
  {
  }

  /** The splits the program asserts. */
  lemma AssertedSplits()
    ensures GetDimensionSplit(4) == DimensionSplit(0, 4) && GetDimensionSplit(33) == DimensionSplit(0, 33)
    ensures GetDimensionSplit(64) == DimensionSplit(0, 64) && GetDimensionSplit(65) == DimensionSplit(0, 65)
    ensures GetDimensionSplit(100) == DimensionSplit(0, 100) && GetDimensionSplit(127) == DimensionSplit(0, 127)
    ensures GetDimensionSplit(128) == DimensionSplit(64, 64) && GetDimensionSplit(256) == DimensionSplit(192, 64)
    ensures GetDimensionSplit(1024) == DimensionSplit(768, 256) && GetDimensionSplit(1028) == DimensionSplit(768, 260)
  {
  }

  lemma NoWrap(a: nat, b: nat)
    requires b <= a < UINT32_RANGE
    ensures Sub32(a, b) == a - b
  {
  }

  lemma RoundedToBlocks(h0: nat, h1: nat)
    requires h1 == if h0 % H_DIM_SIZE > 0 then (h0 + H_DIM_SIZE / 2) / H_DIM_SIZE * H_DIM_SIZE else h0
    ensures h1 % H_DIM_SIZE == 0 && h1 <= h0 + 32 && h0 < h1 + 32
  {
    if h0 % H_DIM_SIZE > 0 {
      var blocks := (h0 + 32) / 64;
      assert blocks * 64 <= h0 + 32 < blocks * 64 + 64;
      assert (blocks * 64) % 64 == 0;
    } else {
      assert h1 == h0;
    }
  }

  /** The dimension reached after fetching `i` groups of dimensions out of `vertical`. */
  function FetchStop(vertical: nat, i: nat): (stop: nat)
    requires i <= 20
    ensures stop <= vertical
  {
    if i == 0 then 0 else Min(FetchStop(vertical, i - 1) + DIMENSIONS_FETCHING_SIZES[i - 1], vertical)
  }

  /** The warmup loop never needs a twenty-first group, so it never reads past the table of sizes. */
  lemma FetchingSizesSuffice(vertical: nat, i: nat)
    requires vertical <= PDX_MAX_DIMS && i <= 20 && FetchStop(vertical, i) < vertical
    ensures i < 20 && FetchStop(vertical, i) < FetchStop(vertical, i + 1)
  {
    if i == 20 {
      assert false;
    }
  }

  /** Every stop but the last one lies on a boundary of the interleaved layout. */
  lemma {:induction false} FetchStopAligned(vertical: nat, i: nat)
    requires i <= 20
    ensures FetchStop(vertical, i) % U8_INTERLEAVE_SIZE == 0 || FetchStop(vertical, i) == vertical
  {
    if i > 0 {
      FetchStopAligned(vertical, i - 1);
      NextStopAligned(FetchStop(vertical, i - 1), i - 1, vertical);
    }
  }

  lemma SizesAreAligned(j: nat)
    requires j < 20
    ensures DIMENSIONS_FETCHING_SIZES[j] % U8_INTERLEAVE_SIZE == 0
  {
  }

  lemma NextStopAligned(stop: nat, j: nat, vertical: nat)
    requires j < 20 && stop <= vertical && (stop % U8_INTERLEAVE_SIZE == 0 || stop == vertical)
    ensures var next := Min(stop + DIMENSIONS_FETCHING_SIZES[j], vertical);
            next % U8_INTERLEAVE_SIZE == 0 || next == vertical
  {
    SizesAreAligned(j);
  }

  /** The sums of the fetching sizes: where the warmup stops, short of the end of the vertical part. */
  const FETCH_STOPS: seq<nat> :=
    [0, 16, 32, 64, 96, 128, 160, 224, 288, 352, 416, 544, 672, 800, 928, 1184, 1440, 1952, 2976, 5024, 21408]

  lemma FetchStopIsSum(vertical: nat, i: nat)
    requires i <= 20
    ensures FetchStop(vertical, i) == Min(FETCH_STOPS[i], vertical)
    decreases i
  {
    if i > 0 {
      FetchStopIsSum(vertical, i - 1);
      NextSum(i - 1);
    }
  }

  lemma NextSum(i: nat)
    requires i < 20
    ensures FETCH_STOPS[i + 1] == FETCH_STOPS[i] + DIMENSIONS_FETCHING_SIZES[i]
  {
  }
}
