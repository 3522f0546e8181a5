/** Rounding of reals and its conversion to machine integers. */
module Reals {

  const INT32_MAX: int := 0x7FFF_FFFF
  const INT32_MIN: int := -0x8000_0000

  function Abs(r: real): (a: real)
    ensures a >= 0.0 && (a == r || a == -r)
  {
    if r >= 0.0 then r else -r
  }

  /** `std::round`: to the nearest integer, halves away from zero. */
  function Round(r: real): (i: int)
    ensures Abs(i as real - r) <= 0.5
    ensures r >= 0.0 ==> i >= 0
    ensures r <= 0.0 ==> i <= 0
  {
    if r >= 0.0 then (r + 0.5).Floor else -((0.5 - r).Floor)
  }

  lemma HalvesAwayFromZero(m: int)
    requires m >= 0
    ensures Round(m as real + 0.5) == m + 1 && Round(-(m as real) - 0.5) == -m - 1
  {
  }

  lemma TimesMonotone(a: real, b: real, c: real)
    requires a <= b && c >= 0.0
    ensures a * c <= b * c
  {
  }

  lemma ProductIsMonotone(x: real, y: real, c: real)
    requires 0.0 <= x <= y && c >= 0.0
    ensures 0.0 <= x * c <= y * c
  {
  }

  lemma ProductIsNonNegative(x: real, y: real)
    requires x >= 0.0 && y >= 0.0
    ensures x * y >= 0.0
  {
  }

  lemma RoundOfInteger(i: int)
    ensures Round(i as real) == i
  {
  }

  /** The integers at or below `n` are the rounded values of what lies below the half above `n`. */
  lemma RoundBelow(r: real, n: nat)
    ensures Round(r) <= n <==> r < n as real + 0.5
  {
  }

  lemma RoundAbove(r: real, n: nat)
    ensures Round(r) >= -(n as int) <==> r > -(n as real) - 0.5
  {
  }
}
