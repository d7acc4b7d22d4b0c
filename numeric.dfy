/**
 * Integer and rational helpers shared by every stage: the 8-bit sample type,
 * numpy's float-to-integer truncation, numpy's clip, and OpenCV's
 * saturate_cast<uchar> (round half to even, then saturate to [0, 255]).
 * Floating-point factors of the pipeline are modelled as exact `real`s.
 */
module Numeric {

  /** One unsigned 8-bit sample, as held by a uint8 array. */
  type Sample = x: int | 0 <= x <= 255

  function Min(x: real, y: real): real { if x <= y then x else y }

  function Max(x: real, y: real): real { if x >= y then x else y }

  /** np.clip(x, lo, hi), which numpy computes as minimum(maximum(x, lo), hi). */
  function Clip(x: real, lo: real, hi: real): (r: real)
    ensures lo <= hi ==> lo <= r <= hi
    ensures lo <= x <= hi ==> r == x
    ensures x < lo && lo <= hi ==> r == lo
    ensures x > hi ==> r == hi
    ensures lo > hi ==> r == hi
  {
    Min(Max(x, lo), hi)
  }

  /** Conversion of a float to an integer type (astype, masked assignment into an int array):
      the fractional part is dropped, rounding toward zero. */
  function Trunc(x: real): (n: int)
    ensures x >= 0.0 ==> n >= 0 && n as real <= x < n as real + 1.0
    ensures x < 0.0 ==> n <= 0 && n as real - 1.0 < x <= n as real
  {
    if x >= 0.0 then x.Floor else -((-x).Floor)
  }

  /** np.clip(v, 0, 255).astype(np.uint8) on an integer array, and OpenCV's saturate_cast<uchar>
      on an integer: values outside [0, 255] go to the nearer end. */
  function Saturate(n: int): (r: Sample)
    ensures 0 <= n <= 255 ==> r == n
    ensures n < 0 ==> r == 0
    ensures n > 255 ==> r == 255
  {
    if n < 0 then 0 else if n > 255 then 255 else n
  }

  /** cvRound: the nearest integer, ties going to the even neighbour. */
  function RoundHalfEven(x: real): (n: int)
    ensures x - 0.5 <= n as real <= x + 0.5
    ensures (n as real == x + 0.5 || n as real == x - 0.5) ==> n % 2 == 0
  {
    var f := x.Floor;
    var d := x - f as real;
    if d < 0.5 then f
    else if d > 0.5 then f + 1
    else if f % 2 == 0 then f
    else f + 1
  }

  lemma SaturateMonotone(m: int, n: int)
    requires m <= n
    ensures Saturate(m) <= Saturate(n)
  {
  }

  lemma RoundHalfEvenMonotone(x: real, y: real)
    requires x <= y
    ensures RoundHalfEven(x) <= RoundHalfEven(y)
  {
    // Each result lies within one half of its argument, so a larger result for x would
    // need x + 0.5 >= RoundHalfEven(y) + 1 >= y + 0.5.
  }

  lemma RoundHalfEvenOfInteger(k: int)
    ensures RoundHalfEven(k as real) == k
  {
  }

  lemma MulNonNegative(a: real, b: real)
    requires a >= 0.0 && b >= 0.0
    ensures a * b >= 0.0
  {
  }

  /** Scaling a non-negative value by a factor of at most 1 does not increase it. */
  lemma ScaleDown(v: real, factor: real)
    requires v >= 0.0 && factor <= 1.0
    ensures v * factor <= v
  {
    MulNonNegative(v, 1.0 - factor);
    assert v * (1.0 - factor) == v - v * factor;
  }

  /** Clamping into an ordered window is order-preserving. */
  lemma ClipMonotone(x: real, y: real, lo: real, hi: real)
    requires x <= y && lo <= hi
    ensures lo <= Clip(x, lo, hi) <= Clip(y, lo, hi)
  {
  }

  lemma TruncMonotone(x: real, y: real)
    requires 0.0 <= x <= y
    ensures Trunc(x) <= Trunc(y)
  {
  }
}
