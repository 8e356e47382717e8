/**
 * Raw touch-axis calibration and the portrait-to-landscape rotation used by
 * both touch backends (src/main.py `_map_axis` and the rotation lines of the
 * two touch loops).
 */
module Calibration {
  import opened Wrappers

  /** Python's `int(a / b)`: true division followed by truncation toward zero.
      (Dafny's own `/` rounds toward negative infinity for a positive divisor.) */
  function TruncDiv(a: int, b: int): (q: int)
    requires b != 0
    ensures (a >= 0 && b > 0) || (a <= 0 && b < 0) ==> q >= 0
    ensures (a >= 0 && b < 0) || (a <= 0 && b > 0) ==> q <= 0
    ensures Abs(q * b) <= Abs(a) < Abs(q * b) + Abs(b)
  {
    var n := if a >= 0 then a else -a;
    var d := if b >= 0 then b else -b;
    if (a >= 0) == (b > 0) then n / d else -(n / d)
  }

  function Abs(n: int): nat
  {
    if n >= 0 then n else -n
  }

  /** Both calibration bounds are present and form a non-empty range. */
  predicate Calibrated(minValue: Option<int>, maxValue: Option<int>)
  {
    minValue.Some? && maxValue.Some? && maxValue.value > minValue.value
  }

  /** `_map_axis`: clamp `value` to `[min, max]` and rescale it linearly onto
      `[0, size - 1]`; without a usable calibration the raw value passes through.
      Its properties are the lemmas below. */
  function MapAxis(value: int, minValue: Option<int>, maxValue: Option<int>, size: int): int
  {
    if minValue.None? || maxValue.None? || maxValue.value <= minValue.value then
      value
    else
      var lo, hi := minValue.value, maxValue.value;
      var v := if value < lo then lo else if value > hi then hi else value;
      TruncDiv((v - lo) * (size - 1), hi - lo)
  }

  /** With a bound missing or an empty range the raw value is returned as is. */
  lemma MapAxisPassThrough(value: int, minValue: Option<int>, maxValue: Option<int>, size: int)
    requires !Calibrated(minValue, maxValue)
    ensures MapAxis(value, minValue, maxValue, size) == value
  {
  }

  /** A calibrated axis always lands on a pixel of the `size`-pixel axis. */
  lemma MapAxisRange(value: int, lo: int, hi: int, size: int)
    requires lo < hi && size >= 1
    ensures 0 <= MapAxis(value, Some(lo), Some(hi), size) <= size - 1
  {
    var v := if value < lo then lo else if value > hi then hi else value;
    var span, scale := hi - lo, size - 1;
    MulMono(v - lo, span, scale);
    MulMono(0, v - lo, scale);
    DivMonotone((v - lo) * scale, span * scale, span);
    DivExact(scale, span);
    assert span * scale == scale * span;
  }

  lemma MulMono(a: int, b: int, c: int)
    requires a <= b && c >= 0
    ensures a * c <= b * c
  {
    assert b * c - a * c == (b - a) * c;
  }

  lemma DivMonotone(a: int, b: int, d: int)
    requires 0 <= a <= b && d > 0
    ensures a / d <= b / d
  {
    var qa, qb := a / d, b / d;
    assert a == qa * d + a % d;
    assert b == qb * d + b % d;
    if qa > qb {
      MulMono(qb + 1, qa, d);
    }
  }

  lemma DivExact(k: int, d: int)
    requires d > 0
    ensures (k * d) / d == k
  {
    var q, r := (k * d) / d, (k * d) % d;
    assert k * d == q * d + r;
    assert (k - q) * d == r;
    if k > q {
      MulMono(1, k - q, d);
    } else if k < q {
      MulMono(k - q, -1, d);
    }
  }

  /** The lower endpoint and everything below it map to 0. */
  lemma MapAxisLowEnd(value: int, lo: int, hi: int, size: int)
    requires lo < hi && value <= lo
    ensures MapAxis(value, Some(lo), Some(hi), size) == 0
  {
  }

  /** The upper endpoint and everything above it map to `size - 1`. */
  lemma MapAxisHighEnd(value: int, lo: int, hi: int, size: int)
    requires lo < hi && value >= hi
    ensures MapAxis(value, Some(lo), Some(hi), size) == size - 1
  {
    var span, scale := hi - lo, size - 1;
    assert span * scale == scale * span;
    if scale >= 0 {
      DivExact(scale, span);
    } else {
      DivExact(-scale, span);
      assert -(span * scale) == (-scale) * span;
    }
  }

  /** A calibrated mapping preserves the order of raw values. */
  lemma MapAxisMonotone(v1: int, v2: int, lo: int, hi: int, size: int)
    requires lo < hi && size >= 1 && v1 <= v2
    ensures MapAxis(v1, Some(lo), Some(hi), size) <= MapAxis(v2, Some(lo), Some(hi), size)
  {
    var c1 := if v1 < lo then lo else if v1 > hi then hi else v1;
    var c2 := if v2 < lo then lo else if v2 > hi then hi else v2;
    MulMono(c1 - lo, c2 - lo, size - 1);
    MulMono(0, c1 - lo, size - 1);
    DivMonotone((c1 - lo) * (size - 1), (c2 - lo) * (size - 1), hi - lo);
  }

  /** Raw 10 and 20 on a 0..99 axis land on pixel 30 of a 300- and a
      150-pixel axis respectively (10 * 299 / 99 and 20 * 149 / 99). */
  lemma MapAxisExamples()
    ensures MapAxis(10, Some(0), Some(99), 300) == 30
    ensures MapAxis(20, Some(0), Some(99), 150) == 30
  {
  }

  /** The touch loops' rotation of a raw portrait point into landscape
      coordinates: `(x, y) -> (y, width - 1 - x)`, `width` being the physical
      (portrait) panel width. */
  function Rotate(x: int, y: int, width: int): (p: (int, int))
    ensures 0 <= x < width ==> 0 <= p.1 < width
    ensures p.0 == y
  {
    (y, width - 1 - x)
  }

  /** The reverse transform, from landscape back to portrait coordinates. */
  function Unrotate(u: int, v: int, width: int): (p: (int, int))
    ensures 0 <= v < width ==> 0 <= p.0 < width
    ensures p.1 == u
  {
    (width - 1 - v, u)
  }

  /** Rotating and rotating back recovers the original point, both ways round. */
  lemma RotateRoundTrip(x: int, y: int, width: int)
    ensures Unrotate(Rotate(x, y, width).0, Rotate(x, y, width).1, width) == (x, y)
    ensures Rotate(Unrotate(x, y, width).0, Unrotate(x, y, width).1, width) == (x, y)
  {
  }
}
