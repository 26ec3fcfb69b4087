/** Zone interpolation: the colours strictly after `min` up to and including `max`,
    in `n` equal steps, each channel rounded down. */
module Zones {
  import opened Colors

  function Min(a: int, b: int): int { if a <= b then a else b }
  function Max(a: int, b: int): int { if a <= b then b else a }

  /** Cancelling a positive factor from both sides of `<=`. */
  lemma CancelLe(n: int, x: int, y: int)
    requires n >= 1 && n * x <= n * y
    ensures x <= y
  {
  }

  /** Cancelling a positive factor from both sides of `<`. */
  lemma CancelLt(n: int, x: int, y: int)
    requires n >= 1 && n * x < n * y
    ensures x < y
  {
  }

  /** Multiplying by a non-negative factor keeps the order. */
  lemma MulMono(a: int, x: int, y: int)
    requires a >= 0 && x <= y
    ensures a * x <= a * y
  {
    assert a * y - a * x == a * (y - x);
  }

  /** Euclid's quotient by a positive divisor rounds down. */
  lemma DivBounds(a: int, n: int)
    requires n >= 1
    ensures n * (a / n) <= a < n * (a / n) + n
  {
    assert a == n * (a / n) + a % n;
  }

  /** Rounding down `d * i / n` for `0 <= i <= n` and `d >= 0` stays within [0, d]. */
  lemma FloorRising(d: int, i: int, n: int)
    requires n >= 1 && d >= 0 && 0 <= i <= n
    ensures 0 <= (d * i) / n <= d
  {
    var q := (d * i) / n;
    DivBounds(d * i, n);
    assert d * n - d * i == d * (n - i);
    assert n * q <= n * d;
    CancelLe(n, q, d);
    assert n * 0 < n * (q + 1);
    CancelLt(n, 0, q + 1);
  }

  /** Rounding down `d * i / n` for `0 <= i <= n` and `d < 0` stays within [d, 0]. */
  lemma FloorFalling(d: int, i: int, n: int)
    requires n >= 1 && d < 0 && 0 <= i <= n
    ensures d <= (d * i) / n <= 0
  {
    var q := (d * i) / n;
    DivBounds(d * i, n);
    assert d * n - d * i == d * (n - i);
    assert n * d < n * (q + 1);
    CancelLt(n, d, q + 1);
    assert n * q <= n * 0;
    CancelLe(n, q, 0);
  }

  /** Multiplying by `n` and then dividing by it gives the factor back. */
  lemma MulDiv(d: int, n: int)
    requires n >= 1
    ensures (d * n) / n == d
  {
    var q := (d * n) / n;
    DivBounds(d * n, n);
    assert n * q <= n * d;
    CancelLe(n, q, d);
    assert n * d < n * (q + 1);
    CancelLt(n, d, q + 1);
  }

  /** Channel `i` of `n` from `lo` to `hi`: `floor(lo + (hi - lo) / n * i)` taken in exact
      arithmetic. For `0 <= i <= n` it lies between the two ends, and the two endpoints
      are `lo` and `hi` themselves. */
  function Channel(lo: int, hi: int, i: int, n: int): (v: int)
    requires n >= 1
    ensures 0 <= i <= n ==> Min(lo, hi) <= v <= Max(lo, hi)
    ensures i == 0 ==> v == lo
    ensures i == n ==> v == hi
  {
    ChannelFacts(lo, hi, i, n);
    lo + ((hi - lo) * i) / n
  }

  /** The bounds and endpoints behind `Channel`, stated of its defining expression. */
  lemma ChannelFacts(lo: int, hi: int, i: int, n: int)
    requires n >= 1
    ensures 0 <= i <= n ==> Min(lo, hi) <= lo + ((hi - lo) * i) / n <= Max(lo, hi)
    ensures i == 0 ==> lo + ((hi - lo) * i) / n == lo
    ensures i == n ==> lo + ((hi - lo) * i) / n == hi
  {
    if 0 <= i <= n && lo <= hi {
      FloorRising(hi - lo, i, n);
    }
    if 0 <= i <= n && hi < lo {
      FloorFalling(hi - lo, i, n);
    }
    if i == n {
      MulDiv(hi - lo, n);
    }
  }

  /** `Channel` is the floor of the exact value: `n * (v - lo) <= (hi - lo) * i` and
      the next integer overshoots it. */
  lemma ChannelFloor(lo: int, hi: int, i: int, n: int)
    requires n >= 1
    ensures var v := Channel(lo, hi, i, n);
      n * (v - lo) <= (hi - lo) * i < n * (v - lo + 1)
  {
    DivBounds((hi - lo) * i, n);
  }

  /** The colour at step `i` of `n` between two anchors. */
  function Lerp(min: Rgb, max: Rgb, i: int, n: int): (c: Rgb)
    requires InRange(min) && InRange(max) && 0 <= i <= n && n >= 1
    ensures InRange(c)
    ensures i == 0 ==> c == min
    ensures i == n ==> c == max
  {
    Rgb(Channel(min.r, max.r, i, n), Channel(min.g, max.g, i, n), Channel(min.b, max.b, i, n))
  }

  /** What `zone(min, max, n)` appends: the formatted colours of steps 1 to `n`, and
      nothing at all when `n <= 0` (its loop never runs). */
  function ZoneColors(min: Rgb, max: Rgb, n: int): (z: seq<string>)
    requires InRange(min) && InRange(max)
    ensures |z| == if n > 0 then n else 0
  {
    if n <= 0 then [] else seq(n, k requires 0 <= k < n => FormatColor(Lerp(min, max, k + 1, n)))
  }

  /** Entry `k` of a zone is step `k + 1`. */
  lemma ZoneEntry(min: Rgb, max: Rgb, n: int, k: int)
    requires InRange(min) && InRange(max) && 0 <= k < n
    ensures ZoneColors(min, max, n)[k] == FormatColor(Lerp(min, max, k + 1, n))
  {
  }

  /** The last entry of a non-empty zone is `max` written out. */
  lemma ZoneEnd(min: Rgb, max: Rgb, n: int)
    requires InRange(min) && InRange(max) && n > 0
    ensures ZoneColors(min, max, n)[n - 1] == FormatColor(max)
  {
  }

  /** A zone has `n` entries (none for `n <= 0`); entry `k` is canonical and parses to
      the floored channels of step `k + 1`, each between the two anchors; the last entry
      is `max` written out, so `min` itself never appears as step 0. */
  lemma ZoneShape(min: Rgb, max: Rgb, n: int)
    requires InRange(min) && InRange(max)
    ensures |ZoneColors(min, max, n)| == if n > 0 then n else 0
    ensures forall k :: 0 <= k < |ZoneColors(min, max, n)| ==>
      var c := Lerp(min, max, k + 1, n);
      && IsCanonical(ZoneColors(min, max, n)[k])
      && ParseColor(ZoneColors(min, max, n)[k]) == c
      && Min(min.r, max.r) <= c.r <= Max(min.r, max.r)
      && Min(min.g, max.g) <= c.g <= Max(min.g, max.g)
      && Min(min.b, max.b) <= c.b <= Max(min.b, max.b)
    ensures n > 0 ==> ZoneColors(min, max, n)[n - 1] == FormatColor(max)
  {
    var z := ZoneColors(min, max, n);
    forall k | 0 <= k < |z|
      ensures IsCanonical(z[k]) && ParseColor(z[k]) == Lerp(min, max, k + 1, n)
    {
      FormatThenParse(Lerp(min, max, k + 1, n));
    }
  }
}
