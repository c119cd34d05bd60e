/** Failure-compatible wrappers shared by the modules below. */
module Wrappers {
  datatype Option<+T> = None | Some(value: T)

  datatype Result<+T, +E> = Ok(value: T) | Err(error: E)
}

/**
  Numeric building blocks the sizing formulas rely on: the value of pi, square and cube roots,
  `math.ceil`, `numpy.clip` and the linear `scipy.interpolate.interp1d`, all over `real`.
 */
module Numerics {

  /** The double nearest to pi, which is the value of `math.pi` and `np.pi`. */
  const Pi: real := 3.141592653589793

  function Abs(x: real): real { if x < 0.0 then -x else x }

  function Min(a: real, b: real): real { if a <= b then a else b }

  function Max(a: real, b: real): real { if a <= b then b else a }

  /** Distance between two points of the real line. */
  function Dist(a: real, b: real): real { Abs(a - b) }

  /** `r` is the non-negative square root of `x` (what `math.sqrt(x)` returns). */
  predicate IsSqrt(r: real, x: real) { 0.0 <= r && r * r == x }

  /** `r` is the real cube root of the non-negative `x` (what `x ** (1 / 3)` returns). */
  predicate IsCubeRoot(r: real, x: real) { 0.0 <= r && r * r * r == x }

  /** `math.ceil`: the least integer not below `x`. */
  function Ceil(x: real): (n: int)
    ensures x <= n as real
    ensures (n - 1) as real < x
  {
    -((-x).Floor)
  }

  /** `numpy.clip(x, lo, hi)`: the point of [lo, hi] nearest to `x`. */
  function Clip(x: real, lo: real, hi: real): (r: real)
    requires lo <= hi
    ensures lo <= r <= hi
    ensures forall y :: lo <= y <= hi ==> Dist(r, x) <= Dist(y, x)
  {
    if x < lo then lo else if hi < x then hi else x
  }

  /** Clipping a value that is already clipped changes nothing. */
  lemma ClipIdempotent(x: real, lo: real, hi: real)
    requires lo <= hi
    ensures Clip(Clip(x, lo, hi), lo, hi) == Clip(x, lo, hi)
  {
  }

  /** The straight line through (x0, y0) and (x1, y1), evaluated at `x`. */
  function Lerp(x0: real, y0: real, x1: real, y1: real, x: real): (y: real)
    requires x0 < x1
    ensures (y - y0) * (x1 - x0) == (x - x0) * (y1 - y0)
    ensures x == x0 ==> y == y0
    ensures x == x1 ==> y == y1
    ensures x0 <= x <= x1 ==> Min(y0, y1) <= y <= Max(y0, y1)
  {
    var t := (x - x0) / (x1 - x0);
    if x0 <= x <= x1 then
      FractionInUnit(x - x0, x1 - x0);
      ScaleByFraction(t, y1 - y0);
      y0 + t * (y1 - y0)
    else
      y0 + t * (y1 - y0)
  }

  lemma FractionInUnit(a: real, b: real)
    requires 0.0 <= a <= b && 0.0 < b
    ensures 0.0 <= a / b <= 1.0
  {
    assert a / b * b == a;
  }

  /** Scaling `d` by a fraction of the unit interval keeps it between 0 and `d`. */
  lemma ScaleByFraction(t: real, d: real)
    requires 0.0 <= t <= 1.0
    ensures Min(0.0, d) <= t * d <= Max(0.0, d)
  {
    if d < 0.0 {
      assert t * (-d) <= -d;
    } else {
      assert t * d <= d;
    }
  }

  /** A non-zero factor cancels from both sides of an equation. */
  lemma CancelNonZero(c: real, a: real, b: real)
    requires c != 0.0 && a * c == b * c
    ensures a == b
  {
    assert (a - b) * c == 0.0;
  }

  predicate StrictlyIncreasing(xs: seq<real>) {
    forall i, j :: 0 <= i < j < |xs| ==> xs[i] < xs[j]
  }

  /**
    `scipy.interpolate.interp1d(xs, ys)(x)` with its default linear kind. `x` must lie inside
    the table (interp1d raises otherwise); the segment used is the one with
    xs[i] < x <= xs[i + 1], and the first one when x == xs[0].
   */
  function Interp(xs: seq<real>, ys: seq<real>, x: real): (y: real)
    requires 2 <= |xs| == |ys|
    requires StrictlyIncreasing(xs)
    requires xs[0] <= x <= xs[|xs| - 1]
    ensures forall i :: 0 <= i < |xs| && x == xs[i] ==> y == ys[i]
    ensures forall i, j {:trigger xs[i], xs[j]} :: 0 <= i && j == i + 1 && j < |xs| && xs[i] < x <= xs[j] ==>
      y == Lerp(xs[i], ys[i], xs[j], ys[j], x)
    ensures forall i, j {:trigger xs[i], xs[j]} :: 0 <= i && j == i + 1 && j < |xs| && xs[i] <= x <= xs[j] ==>
      Min(ys[i], ys[j]) <= y <= Max(ys[i], ys[j])
    decreases |xs|
  {
    if |xs| == 2 || x <= xs[1] then Lerp(xs[0], ys[0], xs[1], ys[1], x)
    else Interp(xs[1..], ys[1..], x)
  }
}
