/** Numeric vocabulary shared by every colour space: `f32` is modelled as `real`,
    the library routines the conversions call (formatting, parsing, cube root,
    square root, trigonometry) are supplied as function values, and the `f32`
    helpers `max`, `min`, `clamp` and the float remainder `%` are written out. */
module Numerics {

  datatype Option<T> = None | Some(value: T)

  /** A `[f32; 3]`: an RGB interchange triple or a three-channel colour. */
  type Vec3 = s: seq<real> | |s| == 3 witness [0.0, 0.0, 0.0]

  /** A `[f32; 4]`: a CMYK colour. */
  type Vec4 = s: seq<real> | |s| == 4 witness [0.0, 0.0, 0.0, 0.0]

  /** `f32::EPSILON`, 2^-23, written out exactly. */
  const F32_EPSILON: real := 0.00000011920928955078125

  /** The standard-library routines the core calls but does not define.
      `toString` is `f32::to_string`, `parse` is `str::parse::<f32>`,
      `atan2Degrees(y, x)` is `y.atan2(x).to_degrees()`, and
      `cosDegrees(h)` / `sinDegrees(h)` are `h.to_radians().cos()` / `.sin()`. */
  datatype Routines = Routines(
    toString: real -> string,
    parse: string -> Option<real>,
    cbrt: real -> real,
    sqrt: real -> real,
    atan2Degrees: (real, real) -> real,
    cosDegrees: real -> real,
    sinDegrees: real -> real)

  /** `a.max(b)` on non-NaN floats. */
  function Max(a: real, b: real): (r: real)
    ensures r >= a && r >= b
    ensures r == a || r == b
  {
    if a >= b then a else b
  }

  /** `a.min(b)` on non-NaN floats. */
  function Min(a: real, b: real): (r: real)
    ensures r <= a && r <= b
    ensures r == a || r == b
  {
    if a <= b then a else b
  }

  /** `r.max(g).max(b)` */
  function Max3(r: real, g: real, b: real): (m: real)
    ensures m >= r && m >= g && m >= b
    ensures m == r || m == g || m == b
  {
    Max(Max(r, g), b)
  }

  /** `r.min(g).min(b)` */
  function Min3(r: real, g: real, b: real): (m: real)
    ensures m <= r && m <= g && m <= b
    ensures m == r || m == g || m == b
  {
    Min(Min(r, g), b)
  }

  function Abs(x: real): (r: real)
    ensures r >= 0.0 && (r == x || r == -x)
  {
    if x >= 0.0 then x else -x
  }

  /** Rounding toward zero, as a float-to-integer cast does. */
  function Trunc(x: real): (n: int)
    ensures x >= 0.0 ==> 0 <= n && n as real <= x < n as real + 1.0
    ensures x < 0.0 ==> n <= 0 && n as real - 1.0 < x <= n as real
  {
    if x >= 0.0 then x.Floor else -((-x).Floor)
  }

  /** The float `%` operator: a truncated remainder, whose sign is that of
      the dividend (unlike Dafny's Euclidean `%`). */
  function TruncRem(x: real, m: real): (r: real)
    requires m > 0.0
    ensures x >= 0.0 ==> 0.0 <= r < m
    ensures x < 0.0 ==> -m < r <= 0.0
  {
    var q := Trunc(x / m);
    QuotientBounds(x, m, q);
    x - q as real * m
  }

  /** Scaling `q <= x / m < q + 1` (or its mirror image) back by `m`. */
  lemma QuotientBounds(x: real, m: real, q: int)
    requires m > 0.0
    ensures q as real <= x / m < q as real + 1.0 <==> q as real * m <= x < q as real * m + m
    ensures q as real - 1.0 < x / m <= q as real <==> q as real * m - m < x <= q as real * m
  {
    var y, n := x / m, q as real;
    assert y * m == x;
    ScaleLeAt(n, y, m, n * m, x);
    ScaleLeAt(y, n + 1.0, m, x, n * m + m);
    ScaleLeAt(n - 1.0, y, m, n * m - m, x);
    ScaleLeAt(y, n, m, x, n * m);
  }

  /** `ScaleLe` with the two products already named. */
  lemma ScaleLeAt(a: real, b: real, m: real, am: real, bm: real)
    requires m > 0.0 && am == a * m && bm == b * m
    ensures a <= b <==> am <= bm
    ensures a < b <==> am < bm
  {
    ScaleLe(a, b, m);
  }

  /** A product with a zero factor is zero. */
  lemma ZeroFactor(a: real, b: real)
    ensures a == 0.0 || b == 0.0 ==> a * b == 0.0
  {
  }

  /** Multiplying by a positive factor keeps the order, both ways. */
  lemma ScaleLe(a: real, b: real, m: real)
    requires m > 0.0
    ensures a <= b <==> a * m <= b * m
    ensures a < b <==> a * m < b * m
  {
    assert (b - a) * m == b * m - a * m;
  }

  /** A ratio of magnitudes no larger than the (positive) divisor lies in [-1, 1]. */
  lemma UnitRatio(a: real, c: real)
    requires c > 0.0 && -c <= a <= c
    ensures -1.0 <= a / c <= 1.0
    ensures (a / c) * c == a
    ensures a >= 0.0 <==> a / c >= 0.0
    ensures a / c == 1.0 <==> a == c
  {
    var q := a / c;
    assert q * c == a;
    ScaleLeAt(q, 1.0, c, a, c);
    ScaleLeAt(1.0, q, c, c, a);
    ScaleLeAt(-1.0, q, c, -c, a);
    ScaleLeAt(0.0, q, c, 0.0, a);
  }

  /** A dividend whose quotient truncates to `q` leaves `x - q * m`. */
  lemma TruncRemAt(x: real, m: real, q: int)
    requires m > 0.0
    requires x >= 0.0 ==> q as real * m <= x < q as real * m + m
    requires x < 0.0 ==> q as real * m - m < x <= q as real * m
    ensures TruncRem(x, m) == x - q as real * m
  {
    var t := Trunc(x / m);
    QuotientBounds(x, m, q);
    QuotientBounds(x, m, t);
    assert t == q;
  }

  /** `x.clamp(lo, hi)`; Rust panics when `lo > hi`. */
  function Clamp(x: real, lo: real, hi: real): (r: real)
    requires lo <= hi
    ensures lo <= r <= hi
    ensures lo <= x <= hi ==> r == x
    ensures x < lo ==> r == lo
    ensures x > hi ==> r == hi
  {
    if x < lo then lo else if x > hi then hi else x
  }
}
