/** OKLab <-> linear RGB conversion (src/colorspace/oklab.rs), with Björn
    Ottosson's published matrices written out to the source's ten decimals.
    The cube root is the `cbrt` routine supplied by the caller. */
module Oklab {
  import opened Numerics

  /** A cube root that is exact: what an ideal `f32::cbrt` would return. */
  ghost predicate ExactCubeRoot(cbrt: real -> real) {
    forall x :: cbrt(x) * cbrt(x) * cbrt(x) == x
  }

  /** First stage of `rgb_to_oklab`: linear RGB to the cone responses `l, m, s`.
      Every row has non-negative coefficients, so light in gives light out, and
      a grey lands on the (almost) equal response the matrix was fitted to. */
  function Lms(r: real, g: real, b: real): (lms: Vec3)
    ensures r >= 0.0 && g >= 0.0 && b >= 0.0 ==> lms[0] >= 0.0 && lms[1] >= 0.0 && lms[2] >= 0.0
    ensures r == g == b ==> lms == [r, 0.9999999999 * r, r]
  {
    [0.4122214708 * r + 0.5363325363 * g + 0.0514459929 * b,
     0.2119034982 * r + 0.6806995451 * g + 0.1073969566 * b,
     0.0883024619 * r + 0.2817188376 * g + 0.6299787005 * b]
  }

  /** Second stage of `rgb_to_oklab`: cube-rooted responses to `L, a, b`. */
  function LabFromRoots(l: real, m: real, s: real): Vec3 {
    [0.2104542553 * l + 0.7936177850 * m - 0.0040720468 * s,
     1.9779984951 * l - 2.4285922050 * m + 0.4505937099 * s,
     0.0259040371 * l + 0.7827717662 * m - 0.8086757660 * s]
  }

  /** `rgb_to_oklab`: with a cube root that keeps 0, black is the origin. */
  function RgbToOklab(r: real, g: real, b: real, cbrt: real -> real): (lab: Vec3)
    ensures cbrt(0.0) == 0.0 && r == 0.0 && g == 0.0 && b == 0.0 ==> lab == [0.0, 0.0, 0.0]
  {
    var lms := Lms(r, g, b);
    LabFromRoots(cbrt(lms[0]), cbrt(lms[1]), cbrt(lms[2]))
  }

  /** First stage of `oklab_to_rgb`: `L, a, b` to the cube-rooted responses.
      On the neutral axis (`a = b = 0`) all three equal the lightness. */
  function Roots(l: real, a: real, b: real): (roots: Vec3)
    ensures a == 0.0 && b == 0.0 ==> roots == [l, l, l]
  {
    [l + 0.3963377774 * a + 0.2158037573 * b,
     l - 0.1055613458 * a - 0.0638541728 * b,
     l - 0.0894841775 * a - 1.2914855480 * b]
  }

  /** Last stage of `oklab_to_rgb`: cubed responses to linear RGB. Every row's
      coefficients sum to exactly 1, so equal responses give that grey. */
  function RgbFromLms(l: real, m: real, s: real): (rgb: Vec3)
    ensures l == m == s ==> rgb == [l, l, l]
  {
    [4.0767416621 * l - 3.3077115913 * m + 0.2309699292 * s,
     -1.2684380046 * l + 2.6097574011 * m - 0.3413193965 * s,
     -0.0041960863 * l - 0.7034186147 * m + 1.7076147010 * s]
  }

  /** The product of a sequence of factors. */
  function Product(xs: seq<real>): real
    decreases |xs|
  {
    if xs == [] then 1.0 else xs[0] * Product(xs[1..])
  }

  /** `x * x * x`, the cube `oklab_to_rgb` takes of each root. It is written as
      a product of three factors so that proofs unfold it only when they ask to
      (`CubeIsProduct`). */
  function Cube(x: real): real {
    Product([x, x, x])
  }

  /** The cube is the triple product. */
  lemma CubeIsProduct(x: real)
    ensures Cube(x) == x * x * x
  {
    assert [x, x, x][1..] == [x, x] && [x, x][1..] == [x] && [x][1..] == [];
    assert Product([x]) == x;
    assert Product([x, x]) == x * x;
  }

  /** `oklab_to_rgb`: the neutral axis `(L, 0, 0)` gives the grey `L^3`. */
  function OklabToRgb(l: real, a: real, b: real): (rgb: Vec3)
    ensures a == 0.0 && b == 0.0 ==> rgb == [Cube(l), Cube(l), Cube(l)]
  {
    var roots := Roots(l, a, b);
    RgbFromLms(Cube(roots[0]), Cube(roots[1]), Cube(roots[2]))
  }

  /** The neutral axis maps to greys: lightness `L` with no chroma is the
      grey `L^3` in every channel, so `(1, 0, 0)` is white and `(0, 0, 0)` black. */
  lemma NeutralAxis(l: real)
    ensures OklabToRgb(l, 0.0, 0.0) == [l * l * l, l * l * l, l * l * l]
    ensures OklabToRgb(1.0, 0.0, 0.0) == [1.0, 1.0, 1.0]
    ensures OklabToRgb(0.0, 0.0, 0.0) == [0.0, 0.0, 0.0]
  {
    CubeIsProduct(l);
    assert Roots(l, 0.0, 0.0) == [l, l, l];
    assert RgbFromLms(Cube(l), Cube(l), Cube(l)) == [Cube(l), Cube(l), Cube(l)];
    assert Roots(1.0, 0.0, 0.0) == [1.0, 1.0, 1.0];
    assert RgbFromLms(1.0, 1.0, 1.0) == [1.0, 1.0, 1.0];
    assert Roots(0.0, 0.0, 0.0) == [0.0, 0.0, 0.0];
    assert RgbFromLms(0.0, 0.0, 0.0) == [0.0, 0.0, 0.0];
  }

  /** Black goes to the OKLab origin and back, for any cube root that sends 0 to 0. */
  lemma BlackRoundTrip(cbrt: real -> real)
    requires cbrt(0.0) == 0.0
    ensures RgbToOklab(0.0, 0.0, 0.0, cbrt) == [0.0, 0.0, 0.0]
    ensures OklabToRgb(0.0, 0.0, 0.0) == [0.0, 0.0, 0.0]
  {
    assert Lms(0.0, 0.0, 0.0) == [0.0, 0.0, 0.0];
    NeutralAxis(0.0);
  }

  /** Cubing is strictly increasing. */
  lemma CubeMonotone(x: real, y: real)
    requires x < y
    ensures Cube(x) < Cube(y)
  {
    var d := y - x;
    CubeIsProduct(x);
    CubeIsProduct(y);
    assert Cube(y) - Cube(x) == d * (x * x + x * y + y * y);
    var u := x + y / 2.0;
    assert x * x + x * y + y * y == u * u + 3.0 / 4.0 * (y * y);
    SquarePositive(y);
    SquarePositive(u);
    assert u != 0.0 || y != 0.0;
    ScaleLe(0.0, x * x + x * y + y * y, d);
  }

  lemma SquarePositive(z: real)
    ensures z != 0.0 ==> z * z > 0.0
  {
    if z > 0.0 {
      ScaleLe(0.0, z, z);
    } else if z < 0.0 {
      ScaleLe(z, 0.0, -z);
    }
  }

  /** An exact cube root of a value in `[0, 1]` lies between the value and 1. */
  lemma RootOfUnitInterval(cbrt: real -> real, x: real)
    requires ExactCubeRoot(cbrt)
    requires 0.0 <= x <= 1.0
    ensures x <= cbrt(x) <= 1.0
  {
    var y := cbrt(x);
    CubeIsProduct(y);
    assert Cube(y) == x;
    if y > 1.0 {
      CubeMonotone(1.0, y);
    }
    if y < x {
      if y <= 0.0 {
        CubeMonotone(y, 0.0);
      } else {
        ScaleLe(y, 1.0, y);
        ScaleLe(y * y, 1.0, y);
      }
    }
  }

  /** What the white-point properties need of `cbrt`: exact at 1, and between
      its argument and 1 at `0.9999999999`, white's m response. */
  predicate AccurateAtWhite(cbrt: real -> real) {
    cbrt(1.0) == 1.0 && 0.9999999999 <= cbrt(0.9999999999) <= 1.0
  }

  /** An exact cube root is accurate at white. */
  lemma ExactIsAccurateAtWhite(cbrt: real -> real)
    requires ExactCubeRoot(cbrt)
    ensures AccurateAtWhite(cbrt)
  {
    RootOfUnitInterval(cbrt, 1.0);
    RootOfUnitInterval(cbrt, 0.9999999999);
  }

  /** White converts to within `1e-7` of `(1, 0, 0)`: the l and s responses to
      white are exactly 1 and the m response is `0.9999999999`, so only the m
      root carries an error. */
  lemma WhiteToOklab(cbrt: real -> real)
    requires AccurateAtWhite(cbrt)
    ensures var lab := RgbToOklab(1.0, 1.0, 1.0, cbrt);
      && 1.0 - 0.0000001 <= lab[0] <= 1.0
      && -0.0000001 <= lab[1] <= 0.0000001
      && -0.0000001 <= lab[2] <= 0.0000001
  {
    var lms := Lms(1.0, 1.0, 1.0);
    assert lms == [1.0, 0.9999999999, 1.0];
  }

  /** Bounds on the cube of a number close to 1. */
  lemma CubeNearOne(x: real)
    requires 1.0 - 0.000002 <= x <= 1.0 + 0.000002
    ensures 1.0 - 0.00001 <= Cube(x) <= 1.0 + 0.00001
  {
    if x < 1.0 + 0.000002 {
      CubeMonotone(x, 1.0 + 0.000002);
    }
    if 1.0 - 0.000002 < x {
      CubeMonotone(1.0 - 0.000002, x);
    }
  }

  /** Any OKLab colour within `5e-7` of `(1, 0, 0)` converts to within `1e-4`
      of white in every channel: the tolerance the source's tests accept. */
  lemma NearWhiteToRgb(l: real, a: real, b: real)
    requires 1.0 - 0.0000005 <= l <= 1.0 + 0.0000005
    requires -0.0000005 <= a <= 0.0000005 && -0.0000005 <= b <= 0.0000005
    ensures var rgb := OklabToRgb(l, a, b);
      && 1.0 - 0.0001 < rgb[0] < 1.0 + 0.0001
      && 1.0 - 0.0001 < rgb[1] < 1.0 + 0.0001
      && 1.0 - 0.0001 < rgb[2] < 1.0 + 0.0001
  {
    var roots := Roots(l, a, b);
    RootNearOne(l, a, b, 0.3963377774, 0.2158037573);
    RootNearOne(l, a, b, -0.1055613458, -0.0638541728);
    RootNearOne(l, a, b, -0.0894841775, -1.2914855480);
    CubeNearOne(roots[0]);
    CubeNearOne(roots[1]);
    CubeNearOne(roots[2]);
  }

  lemma RootNearOne(l: real, a: real, b: real, p: real, q: real)
    requires 1.0 - 0.0000005 <= l <= 1.0 + 0.0000005
    requires -0.0000005 <= a <= 0.0000005 && -0.0000005 <= b <= 0.0000005
    requires -1.0 <= p <= 1.0 && -1.3 <= q <= 1.3
    ensures 1.0 - 0.000002 <= l + p * a + q * b <= 1.0 + 0.000002
  {
    MulBound(p, a, 1.0, 0.0000005);
    MulBound(q, b, 1.3, 0.0000005);
  }

  /** `|p| <= P` and `|x| <= X` give `|p * x| <= P * X`. */
  lemma MulBound(p: real, x: real, bp: real, bx: real)
    requires -bp <= p <= bp && -bx <= x <= bx
    ensures -(bp * bx) <= p * x <= bp * bx
  {
    var ap, ax := Abs(p), Abs(x);
    var px, apx, bpx, bpbx := p * x, ap * ax, bp * ax, bp * bx;
    if p >= 0.0 && x >= 0.0 {
      assert px == apx;
    } else if p >= 0.0 {
      assert px == -apx;
    } else if x >= 0.0 {
      assert px == -apx;
    } else {
      assert px == apx;
    }
    if ax > 0.0 {
      ScaleLeAt(ap, bp, ax, apx, bpx);
    } else {
      assert apx == 0.0 && bpx == 0.0;
    }
    if bp > 0.0 {
      ScaleLeAt(ax, bx, bp, bpx, bpbx);
    } else {
      assert bpx == 0.0 && bpbx == 0.0;
    }
  }

  /** The source's `white` test, for a cube root accurate at white (an exact
      one is): white converts to within `1e-4` of `(1, 0, 0)` and comes back
      within `1e-4` of white. */
  lemma WhiteRoundTrip(cbrt: real -> real)
    requires AccurateAtWhite(cbrt)
    ensures var lab := RgbToOklab(1.0, 1.0, 1.0, cbrt);
      var rgb := OklabToRgb(lab[0], lab[1], lab[2]);
      && 1.0 - 0.0001 < lab[0] < 1.0 + 0.0001
      && -0.0001 < lab[1] < 0.0001 && -0.0001 < lab[2] < 0.0001
      && 1.0 - 0.0001 < rgb[0] < 1.0 + 0.0001
      && 1.0 - 0.0001 < rgb[1] < 1.0 + 0.0001
      && 1.0 - 0.0001 < rgb[2] < 1.0 + 0.0001
  {
    var lab := RgbToOklab(1.0, 1.0, 1.0, cbrt);
    WhiteToOklab(cbrt);
    NearWhiteToRgb(lab[0], lab[1], lab[2]);
  }
}
