/** OKLCH <-> linear RGB conversion (src/colorspace/oklch.rs): the polar form
    of OKLab. Square root, `atan2` and the trigonometric functions (in degrees)
    are routines supplied by the caller. */
module Oklch {
  import opened Numerics
  import opened Oklab

  /** A square root that is exact on non-negative arguments. */
  ghost predicate ExactSquareRoot(sqrt: real -> real) {
    forall x :: x >= 0.0 ==> sqrt(x) >= 0.0 && sqrt(x) * sqrt(x) == x
  }

  /** `atan2(..).to_degrees()` answers in `(-180, 180]`. */
  ghost predicate Atan2InRange(atan2Degrees: (real, real) -> real) {
    forall y, x :: -180.0 < atan2Degrees(y, x) <= 180.0
  }

  /** Cosine and sine never leave `[-1, 1]`. */
  ghost predicate BoundedTrig(cosDegrees: real -> real, sinDegrees: real -> real) {
    forall h :: -1.0 <= cosDegrees(h) <= 1.0 && -1.0 <= sinDegrees(h) <= 1.0
  }

  /** `x * x`, written as a product of two factors so that proofs unfold it
      only when they ask to (`SquareIsProduct`). */
  function Square(x: real): real {
    Product([x, x])
  }

  lemma SquareIsProduct(x: real)
    ensures Square(x) == x * x
  {
    assert [x, x][1..] == [x] && [x][1..] == [];
    assert Product([x]) == x;
  }

  /** The polar half of `rgb_to_oklch`: lightness kept, the length of `(a, b)`
      as chroma, and the angle of `(a, b)` in degrees as hue, a negative angle
      lifted by 360 so that every hue lands in `[0, 360)`. */
  function LchFromLab(l: real, a: real, b: real, std: Routines): (lch: Vec3)
    ensures lch[0] == l
    ensures -180.0 < std.atan2Degrees(b, a) <= 180.0 ==> 0.0 <= lch[2] < 360.0
  {
    var hue := std.atan2Degrees(b, a);
    [l, std.sqrt(Square(a) + Square(b)), if hue < 0.0 then hue + 360.0 else hue]
  }

  /** `rgb_to_oklch` */
  function RgbToOklch(r: real, g: real, b: real, std: Routines): (lch: Vec3)
    ensures lch[0] == RgbToOklab(r, g, b, std.cbrt)[0]
  {
    var lab := RgbToOklab(r, g, b, std.cbrt);
    LchFromLab(lab[0], lab[1], lab[2], std)
  }

  /** The Cartesian half of `oklch_to_rgb`: lightness kept, and the point at
      distance `c` in direction `h`, `(a, b) = c * (cos h, sin h)`; zero
      chroma is the neutral axis whatever the hue. */
  function LabFromLch(l: real, c: real, h: real, std: Routines): (lab: Vec3)
    ensures lab[0] == l
    ensures lab[1] == c * std.cosDegrees(h) && lab[2] == c * std.sinDegrees(h)
    ensures c == 0.0 ==> lab == [l, 0.0, 0.0]
  {
    [l, c * std.cosDegrees(h), c * std.sinDegrees(h)]
  }

  /** With unit-bounded cosine and sine at `h`, neither Cartesian coordinate
      exceeds the chroma. */
  lemma CartesianWithinChroma(l: real, c: real, h: real, std: Routines)
    requires c >= 0.0
    requires -1.0 <= std.cosDegrees(h) <= 1.0 && -1.0 <= std.sinDegrees(h) <= 1.0
    ensures var lab := LabFromLch(l, c, h, std);
      -c <= lab[1] <= c && -c <= lab[2] <= c
  {
    var lab := LabFromLch(l, c, h, std);
    var cos, sin := std.cosDegrees(h), std.sinDegrees(h);
    var x, y := c * cos, c * sin;
    assert x == lab[1] && y == lab[2];
    UnitScale(c, cos);
    UnitScale(c, sin);
  }

  lemma UnitScale(c: real, t: real)
    requires c >= 0.0 && -1.0 <= t <= 1.0
    ensures -c <= c * t <= c
  {
    if c > 0.0 {
      ScaleLe(t, 1.0, c);
      ScaleLe(-1.0, t, c);
    }
  }

  /** `oklch_to_rgb`: zero chroma gives the grey `L^3` whatever the hue. */
  function OklchToRgb(l: real, c: real, h: real, std: Routines): (rgb: Vec3)
    ensures c == 0.0 ==> rgb == [Cube(l), Cube(l), Cube(l)]
  {
    var lab := LabFromLch(l, c, h, std);
    OklabToRgb(lab[0], lab[1], lab[2])
  }

  /** Chroma is never negative, and hue always lands in `[0, 360)`. */
  lemma Ranges(r: real, g: real, b: real, std: Routines)
    requires ExactSquareRoot(std.sqrt)
    requires Atan2InRange(std.atan2Degrees)
    ensures var lch := RgbToOklch(r, g, b, std);
      lch[1] >= 0.0 && 0.0 <= lch[2] < 360.0
  {
    var lab := RgbToOklab(r, g, b, std.cbrt);
    ChromaNonNegative(lab[0], lab[1], lab[2], std);
    assert -180.0 < std.atan2Degrees(lab[2], lab[1]) <= 180.0;
  }

  lemma ChromaNonNegative(l: real, a: real, b: real, std: Routines)
    requires ExactSquareRoot(std.sqrt)
    ensures LchFromLab(l, a, b, std)[1] >= 0.0
  {
    SquareIsProduct(a);
    SquareIsProduct(b);
    SquarePositive(a);
    SquarePositive(b);
    assert std.sqrt(Square(a) + Square(b)) >= 0.0;
  }

  /** Zero chroma sits on OKLab's neutral axis whatever the hue: lightness `L`
      becomes the grey `L^3`. */
  lemma ZeroChromaIsGrey(l: real, h: real, std: Routines)
    ensures OklchToRgb(l, 0.0, h, std) == [l * l * l, l * l * l, l * l * l]
  {
    assert LabFromLch(l, 0.0, h, std) == [l, 0.0, 0.0];
    NeutralAxis(l);
  }

  /** The source's `black` test, exactly: black has lightness 0, chroma 0 and
      hue 0 (the angle of the origin, `atan2(0, 0)`), and comes back as black. */
  lemma BlackRoundTrip(std: Routines)
    requires std.cbrt(0.0) == 0.0 && std.sqrt(0.0) == 0.0 && std.atan2Degrees(0.0, 0.0) == 0.0
    ensures RgbToOklch(0.0, 0.0, 0.0, std) == [0.0, 0.0, 0.0]
    ensures OklchToRgb(0.0, 0.0, 0.0, std) == [0.0, 0.0, 0.0]
  {
    Oklab.BlackRoundTrip(std.cbrt);
    assert LchFromLab(0.0, 0.0, 0.0, std) == [0.0, 0.0, 0.0];
    ZeroChromaIsGrey(0.0, 0.0, std);
  }

  /** What the white-point chroma needs of `sqrt`: it sends `[0, 2e-14]` into
      `[0, 5e-7]`. */
  ghost predicate AccurateNearZero(sqrt: real -> real) {
    forall x :: 0.0 <= x <= 0.00000000000002 ==> 0.0 <= sqrt(x) <= 0.0000005
  }

  /** An exact square root is accurate near zero. */
  lemma ExactIsAccurateNearZero(sqrt: real -> real)
    requires ExactSquareRoot(sqrt)
    ensures AccurateNearZero(sqrt)
  {
    forall x | 0.0 <= x <= 0.00000000000002
      ensures 0.0 <= sqrt(x) <= 0.0000005
    {
      SmallRoot(sqrt(x), x);
    }
  }

  lemma SmallRoot(y: real, x: real)
    requires y >= 0.0 && y * y == x && x <= 0.00000000000002
    ensures y <= 0.0000005
  {
    if y > 0.0000005 {
      ScaleLe(0.0000005, y, y);
      ScaleLe(0.0000005, y, 0.0000005);
    }
  }

  /** Two coordinates within `1e-7` of 0 have a squared length of at most `2e-14`. */
  lemma SmallSquares(a: real, b: real)
    requires -0.0000001 <= a <= 0.0000001 && -0.0000001 <= b <= 0.0000001
    ensures 0.0 <= a * a + b * b <= 0.00000000000002
  {
    MulBound(a, a, 0.0000001, 0.0000001);
    MulBound(b, b, 0.0000001, 0.0000001);
    SquarePositive(a);
    SquarePositive(b);
  }

  /** Near the OKLab origin the chroma is below `5e-7`. */
  lemma NearNeutralChroma(l: real, a: real, b: real, std: Routines)
    requires AccurateNearZero(std.sqrt)
    requires -0.0000001 <= a <= 0.0000001 && -0.0000001 <= b <= 0.0000001
    ensures 0.0 <= LchFromLab(l, a, b, std)[1] <= 0.0000005
  {
    SquareIsProduct(a);
    SquareIsProduct(b);
    SmallSquares(a, b);
  }

  /** Any OKLCH colour with lightness within `5e-7` of 1 and chroma below
      `5e-7` converts to within `1e-4` of white, whatever its hue. */
  lemma NearWhiteToRgb(l: real, c: real, h: real, std: Routines)
    requires 1.0 - 0.0000005 <= l <= 1.0 + 0.0000005
    requires 0.0 <= c <= 0.0000005
    requires BoundedTrig(std.cosDegrees, std.sinDegrees)
    ensures var rgb := OklchToRgb(l, c, h, std);
      && 1.0 - 0.0001 < rgb[0] < 1.0 + 0.0001
      && 1.0 - 0.0001 < rgb[1] < 1.0 + 0.0001
      && 1.0 - 0.0001 < rgb[2] < 1.0 + 0.0001
  {
    var lab := LabFromLch(l, c, h, std);
    assert -1.0 <= std.cosDegrees(h) <= 1.0 && -1.0 <= std.sinDegrees(h) <= 1.0;
    CartesianWithinChroma(l, c, h, std);
    Oklab.NearWhiteToRgb(lab[0], lab[1], lab[2]);
  }

  /** The lightness and chroma half of the source's `white` test, for a cube
      root accurate at white and a square root accurate near zero (exact roots
      are both): white has lightness and chroma within `1e-4` of 1 and 0, and
      whatever its hue, converts back to within `1e-4` of white. */
  lemma WhiteRoundTrip(std: Routines)
    requires AccurateAtWhite(std.cbrt) && AccurateNearZero(std.sqrt)
    requires BoundedTrig(std.cosDegrees, std.sinDegrees)
    ensures var lch := RgbToOklch(1.0, 1.0, 1.0, std);
      var rgb := OklchToRgb(lch[0], lch[1], lch[2], std);
      && 1.0 - 0.0001 < lch[0] < 1.0 + 0.0001
      && -0.0001 < lch[1] < 0.0001
      && 1.0 - 0.0001 < rgb[0] < 1.0 + 0.0001
      && 1.0 - 0.0001 < rgb[1] < 1.0 + 0.0001
      && 1.0 - 0.0001 < rgb[2] < 1.0 + 0.0001
  {
    var lab := RgbToOklab(1.0, 1.0, 1.0, std.cbrt);
    WhiteToOklab(std.cbrt);
    NearNeutralChroma(lab[0], lab[1], lab[2], std);
    var lch := LchFromLab(lab[0], lab[1], lab[2], std);
    assert lch == RgbToOklch(1.0, 1.0, 1.0, std);
    NearWhiteToRgb(lch[0], lch[1], lch[2], std);
  }
}
