/** HSV <-> RGB conversion (src/colorspace/hsv.rs). Hue is in degrees,
    saturation and value are unit-scaled. */
module Hsv {
  import opened Numerics

  /** The `(r1, g1, b1)` chroma triple chosen by the 60-degree sector that
      `hp = h / 60` falls in; anything outside `[0, 5)` takes the last arm. */
  function Sector(hp: real, c: real, x: real): Vec3 {
    if 0.0 <= hp < 1.0 then [c, x, 0.0]
    else if 1.0 <= hp < 2.0 then [x, c, 0.0]
    else if 2.0 <= hp < 3.0 then [0.0, c, x]
    else if 3.0 <= hp < 4.0 then [0.0, x, c]
    else if 4.0 <= hp < 5.0 then [x, 0.0, c]
    else [c, 0.0, x]
  }

  /** The secondary component `x = c * (1 - |(hp % 2) - 1|)`, with a truncated `%`. */
  function Secondary(hp: real, c: real): real {
    c * (1.0 - Abs(TruncRem(hp, 2.0) - 1.0))
  }

  /** `hsv_to_rgb`: with no saturation every channel is the value, whatever
      the hue. */
  function HsvToRgb(h: real, s: real, v: real): (rgb: Vec3)
    ensures s == 0.0 ==> rgb == [v, v, v]
  {
    var c := v * s;
    var hp := h / 60.0;
    ZeroFactor(v, s);
    ZeroFactor(c, 1.0 - Abs(TruncRem(hp, 2.0) - 1.0));
    var t := Sector(hp, c, Secondary(hp, c));
    var m := v - c;
    [t[0] + m, t[1] + m, t[2] + m]
  }

  /** The hue if-chain of `rgb_to_hsv`, before negative hues are lifted by 360. */
  function RawHue(r: real, g: real, b: real): real {
    var xmax, xmin := Max3(r, g, b), Min3(r, g, b);
    var c := xmax - xmin;
    if c == 0.0 then 0.0
    else if xmax == r then 60.0 * TruncRem((g - b) / c, 6.0)
    else if xmax == g then 60.0 * ((b - r) / c + 2.0)
    else if xmax == b then 60.0 * ((r - g) / c + 4.0)
    else 0.0
  }

  /** `rgb_to_hsv`: hue in `[0, 360)` for every input, value the largest
      channel, and hue exactly 0 for an achromatic colour. */
  function RgbToHsv(r: real, g: real, b: real): (hsv: Vec3)
    ensures 0.0 <= hsv[0] < 360.0
    ensures hsv[2] == Max3(r, g, b)
    ensures Max3(r, g, b) == Min3(r, g, b) ==> hsv[0] == 0.0 && hsv[1] == 0.0
    ensures Max3(r, g, b) == 0.0 ==> hsv[1] == 0.0
    ensures r >= 0.0 && g >= 0.0 && b >= 0.0 ==> 0.0 <= hsv[1] <= 1.0
  {
    var xmax, xmin := Max3(r, g, b), Min3(r, g, b);
    var c := xmax - xmin;
    var raw := RawHue(r, g, b);
    var h := if raw < 0.0 then raw + 360.0 else raw;
    var s := if xmax == 0.0 then 0.0 else c / xmax;
    RawHueBounds(r, g, b);
    SaturationBounds(r, g, b);
    [h, s, xmax]
  }

  /** For non-negative channels the chroma never exceeds the largest channel. */
  lemma SaturationBounds(r: real, g: real, b: real)
    ensures var xmax := Max3(r, g, b);
      r >= 0.0 && g >= 0.0 && b >= 0.0 && xmax != 0.0 ==>
        0.0 <= (xmax - Min3(r, g, b)) / xmax <= 1.0
  {
    var xmax := Max3(r, g, b);
    if r >= 0.0 && g >= 0.0 && b >= 0.0 && xmax != 0.0 {
      UnitRatio(xmax - Min3(r, g, b), xmax);
    }
  }

  /** Each branch of the hue chain stays within its 120-degree window. */
  lemma RawHueBounds(r: real, g: real, b: real)
    ensures -60.0 <= RawHue(r, g, b) < 300.0
  {
    var xmax, xmin := Max3(r, g, b), Min3(r, g, b);
    var c := xmax - xmin;
    if c != 0.0 {
      if xmax == r {
        UnitRatio(g - b, c);
        TruncRemAt((g - b) / c, 6.0, 0);
      } else if xmax == g {
        UnitRatio(b - r, c);
      } else {
        UnitRatio(r - g, c);
        assert (r - g) / c != 1.0;
      }
    }
  }

  /** When the chroma is 0 the hue is exactly 0, whatever the channel values. */
  lemma AchromaticHueIsZero(r: real, g: real, b: real)
    requires Max3(r, g, b) - Min3(r, g, b) == 0.0
    ensures RgbToHsv(r, g, b)[0] == 0.0
    ensures r == g == b
  {
  }

  /** For a hue in `[0, 360)` and a non-negative chroma `v * s`, the largest
      output component is `v` and the smallest is `v - v * s`. */
  lemma HsvToRgbExtremes(h: real, s: real, v: real)
    requires 0.0 <= h < 360.0
    requires v * s >= 0.0
    ensures Max3(HsvToRgb(h, s, v)[0], HsvToRgb(h, s, v)[1], HsvToRgb(h, s, v)[2]) == v
    ensures Min3(HsvToRgb(h, s, v)[0], HsvToRgb(h, s, v)[1], HsvToRgb(h, s, v)[2]) == v - v * s
  {
    var c, hp := v * s, h / 60.0;
    HsvToRgbAt(h, s, v, c);
    var x := Secondary(hp, c);
    SecondaryBounds(hp, c);
    var t := Sector(hp, c, x);
    SectorExtremes(hp, c, x);
    ShiftExtremes(t[0], t[1], t[2], v - c);
  }

  /** For a non-negative sector index the secondary component lies in `[0, c]`. */
  lemma SecondaryBounds(hp: real, c: real)
    requires hp >= 0.0 && c >= 0.0
    ensures 0.0 <= Secondary(hp, c) <= c
  {
    var f := 1.0 - Abs(TruncRem(hp, 2.0) - 1.0);
    assert 0.0 <= f <= 1.0;
    if c > 0.0 {
      ScaleLe(f, 1.0, c);
      ScaleLe(0.0, f, c);
      assert f * c == Secondary(hp, c);
    }
  }

  /** Every sector is a permutation of `(c, x, 0)`. */
  lemma SectorExtremes(hp: real, c: real, x: real)
    requires 0.0 <= x <= c
    ensures var t := Sector(hp, c, x); Max3(t[0], t[1], t[2]) == c && Min3(t[0], t[1], t[2]) == 0.0
  {
  }

  lemma ShiftExtremes(a: real, b: real, d: real, m: real)
    ensures Max3(a + m, b + m, d + m) == Max3(a, b, d) + m
    ensures Min3(a + m, b + m, d + m) == Min3(a, b, d) + m
  {
  }

  /** Hues whose sector index `h / 60` lies outside `[0, 5)` — negative hues
      included — take the `(c, 0, x)` arm: red is `v` and green is `v - v * s`. */
  lemma OutOfRangeHueTakesLastSector(h: real, s: real, v: real)
    requires h / 60.0 < 0.0 || h / 60.0 >= 5.0
    ensures HsvToRgb(h, s, v)[0] == v
    ensures HsvToRgb(h, s, v)[1] == v - v * s
  {
  }

  /** rgb -> hsv -> rgb is exact over the reals for every colour except those
      whose largest channel is 0 while another is negative (there the
      saturation is forced to 0 and the colour is lost). In particular it is
      exact for every non-negative colour. */
  lemma {:induction false} RoundTrip(r: real, g: real, b: real)
    requires Max3(r, g, b) == 0.0 ==> Min3(r, g, b) == 0.0
    ensures var hsv := RgbToHsv(r, g, b); HsvToRgb(hsv[0], hsv[1], hsv[2]) == [r, g, b]
  {
    var xmax, xmin := Max3(r, g, b), Min3(r, g, b);
    if xmax == xmin {
      TruncRemAt(0.0, 2.0, 0);
      HsvToRgbAt(0.0, 0.0, xmax, 0.0);
    } else if xmax == r {
      RoundTripRedMax(r, g, b);
    } else if xmax == g {
      RoundTripGreenMax(r, g, b);
    } else {
      RoundTripBlueMax(r, g, b);
    }
  }

  lemma RoundTripRedMax(r: real, g: real, b: real)
    requires Max3(r, g, b) == r && r > Min3(r, g, b) && r != 0.0
    ensures var hsv := RgbToHsv(r, g, b); HsvToRgb(hsv[0], hsv[1], hsv[2]) == [r, g, b]
  {
    var c := r - Min3(r, g, b);
    var s := c / r;
    assert r * s == c;
    var q := (g - b) / c;
    UnitRatio(g - b, c);
    TruncRemAt(q, 6.0, 0);
    var hsv := RgbToHsv(r, g, b);
    assert hsv[0] == if q < 0.0 then 60.0 * q + 360.0 else 60.0 * q;
    assert hsv[1] == s;
    RedMaxFromHue(r, g, b, c, q, hsv[0], s);
  }

  lemma RoundTripGreenMax(r: real, g: real, b: real)
    requires Max3(r, g, b) == g && g != r && g > Min3(r, g, b) && g != 0.0
    ensures var hsv := RgbToHsv(r, g, b); HsvToRgb(hsv[0], hsv[1], hsv[2]) == [r, g, b]
  {
    var c := g - Min3(r, g, b);
    var s := c / g;
    assert g * s == c;
    var q := (b - r) / c;
    UnitRatio(b - r, c);
    var hsv := RgbToHsv(r, g, b);
    assert hsv[0] == 60.0 * (q + 2.0);
    assert hsv[1] == s;
    GreenMaxFromHue(r, g, b, c, q, hsv[0], s);
  }

  lemma RoundTripBlueMax(r: real, g: real, b: real)
    requires Max3(r, g, b) == b && b != r && b != g && b > Min3(r, g, b) && b != 0.0
    ensures var hsv := RgbToHsv(r, g, b); HsvToRgb(hsv[0], hsv[1], hsv[2]) == [r, g, b]
  {
    var c := b - Min3(r, g, b);
    var s := c / b;
    assert b * s == c;
    var q := (r - g) / c;
    UnitRatio(r - g, c);
    var hsv := RgbToHsv(r, g, b);
    assert hsv[0] == 60.0 * (q + 4.0);
    assert hsv[1] == s;
    BlueMaxFromHue(r, g, b, c, q, hsv[0], s);
  }

  /** `HsvToRgb` unfolded once the chroma `v * s` is known to be `c`. */
  lemma HsvToRgbAt(h: real, s: real, v: real, c: real)
    requires v * s == c
    ensures var hp := h / 60.0;
      var t := Sector(hp, c, Secondary(hp, c));
      HsvToRgb(h, s, v) == [t[0] + v - c, t[1] + v - c, t[2] + v - c]
  {
  }

  /** Red is the largest channel: the hue is `60 q` (lifted by 360 when
      negative), where `q c = g - b`. */
  lemma RedMaxFromHue(r: real, g: real, b: real, c: real, q: real, h: real, s: real)
    requires c > 0.0 && r * s == c && q * c == g - b && -1.0 <= q <= 1.0
    requires q >= 0.0 ==> b == r - c && h == 60.0 * q
    requires q < 0.0 ==> g == r - c && h == 60.0 * q + 360.0
    ensures HsvToRgb(h, s, r) == [r, g, b]
  {
    HsvToRgbAt(h, s, r, c);
    var hp := h / 60.0;
    if q >= 0.0 {
      assert hp == q;
      if q < 1.0 {
        TruncRemAt(hp, 2.0, 0);
        assert Secondary(hp, c) == c * q;
      } else {
        TruncRemAt(hp, 2.0, 0);
        assert Secondary(hp, c) == c;
      }
    } else {
      assert hp == q + 6.0;
      TruncRemAt(hp, 2.0, 2);
      assert Secondary(hp, c) == c * (1.0 - (q + 1.0));
    }
  }

  /** Green is the largest channel (and red is not): the hue is `60 (q + 2)`,
      where `q c = b - r`. */
  lemma GreenMaxFromHue(r: real, g: real, b: real, c: real, q: real, h: real, s: real)
    requires c > 0.0 && g * s == c && q * c == b - r && -1.0 <= q <= 1.0
    requires h == 60.0 * (q + 2.0)
    requires q >= 0.0 ==> r == g - c
    requires q < 0.0 ==> b == g - c
    ensures HsvToRgb(h, s, g) == [r, g, b]
  {
    HsvToRgbAt(h, s, g, c);
    var hp := h / 60.0;
    assert hp == q + 2.0;
    if q < 0.0 {
      TruncRemAt(hp, 2.0, 0);
      assert Secondary(hp, c) == c * (1.0 - (q + 1.0));
    } else if q < 1.0 {
      TruncRemAt(hp, 2.0, 1);
      assert Secondary(hp, c) == c * q;
    } else {
      TruncRemAt(hp, 2.0, 1);
      assert Secondary(hp, c) == c;
    }
  }

  /** Blue is the largest channel (red and green are not): the hue is
      `60 (q + 4)`, where `q c = r - g`. */
  lemma BlueMaxFromHue(r: real, g: real, b: real, c: real, q: real, h: real, s: real)
    requires c > 0.0 && b * s == c && q * c == r - g && -1.0 <= q < 1.0
    requires h == 60.0 * (q + 4.0)
    requires q >= 0.0 ==> g == b - c
    requires q < 0.0 ==> r == b - c
    ensures HsvToRgb(h, s, b) == [r, g, b]
  {
    HsvToRgbAt(h, s, b, c);
    var hp := h / 60.0;
    assert hp == q + 4.0;
    if q < 0.0 {
      TruncRemAt(hp, 2.0, 1);
      assert Secondary(hp, c) == c * (1.0 - (q + 1.0));
    } else {
      TruncRemAt(hp, 2.0, 2);
      assert Secondary(hp, c) == c * q;
    }
  }

  /** The five colours the source's tests use map to the asserted HSV triples exactly. */
  lemma TestColoursToHsv()
    ensures RgbToHsv(1.0, 1.0, 1.0) == [0.0, 0.0, 1.0]
    ensures RgbToHsv(0.0, 0.0, 0.0) == [0.0, 0.0, 0.0]
    ensures RgbToHsv(1.0, 0.0, 0.0) == [0.0, 1.0, 1.0]
    ensures RgbToHsv(0.0, 1.0, 0.0) == [120.0, 1.0, 1.0]
    ensures RgbToHsv(0.0, 0.0, 1.0) == [240.0, 1.0, 1.0]
  {
    TruncRemAt(0.0, 6.0, 0);
  }

  /** ... and those HSV triples map back to the original colours exactly. */
  lemma TestColoursRoundTrip()
    ensures HsvToRgb(0.0, 0.0, 1.0) == [1.0, 1.0, 1.0]
    ensures HsvToRgb(0.0, 0.0, 0.0) == [0.0, 0.0, 0.0]
    ensures HsvToRgb(0.0, 1.0, 1.0) == [1.0, 0.0, 0.0]
    ensures HsvToRgb(120.0, 1.0, 1.0) == [0.0, 1.0, 0.0]
    ensures HsvToRgb(240.0, 1.0, 1.0) == [0.0, 0.0, 1.0]
  {
    TestColoursToHsv();
    RoundTrip(1.0, 1.0, 1.0);
    RoundTrip(0.0, 0.0, 0.0);
    RoundTrip(1.0, 0.0, 0.0);
    RoundTrip(0.0, 1.0, 0.0);
    RoundTrip(0.0, 0.0, 1.0);
  }
}
