/** CMYK <-> RGB conversion (src/colorspace/cmyk.rs). */
module Cmyk {
  import opened Numerics

  /** `cmyk_to_rgb` exactly as the source writes it: `(1 - ch + k) * (1 - k)`
      per channel, which is what a CMYK card reads back as. It is not the inverse
      of `RgbToCmyk` (see `GreyCounterexample` and `AsWrittenRoundTrip`). */
  function CmykToRgbAsWritten(c: real, m: real, y: real, k: real): (rgb: Vec3)
    ensures k == 1.0 ==> rgb == [0.0, 0.0, 0.0]
    ensures k == 0.0 ==> rgb == [1.0 - c, 1.0 - m, 1.0 - y]
  {
    var invK := 1.0 - k;
    KeyEnds(1.0 - c + k, k);
    KeyEnds(1.0 - m + k, k);
    KeyEnds(1.0 - y + k, k);
    [(1.0 - c + k) * invK, (1.0 - m + k) * invK, (1.0 - y + k) * invK]
  }

  /** The evidently intended inverse: `(1 - ch) * (1 - k)` per channel
      (`RoundTrip` proves it undoes `RgbToCmyk`). */
  function CmykToRgb(c: real, m: real, y: real, k: real): (rgb: Vec3)
    ensures k == 1.0 ==> rgb == [0.0, 0.0, 0.0]
    ensures k == 0.0 ==> rgb == [1.0 - c, 1.0 - m, 1.0 - y]
  {
    var invK := 1.0 - k;
    KeyEnds(1.0 - c, k);
    KeyEnds(1.0 - m, k);
    KeyEnds(1.0 - y, k);
    [(1.0 - c) * invK, (1.0 - m) * invK, (1.0 - y) * invK]
  }

  /** Scaling by `1 - k` at the ends of the key's range. */
  lemma KeyEnds(x: real, k: real)
    ensures k == 1.0 ==> x * (1.0 - k) == 0.0
    ensures k == 0.0 ==> x * (1.0 - k) == x
  {
  }

  /** `rgb_to_cmyk`: a near-black colour (largest channel at most
      `f32::EPSILON`) is exactly `[0, 0, 0, 1]`, which keeps the division
      away from zero; otherwise the key is `1 - max`. */
  function RgbToCmyk(r: real, g: real, b: real): (cmyk: Vec4)
    ensures Max3(r, g, b) <= F32_EPSILON ==> cmyk == [0.0, 0.0, 0.0, 1.0]
    ensures Max3(r, g, b) > F32_EPSILON ==> cmyk[3] == 1.0 - Max3(r, g, b)
  {
    var invK := Max3(r, g, b);
    if invK <= F32_EPSILON then
      [0.0, 0.0, 0.0, 1.0]
    else
      var k := 1.0 - invK;
      [(1.0 - r - k) / invK, (1.0 - g - k) / invK, (1.0 - b - k) / invK, k]
  }

  /** Outside the near-black guard, a channel gets no ink exactly when it is
      the largest channel. */
  lemma NoInkAtMax(r: real, g: real, b: real)
    requires Max3(r, g, b) > F32_EPSILON
    ensures var cmyk, x := RgbToCmyk(r, g, b), Max3(r, g, b);
      (cmyk[0] == 0.0 <==> r == x) && (cmyk[1] == 0.0 <==> g == x) && (cmyk[2] == 0.0 <==> b == x)
  {
    var invK := Max3(r, g, b);
    InkIsZeroAtMax(r, invK);
    InkIsZeroAtMax(g, invK);
    InkIsZeroAtMax(b, invK);
  }

  lemma InkIsZeroAtMax(x: real, invK: real)
    requires invK > 0.0
    ensures (1.0 - x - (1.0 - invK)) / invK == 0.0 <==> x == invK
  {
    var q := (1.0 - x - (1.0 - invK)) / invK;
    assert q * invK == invK - x;
  }

  /** For channels in `[0, 1]` that are not near-black, every ink lies in
      `[0, 1]` and the key in `[0, 1)`. */
  lemma InkBounds(r: real, g: real, b: real)
    requires 0.0 <= r <= 1.0 && 0.0 <= g <= 1.0 && 0.0 <= b <= 1.0
    requires Max3(r, g, b) > F32_EPSILON
    ensures var cmyk := RgbToCmyk(r, g, b);
      0.0 <= cmyk[0] <= 1.0 && 0.0 <= cmyk[1] <= 1.0 && 0.0 <= cmyk[2] <= 1.0 &&
      0.0 <= cmyk[3] < 1.0
  {
    var invK := Max3(r, g, b);
    UnitRatio(invK - r, invK);
    UnitRatio(invK - g, invK);
    UnitRatio(invK - b, invK);
    assert 1.0 - r - (1.0 - invK) == invK - r;
    assert 1.0 - g - (1.0 - invK) == invK - g;
    assert 1.0 - b - (1.0 - invK) == invK - b;
  }

  /** With a full key the source's inverse yields black whatever the inks. */
  lemma AsWrittenFullKeyIsBlack(c: real, m: real, y: real)
    ensures CmykToRgbAsWritten(c, m, y, 1.0) == [0.0, 0.0, 0.0]
  {
  }

  /** With the key at 0 or 1 (as in every colour the source's tests use) the
      source's inverse agrees with the intended one. */
  lemma AsWrittenAgreesAtExtremeKey(c: real, m: real, y: real, k: real)
    requires k == 0.0 || k == 1.0
    ensures CmykToRgbAsWritten(c, m, y, k) == CmykToRgb(c, m, y, k)
  {
  }

  /** Mid-grey: the source's inverse turns 0.5 into 0.75, so the source's
      rgb -> cmyk -> rgb round trip fails for any key strictly between 0 and 1. */
  lemma GreyCounterexample()
    ensures RgbToCmyk(0.5, 0.5, 0.5) == [0.0, 0.0, 0.0, 0.5]
    ensures CmykToRgbAsWritten(0.0, 0.0, 0.0, 0.5) == [0.75, 0.75, 0.75]
  {
  }

  /** The corrected inverse undoes `RgbToCmyk` exactly for every colour that
      is not near-black. */
  lemma RoundTrip(r: real, g: real, b: real)
    requires Max3(r, g, b) > F32_EPSILON
    ensures var cmyk := RgbToCmyk(r, g, b); CmykToRgb(cmyk[0], cmyk[1], cmyk[2], cmyk[3]) == [r, g, b]
  {
    var invK := Max3(r, g, b);
    var k := 1.0 - invK;
    var cmyk := RgbToCmyk(r, g, b);
    assert cmyk == [(1.0 - r - k) / invK, (1.0 - g - k) / invK, (1.0 - b - k) / invK, k];
    InkRoundTrip(r, invK);
    InkRoundTrip(g, invK);
    InkRoundTrip(b, invK);
    var back := CmykToRgb(cmyk[0], cmyk[1], cmyk[2], cmyk[3]);
    assert back[0] == r && back[1] == g && back[2] == b;
  }

  /** The source's inverse, applied to what `RgbToCmyk` gives a colour that
      is not near-black, adds `Drift(k)` to every channel, `k` being the key
      `1 - max`: the round trip is exact exactly when the largest channel is 1
      (key 0). */
  lemma AsWrittenRoundTrip(r: real, g: real, b: real)
    requires Max3(r, g, b) > F32_EPSILON
    ensures var cmyk, k := RgbToCmyk(r, g, b), 1.0 - Max3(r, g, b);
      CmykToRgbAsWritten(cmyk[0], cmyk[1], cmyk[2], cmyk[3]) == [r + Drift(k), g + Drift(k), b + Drift(k)]
    ensures var cmyk := RgbToCmyk(r, g, b);
      CmykToRgbAsWritten(cmyk[0], cmyk[1], cmyk[2], cmyk[3]) == [r, g, b] <==> Max3(r, g, b) == 1.0
  {
    var cmyk := RgbToCmyk(r, g, b);
    var k := 1.0 - Max3(r, g, b);
    assert cmyk[3] == k;
    RoundTrip(r, g, b);
    var fixed := CmykToRgb(cmyk[0], cmyk[1], cmyk[2], cmyk[3]);
    var asWritten := CmykToRgbAsWritten(cmyk[0], cmyk[1], cmyk[2], cmyk[3]);
    var drift := Drift(k);
    AddedKey(cmyk[0], k);
    AddedKey(cmyk[1], k);
    AddedKey(cmyk[2], k);
    assert asWritten[0] == fixed[0] + drift && fixed[0] == r;
    assert asWritten[1] == fixed[1] + drift && fixed[1] == g;
    assert asWritten[2] == fixed[2] + drift && fixed[2] == b;
    assert asWritten == [r + drift, g + drift, b + drift];
    KeyDrift(k);
    if drift != 0.0 {
      assert asWritten[0] != r;
    } else {
      assert asWritten == [r, g, b];
    }
  }

  lemma AddedKey(ink: real, k: real)
    ensures (1.0 - ink + k) * (1.0 - k) == (1.0 - ink) * (1.0 - k) + Drift(k)
  {
  }

  /** What the source's inverse adds to each channel at key `k`: the extra
      `+ k` inside `(1 - ch + k)`, scaled by `1 - k`. */
  function Drift(k: real): real {
    k * (1.0 - k)
  }

  /** Below 1, the drift has the sign of `k`: it vanishes only at 0. */
  lemma KeyDrift(k: real)
    requires k < 1.0
    ensures Drift(k) == 0.0 <==> k == 0.0
    ensures k > 0.0 ==> Drift(k) > 0.0
    ensures k < 0.0 ==> Drift(k) < 0.0
  {
    var d := 1.0 - k;
    if k > 0.0 {
      ScaleLe(0.0, k, d);
    } else if k < 0.0 {
      ScaleLe(k, 0.0, d);
    }
  }

  lemma InkRoundTrip(x: real, invK: real)
    requires invK > 0.0
    ensures (1.0 - (1.0 - x - (1.0 - invK)) / invK) * (1.0 - (1.0 - invK)) == x
  {
    var q := (1.0 - x - (1.0 - invK)) / invK;
    assert q * invK == invK - x;
    assert (1.0 - q) * invK == invK - q * invK;
  }

  /** Near-black colours come back as exact black, through the source's
      inverse as well as the corrected one. */
  lemma NearBlackRoundTrip(r: real, g: real, b: real)
    requires Max3(r, g, b) <= F32_EPSILON
    ensures var cmyk := RgbToCmyk(r, g, b); CmykToRgbAsWritten(cmyk[0], cmyk[1], cmyk[2], cmyk[3]) == [0.0, 0.0, 0.0]
    ensures var cmyk := RgbToCmyk(r, g, b); CmykToRgb(cmyk[0], cmyk[1], cmyk[2], cmyk[3]) == [0.0, 0.0, 0.0]
  {
  }

  /** A colour whose channels are each 0 or 1: black, white, the primaries
      and the secondaries (the source's tests use black, white, red, green, blue). */
  predicate IsCorner(r: real, g: real, b: real) {
    (r == 0.0 || r == 1.0) && (g == 0.0 || g == 1.0) && (b == 0.0 || b == 1.0)
  }

  /** The corner colours convert as the source's tests assert: black to
      `[0, 0, 0, 1]`, the others to their complements with no key. */
  lemma {:induction false} TestColoursToCmyk(r: real, g: real, b: real)
    requires IsCorner(r, g, b)
    ensures RgbToCmyk(r, g, b) == (if r == g == b == 0.0 then [0.0, 0.0, 0.0, 1.0] else [1.0 - r, 1.0 - g, 1.0 - b, 0.0])
  {
    if !(r == g == b == 0.0) {
      assert Max3(r, g, b) == 1.0;
      FullBrightness(r, g, b);
    }
  }

  /** The source's `white` test: white has no ink and no key, and comes back
      as white. */
  lemma WhiteTest()
    ensures RgbToCmyk(1.0, 1.0, 1.0) == [0.0, 0.0, 0.0, 0.0]
    ensures CmykToRgbAsWritten(0.0, 0.0, 0.0, 0.0) == [1.0, 1.0, 1.0]
  {
    FullBrightness(1.0, 1.0, 1.0);
  }

  /** The source's `black` test: black is all key, and comes back as black. */
  lemma BlackTest()
    ensures RgbToCmyk(0.0, 0.0, 0.0) == [0.0, 0.0, 0.0, 1.0]
    ensures CmykToRgbAsWritten(0.0, 0.0, 0.0, 1.0) == [0.0, 0.0, 0.0]
  {
  }

  /** The source's `red` test: red is magenta and yellow ink, and comes back
      as red. */
  lemma RedTest()
    ensures RgbToCmyk(1.0, 0.0, 0.0) == [0.0, 1.0, 1.0, 0.0]
    ensures CmykToRgbAsWritten(0.0, 1.0, 1.0, 0.0) == [1.0, 0.0, 0.0]
  {
    FullBrightness(1.0, 0.0, 0.0);
  }

  /** The source's `green` test: green is cyan and yellow ink, and comes back
      as green. */
  lemma GreenTest()
    ensures RgbToCmyk(0.0, 1.0, 0.0) == [1.0, 0.0, 1.0, 0.0]
    ensures CmykToRgbAsWritten(1.0, 0.0, 1.0, 0.0) == [0.0, 1.0, 0.0]
  {
    FullBrightness(0.0, 1.0, 0.0);
  }

  /** The source's `blue` test: blue is cyan and magenta ink, and comes back
      as blue. */
  lemma BlueTest()
    ensures RgbToCmyk(0.0, 0.0, 1.0) == [1.0, 1.0, 0.0, 0.0]
    ensures CmykToRgbAsWritten(1.0, 1.0, 0.0, 0.0) == [0.0, 0.0, 1.0]
  {
    FullBrightness(0.0, 0.0, 1.0);
  }

  /** Complementing a corner colour's channels and inverting with no key gives
      the colour back. */
  lemma CornerComplement(r: real, g: real, b: real)
    requires IsCorner(r, g, b)
    ensures CmykToRgbAsWritten(1.0 - r, 1.0 - g, 1.0 - b, 0.0) == [r, g, b]
    ensures CmykToRgb(1.0 - r, 1.0 - g, 1.0 - b, 0.0) == [r, g, b]
  {
  }

  /** A colour whose largest channel is 1 needs no key, and each ink is the
      channel's complement. */
  lemma FullBrightness(r: real, g: real, b: real)
    requires Max3(r, g, b) == 1.0
    ensures RgbToCmyk(r, g, b) == [1.0 - r, 1.0 - g, 1.0 - b, 0.0]
  {
  }
}
