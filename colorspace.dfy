/** The five-way colour-space card (src/colorspace.rs): which space a card is
    in, how each space's struct is built from RGB and read back as RGB, and
    the dispatch of edits and space switches. `Space` is a card as a value;
    `ColorSpace` is the enum holding the struct that is edited in place. */
module ColorSpaces {
  import opened Numerics
  import opened Cards
  import Hsv
  import Cmyk
  import Oklab
  import Oklch

  /** `ColorSpaceCombo`, the space a card is in; `RGB` is its default. */
  datatype Kind = RGB | HSV | OKLAB | OKLCH | CMYK

  /** The number of channels of a space's struct. */
  function Arity(kind: Kind): (n: nat)
    ensures n == 3 || n == 4
    ensures n == 4 <==> kind == CMYK
  {
    if kind == CMYK then 4 else 3
  }

  /** The conversion inside each struct's `from_rgb`. */
  function Encode(kind: Kind, rgb: Vec3, std: Routines): (vs: seq<real>)
    ensures |vs| == Arity(kind)
  {
    match kind
    case RGB => rgb
    case HSV => Hsv.RgbToHsv(rgb[0], rgb[1], rgb[2])
    case OKLAB => Oklab.RgbToOklab(rgb[0], rgb[1], rgb[2], std.cbrt)
    case OKLCH => Oklch.RgbToOklch(rgb[0], rgb[1], rgb[2], std)
    case CMYK => Cmyk.RgbToCmyk(rgb[0], rgb[1], rgb[2])
  }

  /** A card as a value: its space and its contents. */
  datatype Space = Space(kind: Kind, card: Card)
  {
    predicate Valid() {
      card.Valid() && |card.values| == Arity(kind)
    }

    /** `get_rgb`: each struct's `to_rgb`. The CMYK card reads back through
        the source's own `cmyk_to_rgb`, `Cmyk.CmykToRgbAsWritten`. An RGB card
        is its own colour; a CMYK card with a full key is black, and one with
        no key is the complement of its inks; an HSV card without saturation
        and an OKLab or OKLCH card without chroma are greys. */
    function GetRgb(std: Routines): (rgb: Vec3)
      requires Valid()
      ensures kind == RGB ==> rgb == card.values
      ensures kind == CMYK && card.values[3] == 1.0 ==> rgb == [0.0, 0.0, 0.0]
      ensures kind == CMYK && card.values[3] == 0.0 ==>
        rgb == [1.0 - card.values[0], 1.0 - card.values[1], 1.0 - card.values[2]]
      ensures kind == HSV && card.values[1] == 0.0 ==>
        rgb == [card.values[2], card.values[2], card.values[2]]
      ensures kind == OKLAB && card.values[1] == 0.0 && card.values[2] == 0.0 ==>
        rgb == [Oklab.Cube(card.values[0]), Oklab.Cube(card.values[0]), Oklab.Cube(card.values[0])]
      ensures kind == OKLCH && card.values[1] == 0.0 ==>
        rgb == [Oklab.Cube(card.values[0]), Oklab.Cube(card.values[0]), Oklab.Cube(card.values[0])]
    {
      var v := card.values;
      match kind
      case RGB => v
      case HSV => Hsv.HsvToRgb(v[0], v[1], v[2])
      case OKLAB => Oklab.OklabToRgb(v[0], v[1], v[2])
      case OKLCH => Oklch.OklchToRgb(v[0], v[1], v[2], std)
      case CMYK => Cmyk.CmykToRgbAsWritten(v[0], v[1], v[2], v[3])
    }

    /** `change_value`: the active struct's edit; the space never changes. */
    function ChangeValue(i: nat, v: real, std: Routines): (s: Space)
      requires Valid() && i < Arity(kind)
      ensures s.Valid() && s.kind == kind
    {
      Space(kind, EditValue(card, i, v, std.toString))
    }

    /** `change_string`: the active struct's edit; the space never changes. */
    function ChangeString(i: nat, text: string, std: Routines): (s: Space)
      requires Valid() && i < Arity(kind)
      ensures s.Valid() && s.kind == kind
    {
      Space(kind, EditText(card, i, text, std.parse))
    }
  }

  /** `X::from_rgb`, wrapped in the variant for `kind`. */
  function FromRgb(kind: Kind, rgb: Vec3, std: Routines): (s: Space)
    ensures s.Valid() && s.kind == kind && s.card.Synced(std.toString)
  {
    Space(kind, Loaded(Encode(kind, rgb, std), std.toString))
  }

  /** `ColorSpace::default`: an RGB card built from white, its strings the
      formatted values. */
  function Default(std: Routines): (d: Space)
    ensures d.Valid() && d.kind == RGB && d.card.values == [1.0, 1.0, 1.0] && d.card.Synced(std.toString)
  {
    FromRgb(RGB, [1.0, 1.0, 1.0], std)
  }

  /** `to_rgb`, `to_hsv`, `to_oklab`, `to_oklch`, `to_cmyk`: a new card of the
      target space built from this card's RGB. */
  function Convert(s: Space, target: Kind, std: Routines): (c: Space)
    requires s.Valid()
    ensures c.Valid() && c.kind == target && c.card.Synced(std.toString)
  {
    FromRgb(target, s.GetRgb(std), std)
  }

  /** `Rgb::default`: white, with the strings written as `"1"`. */
  function RgbDefault(): Card {
    Card([1.0, 1.0, 1.0], ["1", "1", "1"])
  }

  /** `Cmyk::default`: no ink and no key, with the strings written as `"0"`. */
  function CmykDefault(): Card {
    Card([0.0, 0.0, 0.0, 0.0], ["0", "0", "0", "0"])
  }

  /** `Rgb::default` is a well-formed white RGB card. */
  lemma RgbDefaultIsWhite(std: Routines)
    ensures Space(RGB, RgbDefault()).Valid()
    ensures Space(RGB, RgbDefault()).GetRgb(std) == [1.0, 1.0, 1.0]
  {
  }

  /** `Cmyk::default` is a well-formed CMYK card that reads as white, through
      the source's inverse as well as the corrected one. */
  lemma CmykDefaultIsWhite(std: Routines)
    ensures Space(CMYK, CmykDefault()).Valid()
    ensures Space(CMYK, CmykDefault()).GetRgb(std) == [1.0, 1.0, 1.0]
    ensures Cmyk.CmykToRgb(0.0, 0.0, 0.0, 0.0) == [1.0, 1.0, 1.0]
  {
  }

  /** `ColorSpace::default` is a white RGB card. It is built with `from_rgb`
      rather than `Rgb::default`; the two agree exactly when `1.0` formats as
      `"1"`, as Rust's `f32` formatting does. */
  lemma DefaultIsWhite(std: Routines)
    ensures Default(std).kind == RGB && Default(std).GetRgb(std) == [1.0, 1.0, 1.0]
    ensures Default(std) == Space(RGB, RgbDefault()) <==> std.toString(1.0) == "1"
  {
    var d := Default(std);
    assert d.card.strings == [std.toString(1.0), std.toString(1.0), std.toString(1.0)];
    if d == Space(RGB, RgbDefault()) {
      assert d.card.strings[0] == "1";
    }
  }

  /** The RGB card stores exactly the colour it was built from. */
  lemma RgbCardIsExact(rgb: Vec3, std: Routines)
    ensures FromRgb(RGB, rgb, std).GetRgb(std) == rgb
  {
  }

  /** Switching a card to RGB keeps its colour exactly, so switching to any
      space directly or by way of RGB gives the same card. */
  lemma ConvertViaRgb(s: Space, target: Kind, std: Routines)
    requires s.Valid()
    ensures Convert(s, RGB, std).GetRgb(std) == s.GetRgb(std)
    ensures Convert(Convert(s, RGB, std), target, std) == Convert(s, target, std)
  {
    RgbCardIsExact(s.GetRgb(std), std);
  }

  /** On an RGB card a numeric edit of channel `i` sets exactly that channel
      of the colour. */
  lemma RgbEdit(s: Space, i: nat, v: real, std: Routines)
    requires s.Valid() && s.kind == RGB && i < 3
    ensures s.ChangeValue(i, v, std).GetRgb(std) == s.GetRgb(std)[i := v]
  {
  }

  /** The HSV and CMYK cards bring back exactly the colour they were built
      from: HSV unless the largest channel is 0 while another is negative,
      CMYK when the largest channel is 1 (no key). */
  lemma ExactRoundTrip(kind: Kind, rgb: Vec3, std: Routines)
    requires kind == HSV || kind == CMYK
    requires kind == HSV ==> (Max3(rgb[0], rgb[1], rgb[2]) == 0.0 ==> Min3(rgb[0], rgb[1], rgb[2]) == 0.0)
    requires kind == CMYK ==> Max3(rgb[0], rgb[1], rgb[2]) == 1.0
    ensures FromRgb(kind, rgb, std).GetRgb(std) == rgb
  {
    var r, g, b := rgb[0], rgb[1], rgb[2];
    assert rgb == [r, g, b];
    if kind == HSV {
      Hsv.RoundTrip(r, g, b);
    } else {
      Cmyk.AsWrittenRoundTrip(r, g, b);
    }
  }

  /** A CMYK card built from a colour that is not near-black reads back that
      colour shifted by `Cmyk.Drift(k)` in every channel, `k = 1 - max`
      being its key; so it reads back exactly if and only if the largest
      channel is 1. A near-black colour reads back as black. */
  lemma CmykCardReadBack(rgb: Vec3, std: Routines)
    ensures var x := Max3(rgb[0], rgb[1], rgb[2]); var k := 1.0 - x;
      x > F32_EPSILON ==>
      FromRgb(CMYK, rgb, std).GetRgb(std) == [rgb[0] + Cmyk.Drift(k), rgb[1] + Cmyk.Drift(k), rgb[2] + Cmyk.Drift(k)]
    ensures Max3(rgb[0], rgb[1], rgb[2]) > F32_EPSILON ==>
      (FromRgb(CMYK, rgb, std).GetRgb(std) == rgb <==> Max3(rgb[0], rgb[1], rgb[2]) == 1.0)
    ensures Max3(rgb[0], rgb[1], rgb[2]) <= F32_EPSILON ==>
      FromRgb(CMYK, rgb, std).GetRgb(std) == [0.0, 0.0, 0.0]
  {
    var r, g, b := rgb[0], rgb[1], rgb[2];
    assert rgb == [r, g, b];
    var cmyk := Cmyk.RgbToCmyk(r, g, b);
    assert FromRgb(CMYK, rgb, std).card.values == cmyk;
    assert FromRgb(CMYK, rgb, std).GetRgb(std) == Cmyk.CmykToRgbAsWritten(cmyk[0], cmyk[1], cmyk[2], cmyk[3]);
    if Max3(r, g, b) > F32_EPSILON {
      Cmyk.AsWrittenRoundTrip(r, g, b);
    } else {
      Cmyk.NearBlackRoundTrip(r, g, b);
    }
  }

  /** Black is stored and read back exactly in every space, given library
      routines that send 0 to 0 (and an angle of 0 for the origin). */
  lemma BlackRoundTrip(kind: Kind, std: Routines)
    requires std.cbrt(0.0) == 0.0 && std.sqrt(0.0) == 0.0 && std.atan2Degrees(0.0, 0.0) == 0.0
    ensures FromRgb(kind, [0.0, 0.0, 0.0], std).GetRgb(std) == [0.0, 0.0, 0.0]
  {
    match kind
    case RGB =>
    case HSV => HsvBlack(std);
    case OKLAB => Oklab.BlackRoundTrip(std.cbrt);
    case OKLCH => Oklch.BlackRoundTrip(std);
    case CMYK => Cmyk.NearBlackRoundTrip(0.0, 0.0, 0.0);
  }

  lemma HsvBlack(std: Routines)
    ensures FromRgb(HSV, [0.0, 0.0, 0.0], std).GetRgb(std) == [0.0, 0.0, 0.0]
  {
    ExactRoundTrip(HSV, [0.0, 0.0, 0.0], std);
  }

  /** Within `1e-4` in every channel (the tolerance of the source's tests). */
  predicate NearWhite(rgb: Vec3) {
    && 1.0 - 0.0001 < rgb[0] < 1.0 + 0.0001
    && 1.0 - 0.0001 < rgb[1] < 1.0 + 0.0001
    && 1.0 - 0.0001 < rgb[2] < 1.0 + 0.0001
  }

  /** White comes back exactly from an HSV card. */
  lemma HsvWhite(std: Routines)
    ensures FromRgb(HSV, [1.0, 1.0, 1.0], std).GetRgb(std) == [1.0, 1.0, 1.0]
  {
    ExactRoundTrip(HSV, [1.0, 1.0, 1.0], std);
  }

  /** White comes back exactly from a CMYK card. */
  lemma CmykWhite(std: Routines)
    ensures FromRgb(CMYK, [1.0, 1.0, 1.0], std).GetRgb(std) == [1.0, 1.0, 1.0]
  {
    ExactRoundTrip(CMYK, [1.0, 1.0, 1.0], std);
  }

  /** White comes back from an OKLab card within `1e-4` (the tolerance of
      the source's tests), given a cube root accurate at white. */
  lemma OklabWhite(std: Routines)
    requires Oklab.AccurateAtWhite(std.cbrt)
    ensures NearWhite(FromRgb(OKLAB, [1.0, 1.0, 1.0], std).GetRgb(std))
  {
    Oklab.WhiteRoundTrip(std.cbrt);
  }

  /** White comes back from an OKLCH card within `1e-4`, given roots
      accurate at white and unit-bounded cosine and sine. */
  lemma OklchWhite(std: Routines)
    requires Oklab.AccurateAtWhite(std.cbrt) && Oklch.AccurateNearZero(std.sqrt)
    requires Oklch.BoundedTrig(std.cosDegrees, std.sinDegrees)
    ensures NearWhite(FromRgb(OKLCH, [1.0, 1.0, 1.0], std).GetRgb(std))
  {
    Oklch.WhiteRoundTrip(std);
  }

  /** The enum as the app holds it: a space and the struct it owns. */
  datatype ColorSpace = ColorSpace(kind: Kind, card: ChannelArrays)
  {
    ghost predicate Valid() {
      card.Valid() && card.values.Length == Arity(kind)
    }

    /** The card as a value. */
    function Value(): (s: Space)
      reads card.values, card.strings
      ensures s.kind == kind && (s.Valid() <==> Valid())
    {
      Space(kind, card.Contents())
    }

    /** `change_value`: delegates to the active struct. */
    method ChangeValue(i: nat, v: real, std: Routines)
      requires Valid() && i < Arity(kind)
      modifies card.values, card.strings
      ensures Valid() && Value() == old(Value()).ChangeValue(i, v, std)
    {
      card.ChangeValue(i, v, std.toString);
    }

    /** `change_string`: delegates to the active struct. */
    method ChangeString(i: nat, text: string, std: Routines)
      requires Valid() && i < Arity(kind)
      modifies card.values, card.strings
      ensures Valid() && Value() == old(Value()).ChangeString(i, text, std)
    {
      card.ChangeString(i, text, std.parse);
    }

    /** `from_rgb(&mut self)`: the struct is rebuilt from `rgb` in place and
        the space stays the same. */
    method LoadRgb(rgb: Vec3, std: Routines)
      requires Valid()
      modifies card.values, card.strings
      ensures Valid() && Value() == FromRgb(kind, rgb, std)
    {
      card.Load(Encode(kind, rgb, std), std.toString);
    }

    /** `to_rgb`, `to_hsv`, ...: reads this card and returns a new one; this
        card is left as it was. */
    method To(target: Kind, std: Routines) returns (converted: ColorSpace)
      requires Valid()
      ensures converted.Valid() && fresh(converted.card.values) && fresh(converted.card.strings)
      ensures converted.Value() == Convert(Value(), target, std)
    {
      var rgb := Value().GetRgb(std);
      converted := NewColorSpace(target, rgb, std);
    }
  }

  /** `X::from_rgb(rgb)` wrapped in its variant, as a newly owned struct. */
  method NewColorSpace(kind: Kind, rgb: Vec3, std: Routines) returns (cs: ColorSpace)
    ensures cs.Valid() && fresh(cs.card.values) && fresh(cs.card.strings)
    ensures cs.Value() == FromRgb(kind, rgb, std)
  {
    var c := Loaded(Encode(kind, rgb, std), std.toString);
    var arrays := new ChannelArrays(c.values, c.strings);
    cs := ColorSpace(kind, arrays);
  }
}
