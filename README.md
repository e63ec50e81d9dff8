# cosmic-color-picker, modelled in Dafny

COSMIC Color Picker is a desktop colour picker. Its window shows a row of
colour cards. Each card holds one colour in one of five colour spaces:
RGB, HSV, OKLab, OKLCH and CMYK. For each channel a card has:

- a slider,
- a text input,
- a preview swatch of the colour.

A card can be switched to another space; the colour is converted through
RGB. A card can be added or removed. Its channel values can be copied to
the clipboard, with a button or with Ctrl+C for the last edited card.

This project models:

- the five colour-space conversions, `from_rgb` / `to_rgb`, in
  `hsv.dfy`, `cmyk.dfy`, `oklab.dfy` and `oklch.dfy`;
- the state each colour-space struct carries: values, display strings, and
  their edits. `cards.dfy` models it once, because the five structs differ
  only in arity and conversion;
- the `ColorSpace` enum, its dispatch and its conversions between spaces
  (`colorspace.dfy`);
- the application's `update` and its copy-to-clipboard (`app.dfy`);
- the custom slider widget's event handling (`widgets.dfy`).

`numerics.dfy` holds the shared arithmetic: `f32` `max`/`min`/`%`/`clamp`,
and the `Routines` record. That record holds the library routines the code
calls: `to_string`, `parse`, `cbrt`, `sqrt`, `atan2`/`to_degrees`, and
`cos`/`sin` after `to_radians`.

Each piece has two levels.

- **Value level.** Pure functions: `Cards.EditValue`, `Cards.EditText`,
  `ColorSpaces.Convert`, `App.Step` and `Widgets.React`.
- **Heap level.** The code's own state-changing form: a struct's arrays,
  edited in place (`Cards.ChannelArrays`); the enum over such a struct
  (`ColorSpaces.ColorSpace`); the app with its vector of cards
  (`App.ColorPicker`); and the slider (`Widgets.ColorSlider`). Each of these
  methods is proved to leave exactly the state the matching function gives.

The properties are proved over the value-level functions:

- round trips through RGB;
- what each message does to the list of cards;
- the slider's range and drag state.

Floats are modelled as exact reals (`real`).

- The HSV round trip is proved exact.
- The CMYK round trip is proved exact with the corrected inverse. With the
  inverse as written, which is what a CMYK card reads back through, it is
  exact only when the largest channel is 1 (key 0) or the colour is
  near-black (key 1). Otherwise every channel comes back raised by
  `k * (1 - k)` (see "## Findings").
- The OKLab and OKLCH conversions go through `cbrt`, `sqrt` and
  trigonometry, which the model keeps as parameters. Their round trips are
  proved at black exactly, and at white within 1e-4 per channel. The white
  proof states its assumptions about those routines as named predicates:
  `Oklab.AccurateAtWhite`, `Oklch.AccurateNearZero` and
  `Oklch.BoundedTrig`.

Two places in the code belong to different revisions:

- `src/app.rs` matches on a four-variant `ColorSpace` with upper-case
  names (`RGB`, `HSV`, `OKLAB`, `OKLCH`).
- `src/colorspace.rs` defines five variants (`Rgb` … `Cmyk`), and its
  `to_*` methods return a new `ColorSpace` rather than replacing `self`.

The model follows `src/colorspace.rs`: five spaces, with every message
dispatched over all five. A space switch stores the converted card in
place of the old one (`App.Step`, `App.ColorPicker.SwitchCard`). This is
the only reading under which the `ChangeColorSpace` arm in `src/app.rs`
has an effect.

## Model

| member | source | states |
|---|---|---|
| `Numerics.Max3` | src/colorspace/hsv.rs:232 | `r.max(g).max(b)` is one of the three and at least each of them |
| `Numerics.Min3` | src/colorspace/hsv.rs:233 | `r.min(g).min(b)` is one of the three and at most each of them |
| `Numerics.TruncRem` | src/colorspace/hsv.rs:238 | Rust's `%` on floats: the remainder has the dividend's sign and lies strictly within the divisor's magnitude |
| `Numerics.Clamp` | src/widgets.rs:204 | `clamp(lo, hi)` lies in `[lo, hi]`; it is the identity inside the range and gives the nearer bound outside it |
| `Hsv.RgbToHsv` | src/colorspace/hsv.rs:231-255 | `rgb_to_hsv`: the hue is in `[0, 360)` for every input; the value is the largest channel; a grey gives hue 0 and saturation 0; a zero maximum gives saturation 0; saturation is in `[0, 1]` for non-negative channels |
| `Hsv.RawHueBounds` | src/colorspace/hsv.rs:235-246 | every branch of the hue chain yields a raw hue in `[-60, 300)`, so the single `+= 360` brings it into `[0, 360)` |
| `Hsv.SaturationBounds` | src/colorspace/hsv.rs:252 | the saturation `c / x_max` is in `[0, 1]` when the channels are non-negative |
| `Hsv.AchromaticHueIsZero` | src/colorspace/hsv.rs:234-236 | zero chroma means a grey (r = g = b), and gives hue 0 |
| `Hsv.HsvToRgb` | src/colorspace/hsv.rs:192-229 | `hsv_to_rgb` with saturation 0 gives the grey `[v, v, v]` whatever the hue |
| `Hsv.HsvToRgbExtremes` | src/colorspace/hsv.rs:192-229 | `hsv_to_rgb` on a hue in `[0, 360)` gives a largest channel of `v` and a smallest channel of `v - v*s` |
| `Hsv.OutOfRangeHueTakesLastSector` | src/colorspace/hsv.rs:207-210 | a hue outside `[0, 300)` falls to the final `else` sector: red is `v` and green is `v - v*s` |
| `Hsv.RoundTrip` | src/colorspace/hsv.rs:192-255 | `hsv_to_rgb(rgb_to_hsv(rgb)) == rgb` for every colour, except one whose maximum is 0 while another channel is negative |
| `Hsv.TestColoursToHsv` | src/colorspace/hsv.rs:262-306 | white, black, red, green and blue convert to the HSV triples the unit tests expect |
| `Hsv.TestColoursRoundTrip` | src/colorspace/hsv.rs:262-310 | the HSV triples of the unit tests convert back to the test colours |
| `Cmyk.CmykToRgbAsWritten` | src/colorspace/cmyk.rs:204-211 | `cmyk_to_rgb` as written: full key gives black whatever the inks, and key 0 gives `1 - ink` per channel |
| `Cmyk.CmykToRgb` | src/colorspace/cmyk.rs:204-211 | the corrected inverse `(1 - ink) * (1 - k)`: full key gives black, and key 0 gives `1 - ink` per channel |
| `Cmyk.RgbToCmyk` | src/colorspace/cmyk.rs:213-225 | a maximum at most `f32::EPSILON` gives pure key `[0,0,0,1]`; otherwise the key is one minus the largest channel |
| `Cmyk.NoInkAtMax` | src/colorspace/cmyk.rs:219-224 | above `f32::EPSILON`, the ink of a channel is zero exactly when that channel is the largest |
| `Cmyk.InkBounds` | src/colorspace/cmyk.rs:219-222 | for channels in `[0, 1]` brighter than `f32::EPSILON`, every ink lies in `[0, 1]` and the key in `[0, 1)` |
| `Cmyk.AsWrittenFullKeyIsBlack` | src/colorspace/cmyk.rs:204-211 | the inverse as written maps full key to black, whatever the inks |
| `Cmyk.AsWrittenAgreesAtExtremeKey` | src/colorspace/cmyk.rs:204-211 | at key 0 or key 1 the inverse as written and the corrected inverse agree |
| `Cmyk.GreyCounterexample` | src/colorspace/cmyk.rs:204-225 | mid grey converts to `[0,0,0,0.5]`; the inverse as written returns 0.75 per channel, the corrected one 0.5 |
| `Cmyk.AsWrittenRoundTrip` | src/colorspace/cmyk.rs:204-225 | for a colour brighter than `f32::EPSILON`, `cmyk_to_rgb(rgb_to_cmyk(rgb))` as written adds `Drift(k) = k * (1 - k)` to every channel, `k = 1 - max`; the round trip is exact if and only if the largest channel is 1 |
| `Cmyk.KeyDrift` | src/colorspace/cmyk.rs:206-208 | below key 1 the extra `k * (1 - k)` has the sign of `k`, and is 0 exactly at key 0 |
| `Cmyk.RoundTrip` | src/colorspace/cmyk.rs:204-225 | with the corrected inverse, `cmyk_to_rgb(rgb_to_cmyk(rgb)) == rgb` whenever the maximum exceeds `f32::EPSILON` |
| `Cmyk.NearBlackRoundTrip` | src/colorspace/cmyk.rs:204-217 | a colour at most `f32::EPSILON` bright comes back as black through the inverse as written and the corrected one |
| `Cmyk.FullBrightness` | src/colorspace/cmyk.rs:213-225 | a colour whose largest channel is 1 has key 0 and inks `1 - channel` |
| `Cmyk.CornerComplement` | src/colorspace/cmyk.rs:204-211 | at key 0 both inverses give `1 - ink` per channel on the test colours |
| `Cmyk.TestColoursToCmyk` | src/colorspace/cmyk.rs:231-275 | white, black, red, green and blue convert to the CMYK quadruples the unit tests expect |
| `Cmyk.WhiteTest` | src/colorspace/cmyk.rs:231-239 | the `white` test: white converts to `[0,0,0,0]` and `cmyk_to_rgb` brings it back as white |
| `Cmyk.BlackTest` | src/colorspace/cmyk.rs:241-249 | the `black` test: black converts to `[0,0,0,1]` and comes back as black |
| `Cmyk.RedTest` | src/colorspace/cmyk.rs:251-259 | the `red` test: red converts to `[0,1,1,0]` and comes back as red |
| `Cmyk.GreenTest` | src/colorspace/cmyk.rs:261-269 | the `green` test: green converts to `[1,0,1,0]` and comes back as green |
| `Cmyk.BlueTest` | src/colorspace/cmyk.rs:271-279 | the `blue` test: blue converts to `[1,1,0,0]` and comes back as blue |
| `Oklab.RgbToOklab` | src/colorspace/oklab.rs:201-217 | `rgb_to_oklab` sends black to the origin for a cube root that keeps 0 |
| `Oklab.Lms` | src/colorspace/oklab.rs:202-204 | the linear LMS response is non-negative for non-negative channels, and is `[x, 0.9999999999·x, x]` on the grey `x` |
| `Oklab.Roots` | src/colorspace/oklab.rs:184-186 | on the neutral axis (`a = b = 0`) the three cone roots all equal the lightness |
| `Oklab.RgbFromLms` | src/colorspace/oklab.rs:192-196 | the output matrix maps equal LMS responses to the grey of that level |
| `Oklab.OklabToRgb` | src/colorspace/oklab.rs:183-197 | `oklab_to_rgb` on the neutral axis `(l, 0, 0)` gives the grey `Cube(l)` in every channel |
| `Oklab.NeutralAxis` | src/colorspace/oklab.rs:183-197 | `oklab_to_rgb(l, 0, 0)` is the grey `l³`; lightness 1 gives white and 0 gives black |
| `Oklab.BlackRoundTrip` | src/colorspace/oklab.rs:231-239 | black converts to `[0,0,0]` and back to black, given `cbrt(0) = 0` |
| `Oklab.RootOfUnitInterval` | src/colorspace/oklab.rs:206-208 | an exact cube root of `x` in `[0, 1]` lies in `[x, 1]` |
| `Oklab.ExactIsAccurateAtWhite` | src/colorspace/oklab.rs:206-208 | an exact cube root meets the accuracy the white round trip assumes |
| `Oklab.WhiteToOklab` | src/colorspace/oklab.rs:221-225 | white converts to lightness within 1e-7 below 1 and `a`, `b` within 1e-7 of 0, as the unit test expects |
| `Oklab.NearWhiteToRgb` | src/colorspace/oklab.rs:183-197 | an OKLab colour within 5e-7 of `[1,0,0]` converts to RGB within 1e-4 of white |
| `Oklab.WhiteRoundTrip` | src/colorspace/oklab.rs:221-229 | white survives `rgb_to_oklab` then `oklab_to_rgb` within 1e-4 per channel |
| `Oklch.LchFromLab` | src/colorspace/oklch.rs:208-216 | the lightness is OKLab's lightness; a hue in `(-180, 180]` from `atan2` is lifted into `[0, 360)` |
| `Oklch.RgbToOklch` | src/colorspace/oklch.rs:206-219 | `rgb_to_oklch` keeps the OKLab lightness of the colour |
| `Oklch.LabFromLch` | src/colorspace/oklch.rs:198-202 | the polar-to-Cartesian step keeps the lightness and puts `(a, b)` at distance `c` in direction `h`, `c * (cos h, sin h)`; zero chroma lands on the neutral axis |
| `Oklch.CartesianWithinChroma` | src/colorspace/oklch.rs:199-201 | with bounded cosine and sine, `a` and `b` lie within `±c` |
| `Oklch.OklchToRgb` | src/colorspace/oklch.rs:198-204 | `oklch_to_rgb` with chroma 0 gives the grey `Cube(l)` whatever the hue |
| `Oklch.Ranges` | src/colorspace/oklch.rs:206-219 | chroma is non-negative and hue in `[0, 360)` for every colour, given an exact square root and `atan2` in `(-180, 180]` |
| `Oklch.ChromaNonNegative` | src/colorspace/oklch.rs:210 | the chroma `sqrt(a² + b²)` is non-negative |
| `Oklch.ZeroChromaIsGrey` | src/colorspace/oklch.rs:198-204 | zero chroma gives the grey `l³` whatever the hue |
| `Oklch.BlackRoundTrip` | src/colorspace/oklch.rs:235-243 | black converts to `[0,0,0]` and back to black |
| `Oklch.ExactIsAccurateNearZero` | src/colorspace/oklch.rs:210 | an exact square root meets the accuracy near zero the white round trip assumes |
| `Oklch.NearNeutralChroma` | src/colorspace/oklch.rs:210 | `a`, `b` within 1e-7 give a chroma within 5e-7 |
| `Oklch.NearWhiteToRgb` | src/colorspace/oklch.rs:198-204 | lightness within 5e-7 of 1 with chroma below 5e-7 converts within 1e-4 of white, whatever the hue |
| `Oklch.WhiteRoundTrip` | src/colorspace/oklch.rs:225-233 | white converts to lightness within 1e-4 of 1 and chroma within 1e-4 of 0, and back to RGB within 1e-4 of white |
| `Cards.Formatted` | src/colorspace/rgb.rs:59 | one formatted string per value, in channel order |
| `Cards.Loaded` | src/colorspace/rgb.rs:57-62 | `from_rgb` stores the values and, beside each, its formatted string |
| `Cards.EditValue` | src/colorspace/rgb.rs:74-77 | `change_value(i, v)` sets slot `i` to `v` and its string to `v`'s formatting, and leaves the arity and every other slot as they were |
| `Cards.EditText` | src/colorspace/rgb.rs:79-85 | `change_string(i, s)` shows `s` in slot `i`; the value becomes the parsed number when `s` parses and stays otherwise; every other slot is unchanged |
| `Cards.EditValueKeepsSync` | src/colorspace/rgb.rs:74-77 | `change_value` keeps every string equal to its value's formatting |
| `Cards.TextPathAgrees` | src/colorspace/rgb.rs:74-85 | typing a value's text that parses back to the value is the same edit as choosing the value with the slider |
| `Cards.UnparsedText` | src/colorspace/rgb.rs:79-85 | a text that does not parse keeps every value and the copied text; the card stays synced exactly when the text was already the formatted value |
| `Cards.EditTextIdempotent` | src/colorspace/rgb.rs:79-85 | repeating the same text edit changes nothing more |
| `Cards.SplitJoin` | src/colorspace/rgb.rs:68-70 | fields without commas, joined with `", "`, split back into the same fields |
| `Cards.Card.Clipboard` | src/colorspace/rgb.rs:68-70 | the copied text is empty for no values, is the formatted value for one, and starts with the first formatted value |
| `Cards.ClipboardFields` | src/colorspace/cmyk.rs:90-95 | the copied text splits into exactly the formatted values, one per channel, in order |
| `Cards.ChannelArrays.constructor` | src/colorspace/rgb.rs:58-61 | a struct built from values and strings holds exactly them, in fresh arrays |
| `Cards.ChannelArrays.ChangeValue` | src/colorspace/rgb.rs:74-77 | after `change_value` the struct holds `EditValue` of its old contents |
| `Cards.ChannelArrays.ChangeString` | src/colorspace/rgb.rs:79-85 | after `change_string` the struct holds `EditText` of its old contents |
| `Cards.ChannelArrays.Load` | src/colorspace.rs:111-115 | overwriting with a freshly built struct leaves exactly `Loaded(values)` |
| `ColorSpaces.Arity` | src/colorspace/cmyk.rs:52-55 | CMYK has four channels, every other space three |
| `ColorSpaces.Encode` | src/colorspace/hsv.rs:70-71 | each space's forward conversion yields one value per channel of that space |
| `ColorSpaces.FromRgb` | src/colorspace/hsv.rs:70-77 | `X::from_rgb` builds a well-formed card of space `X` whose strings are its formatted values |
| `ColorSpaces.Space.ChangeValue` | src/colorspace.rs:62-70 | a value edit keeps the card well formed and in its space |
| `ColorSpaces.Space.ChangeString` | src/colorspace.rs:72-80 | a text edit keeps the card well formed and in its space |
| `ColorSpaces.Space.GetRgb` | src/colorspace.rs:119-127 | `get_rgb` through each struct's `to_rgb`, the CMYK one being `cmyk_to_rgb` as written: an RGB card is its values; a CMYK card with key 1 is black and with key 0 the complement of its inks; an HSV card without saturation and an OKLab or OKLCH card without chroma are greys |
| `ColorSpaces.Default` | src/colorspace.rs:55-59 | `ColorSpace::default` is a well-formed RGB card holding white, its strings the formatted values |
| `ColorSpaces.Convert` | src/colorspace.rs:84-107 | `to_*` gives a well-formed, synced card of the target space |
| `ColorSpaces.RgbDefaultIsWhite` | src/colorspace/rgb.rs:47-54 | `RGB::default` is a well-formed white card |
| `ColorSpaces.CmykDefaultIsWhite` | src/colorspace/cmyk.rs:57-64 | `Cmyk::default` is a well-formed card that reads as white, through the inverse as written and the corrected one |
| `ColorSpaces.DefaultIsWhite` | src/colorspace.rs:55-59 | `ColorSpace::default` is a white RGB card; it equals `RGB::default` exactly when `1.0` formats as `"1"` |
| `ColorSpaces.RgbCardIsExact` | src/colorspace/rgb.rs:57-66 | an RGB card reads back exactly the colour it was built from |
| `ColorSpaces.ConvertViaRgb` | src/colorspace.rs:84-87 | `to_rgb` keeps the colour exactly, and converting through RGB first changes no conversion |
| `ColorSpaces.RgbEdit` | src/colorspace.rs:119-121 | editing channel `i` of an RGB card changes exactly channel `i` of `get_rgb` |
| `ColorSpaces.ExactRoundTrip` | src/colorspace.rs:109-127 | an HSV card reads back exactly the colour it was loaded with (except a zero maximum with a negative channel); a CMYK card does when the largest channel is 1 |
| `ColorSpaces.CmykCardReadBack` | src/colorspace.rs:109-127 | a CMYK card loaded with a colour brighter than `f32::EPSILON` reads back that colour raised by `Cmyk.Drift(1 - max)` per channel, so exactly if and only if the largest channel is 1; a near-black colour reads back as black |
| `ColorSpaces.BlackRoundTrip` | src/colorspace.rs:109-127 | black loaded into any of the five spaces reads back as black |
| `ColorSpaces.HsvWhite` | src/colorspace/hsv.rs:262-270 | white loaded into an HSV card reads back exactly as white |
| `ColorSpaces.CmykWhite` | src/colorspace/cmyk.rs:231-239 | white loaded into a CMYK card reads back exactly as white |
| `ColorSpaces.OklabWhite` | src/colorspace/oklab.rs:221-229 | white loaded into an OKLab card reads back within 1e-4 per channel |
| `ColorSpaces.OklchWhite` | src/colorspace/oklch.rs:225-233 | white loaded into an OKLCH card reads back within 1e-4 per channel |
| `ColorSpaces.ColorSpace.ChangeValue` | src/colorspace.rs:62-70 | the card's arrays afterwards hold `Space.ChangeValue` of the old card |
| `ColorSpaces.ColorSpace.ChangeString` | src/colorspace.rs:72-80 | the card's arrays afterwards hold `Space.ChangeString` of the old card |
| `ColorSpaces.ColorSpace.LoadRgb` | src/colorspace.rs:109-117 | `from_rgb(&mut self)` keeps the space and leaves exactly `FromRgb` of the new colour |
| `ColorSpaces.ColorSpace.To` | src/colorspace.rs:84-107 | `to_*` returns a new card in fresh arrays holding `Convert` of the old one |
| `ColorSpaces.NewColorSpace` | src/colorspace.rs:86 | wrapping `X::from_rgb` gives a card in fresh arrays holding `FromRgb` |
| `App.Step` | src/app.rs:78-118 | every message keeps every card well formed |
| `App.EditTouchesOneCard` | src/app.rs:80-93 | an edit changes only the chosen channel of the chosen card, keeps its space and copies nothing |
| `App.SwitchReplacesOneCard` | src/app.rs:94-99 | a space switch replaces only the chosen card, with one of the chosen space; switching to RGB keeps the colour exactly |
| `App.AddThenRemove` | src/app.rs:100-105 | `AddSpace` appends a white RGB card, and removing it gives back the original list |
| `App.RemoveShifts` | src/app.rs:103-105 | `RemoveSpace(i)` drops card `i` and shifts the later cards down one |
| `App.KeyCopiesLastEdited` | src/app.rs:110-114 | Ctrl+C acts as `CopyToClipboard(last_edited)`; any other key changes nothing and copies nothing |
| `App.CopyText` | src/app.rs:219-230 | the copied text of a card splits at `", "` into its formatted values whenever none contains a comma |
| `App.CopyListsValues` | src/app.rs:107-109 | copying leaves the cards alone and writes text that splits into the card's formatted values |
| `App.Normalise` | src/app.rs:131-137 | the preview colour has every channel in `[0, 1]`, and equals the colour when it was already displayable |
| `App.ColorPicker.constructor` | src/app.rs:61-76 | `init` starts with one default card and `last_edited` 0 |
| `App.ColorPicker.CopyToClipboard` | src/app.rs:219-230 | returns the copy text of the chosen card and changes nothing |
| `App.ColorPicker.Update` | src/app.rs:78-118 | the cards and clipboard after `update` are exactly `Step` of the cards before; the arrays of distinct cards stay distinct |
| `App.ColorPicker.EditCard` | src/app.rs:80-93 | an edit changes only the chosen card's arrays, as `Step` says |
| `App.ColorPicker.SwitchCard` | src/app.rs:94-99 | the chosen card is replaced by its conversion in fresh arrays |
| `App.ColorPicker.AddCard` | src/app.rs:100-102 | a default card in fresh arrays is appended |
| `App.ColorPicker.RemoveCard` | src/app.rs:103-105 | the chosen card is dropped from the list |
| `Widgets.PositionOver` | src/widgets.rs:213 | `position_over` yields the cursor exactly when there is one and the bounds contain it |
| `Widgets.Percent` | src/widgets.rs:202-204 | the drag fraction lies in `[0, 1]` |
| `Widgets.DragValue` | src/widgets.rs:201-206 | a drag at the start of the track gives `start`, at its end gives `end`, and a one-point range gives that point |
| `Widgets.DragWithinRange` | src/widgets.rs:201-206 | a drag sets a value inside the slider's range |
| `Widgets.DragEnds` | src/widgets.rs:203-206 | the left end of the track gives the range's start, the right end (width less one handle) its end |
| `Widgets.DragMonotone` | src/widgets.rs:203-206 | dragging further right never lowers the value |
| `Widgets.WheelValue` | src/widgets.rs:242-243 | a wheel step stays in the range, and is exact when it does not need clamping |
| `Widgets.React` | src/widgets.rs:188-259 | an ignored event changes nothing and publishes nothing; a published value is the new value and the event is captured; starting or ending a drag captures the event |
| `Widgets.ReactKeepsRange` | src/widgets.rs:199-258 | every event keeps an in-range value in range; a changed value is published; a publication carries the new value and captures the event |
| `Widgets.PressStartsDrag` | src/widgets.rs:211-217 | a press over the slider starts a drag, sets the value and captures; elsewhere it changes nothing |
| `Widgets.ReleaseEndsDrag` | src/widgets.rs:219-226 | a release ends a drag and is captured only if one was in progress |
| `Widgets.MoveOnlyWhileDragging` | src/widgets.rs:227-236 | a move changes the value only during a drag, and is captured exactly then |
| `Widgets.WheelScrolls` | src/widgets.rs:238-258 | the wheel scrolls the value only over an idle slider; unhandled events are ignored |
| `Widgets.ColorSlider.constructor` | src/widgets.rs:100-106 | `color_slider` starts with the given range and value, scroll step 0.01 and no drag |
| `Widgets.ColorSlider.Change` | src/widgets.rs:201-208 | the `change` closure sets the drag value and publishes it |
| `Widgets.ColorSlider.OnEvent` | src/widgets.rs:188-259 | `on_event` leaves the value, the drag flag, the publications and the status `React` gives |
| `Widgets.ColorSlider.MouseInteraction` | src/widgets.rs:261-278 | the cursor is `Grabbing` exactly while dragging, and `Grab` exactly over an idle slider |

## Left out

- Drawing is not modelled: view functions, widget trees, layout, GPU gradient shaders (`src/shaders/`), `ColorBlock` rendering and the slider's `draw`. They produce no state the model can state anything about.
- Localisation (`src/core/localization.rs`), `src/main.rs`, `build.rs` and `src/lazy.rs` are outside the colour logic and not modelled.
- The clipboard write and the `info!` log line of `copy_to_clipboard` are not modelled. The model returns the text that would be written (`App.ColorPicker.Update`'s `clipboard` result).
- The keyboard subscription is left out. The model takes the key and the Control flag it would forward as a `Key` message.
- `f32` arithmetic is modelled as exact real arithmetic. Rounding, NaN, infinities and overflow are not captured.
- `to_string`, `parse::<f32>`, `cbrt`, `sqrt`, `atan2`, `to_degrees`, `to_radians`, `cos` and `sin` are library routines and are kept as parameters (`Numerics.Routines`). The model states only the properties of them that a lemma assumes.
- Oklab.WhiteRoundTrip: the unit test's approximate comparison is stated as closeness within 1e-4 per channel, under the cube-root accuracy named in its requires, not for an arbitrary `cbrt`.
- Oklch.WhiteRoundTrip: the same closeness within 1e-4, under the cube-root, square-root and trigonometry assumptions named in its requires.
- The red, green and blue expected triples of the OKLab and OKLCH unit tests are decimal approximations of float results, and are not stated. The OKLCH white test's hue of 90 depends on the sign of float rounding residues in `a` and `b`, and is not stated either.
- ColorSpaces.ExactRoundTrip: its CMYK case is promised only for colours whose largest channel is 1. Elsewhere the source's `cmyk_to_rgb` does not undo `rgb_to_cmyk`; `ColorSpaces.CmykCardReadBack` states what such a card gives back instead.
- `Hsv.RoundTrip` excludes colours whose maximum channel is 0 while another channel is negative. There the saturation is forced to 0 and the negative channel is lost.
- Widgets.React: a drag on a slider whose width equals its height divides by zero; the model requires `width != height` whenever the event would drag.
- The toolkit's hit test (`Rectangle::contains`, `cursor.is_over`) is a parameter (`contains`).
- The touch events join the mouse events they share a match arm with.
- The horizontal wheel delta and the distinction between line and pixel deltas are dropped; the source treats both deltas the same way.
- `last_edited` is never assigned in `src/app.rs`. The model keeps it constant, so Ctrl+C always copies the card at index `last_edited` (0 after `init`).
- `src/app.rs` is written against an older four-variant `ColorSpace`; the model dispatches every message over the five variants of `src/colorspace.rs`.
- Indexing past the number of cards or past a card's arity panics in the source. Those calls are excluded by preconditions rather than modelled as a panic.
- `App.Normalise` is the only part of `view` modelled; the colour it feeds to `color_block` is not.

## Findings

| source | as written | input that shows it | evidently intended | confidence | as-written member | corrected member |
|---|---|---|---|---|---|---|
| src/colorspace/cmyk.rs:206-208 | `cmyk_to_rgb` computes each channel as `(1 - ink + k) * (1 - k)` | mid grey `[0.5, 0.5, 0.5]` converts to CMYK `[0, 0, 0, 0.5]`, which converts back to `[0.75, 0.75, 0.75]` | `(1 - ink) * (1 - k)`, the inverse of `rgb_to_cmyk` | high; not executed | `Cmyk.GreyCounterexample` | `Cmyk.RoundTrip` |

The as-written inverse agrees with the corrected one at key 0 and key 1.
Those are the only keys the unit tests use (`Cmyk.AsWrittenAgreesAtExtremeKey`).
For any other key it adds `k * (1 - k)` to every channel (`Cmyk.AsWrittenRoundTrip`).
The cards follow the program as written: `ColorSpaces.Space.GetRgb` reads a
CMYK card through `Cmyk.CmykToRgbAsWritten`, and `ColorSpaces.CmykCardReadBack`
states what a CMYK card then gives back. The corrected inverse `Cmyk.CmykToRgb`
is proved to undo `rgb_to_cmyk` exactly (`Cmyk.RoundTrip`), but no card uses it.
