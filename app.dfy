/** The application state (src/app.rs): the row of colour cards, the messages
    that edit, add, remove, switch and copy them, and the preview colour each
    card shows beside its sliders. `Step` is the meaning of one message on the
    cards as values; `ColorPicker.Update` carries it out on the cards' arrays
    in place. */
module App {
  import opened Numerics
  import opened Cards
  import opened ColorSpaces

  /** `ColorSpaceMessage`: an edit of one channel of a card. */
  datatype SpaceMessage =
    | ChangeValue(index: nat, value: real)
    | ChangeString(index: nat, text: string)

  /** The logical key of a key press; only the character matters here. */
  datatype LogicalKey = Character(text: string) | Named

  /** `Message`. `Edit` is `Message::ColorSpace { index, message }`; `Key`
      carries whether Control was held. */
  datatype Message =
    | Edit(index: nat, message: SpaceMessage)
    | ChangeColorSpace(index: nat, selected: Kind)
    | AddSpace
    | RemoveSpace(index: nat)
    | CopyToClipboard(index: nat)
    | Key(key: LogicalKey, control: bool)

  /** What one message does: the new cards and the text written to the
      clipboard, if any. */
  datatype Outcome = Outcome(spaces: seq<Space>, clipboard: Option<string>)

  predicate AllValid(spaces: seq<Space>) {
    forall j :: 0 <= j < |spaces| ==> spaces[j].Valid()
  }

  /** Ctrl+C. */
  predicate IsCopyShortcut(key: LogicalKey, control: bool) {
    control && key == Character("c")
  }

  /** What `update` demands of a message: every card index it uses names a
      card and every channel index a channel (the source indexes a `Vec` and
      an array, and panics otherwise). */
  predicate Admissible(spaces: seq<Space>, lastEdited: nat, msg: Message) {
    match msg
    case Edit(i, m) => i < |spaces| && m.index < Arity(spaces[i].kind)
    case ChangeColorSpace(i, _) => i < |spaces|
    case AddSpace => true
    case RemoveSpace(i) => i < |spaces|
    case CopyToClipboard(i) => i < |spaces|
    case Key(key, control) => IsCopyShortcut(key, control) ==> lastEdited < |spaces|
  }

  /** A card whose values can be read back from the copied text: at least
      one value, and no formatted value holding a comma. */
  predicate Listable(values: seq<real>, toString: real -> string) {
    |values| >= 1 && forall k :: 0 <= k < |values| ==> ',' !in toString(values[k])
  }

  /** `ColorPicker::copy_to_clipboard`: the card's values as text, which
      split back at `", "` into the formatted values whenever none of them
      contains a comma. */
  function CopyText(s: Space, std: Routines): (text: string)
    ensures Listable(s.card.values, std.toString) ==> Split(text) == Formatted(s.card.values, std.toString)
  {
    assert Listable(s.card.values, std.toString) ==> Split(s.card.Clipboard(std.toString)) == Formatted(s.card.values, std.toString) by {
      if Listable(s.card.values, std.toString) {
        ClipboardFields(s.card, std.toString);
      }
    }
    s.card.Clipboard(std.toString)
  }

  /** `update`, on the cards as values. A space switch stores the converted
      card in place of the old one; the `to_*` call in the `ChangeColorSpace`
      arm of `src/app.rs` returns that card and the code there drops it, so
      storing it is the reading under which the switch has an effect. */
  function Step(spaces: seq<Space>, lastEdited: nat, msg: Message, std: Routines): (o: Outcome)
    requires AllValid(spaces) && Admissible(spaces, lastEdited, msg)
    ensures AllValid(o.spaces)
  {
    match msg
    case Edit(i, m) =>
      var s := spaces[i];
      var edited := match m
        case ChangeValue(k, v) => s.ChangeValue(k, v, std)
        case ChangeString(k, t) => s.ChangeString(k, t, std);
      Outcome(spaces[i := edited], None)
    case ChangeColorSpace(i, target) =>
      Outcome(spaces[i := Convert(spaces[i], target, std)], None)
    case AddSpace =>
      Outcome(spaces + [Default(std)], None)
    case RemoveSpace(i) =>
      Outcome(spaces[..i] + spaces[i + 1..], None)
    case CopyToClipboard(i) =>
      Outcome(spaces, Some(CopyText(spaces[i], std)))
    case Key(key, control) =>
      if IsCopyShortcut(key, control) then Outcome(spaces, Some(CopyText(spaces[lastEdited], std)))
      else Outcome(spaces, None)
  }

  /** An edit changes one channel of one card: every other card stays as it
      was, the edited card keeps its space, and nothing is copied. */
  lemma EditTouchesOneCard(spaces: seq<Space>, lastEdited: nat, i: nat, m: SpaceMessage, std: Routines)
    requires AllValid(spaces) && Admissible(spaces, lastEdited, Edit(i, m))
    ensures var o := Step(spaces, lastEdited, Edit(i, m), std);
      && |o.spaces| == |spaces|
      && o.spaces[i].kind == spaces[i].kind
      && (forall j :: 0 <= j < |spaces| && j != i ==> o.spaces[j] == spaces[j])
      && (forall k :: 0 <= k < Arity(spaces[i].kind) && k != m.index ==>
            o.spaces[i].card.values[k] == spaces[i].card.values[k] &&
            o.spaces[i].card.strings[k] == spaces[i].card.strings[k])
      && o.clipboard == None
  {
  }

  /** Switching a card's space replaces that card with one of the chosen
      space; an RGB target keeps the card's colour exactly. */
  lemma SwitchReplacesOneCard(spaces: seq<Space>, lastEdited: nat, i: nat, target: Kind, std: Routines)
    requires AllValid(spaces) && i < |spaces|
    ensures var o := Step(spaces, lastEdited, ChangeColorSpace(i, target), std);
      && |o.spaces| == |spaces|
      && o.spaces[i].kind == target
      && (target == RGB ==> o.spaces[i].GetRgb(std) == spaces[i].GetRgb(std))
      && (forall j :: 0 <= j < |spaces| && j != i ==> o.spaces[j] == spaces[j])
  {
    ConvertViaRgb(spaces[i], target, std);
  }

  /** `AddSpace` appends a white RGB card, and removing the card it added
      gives back the original list. */
  lemma AddThenRemove(spaces: seq<Space>, lastEdited: nat, std: Routines)
    requires AllValid(spaces)
    ensures var added := Step(spaces, lastEdited, AddSpace, std).spaces;
      && |added| == |spaces| + 1
      && added[..|spaces|] == spaces
      && added[|spaces|].kind == RGB && added[|spaces|].GetRgb(std) == [1.0, 1.0, 1.0]
      && Step(added, lastEdited, RemoveSpace(|spaces|), std).spaces == spaces
  {
    var added := spaces + [Default(std)];
    assert added[..|spaces|] == spaces;
    assert added[|spaces| + 1..] == [];
    DefaultIsWhite(std);
  }

  /** `RemoveSpace(i)` drops card `i` and shifts the later cards down one. */
  lemma RemoveShifts(spaces: seq<Space>, lastEdited: nat, i: nat, std: Routines)
    requires AllValid(spaces) && i < |spaces|
    ensures var o := Step(spaces, lastEdited, RemoveSpace(i), std);
      && |o.spaces| == |spaces| - 1
      && (forall j :: 0 <= j < i ==> o.spaces[j] == spaces[j])
      && (forall j :: i <= j < |spaces| - 1 ==> o.spaces[j] == spaces[j + 1])
      && o.clipboard == None
  {
  }

  /** Ctrl+C copies the card at `lastEdited`, like the copy button of that
      card; any other key changes nothing and copies nothing. */
  lemma KeyCopiesLastEdited(spaces: seq<Space>, lastEdited: nat, key: LogicalKey, control: bool, std: Routines)
    requires AllValid(spaces) && Admissible(spaces, lastEdited, Key(key, control))
    ensures IsCopyShortcut(key, control) ==>
      Step(spaces, lastEdited, Key(key, control), std) == Step(spaces, lastEdited, CopyToClipboard(lastEdited), std)
    ensures !IsCopyShortcut(key, control) ==>
      Step(spaces, lastEdited, Key(key, control), std) == Outcome(spaces, None)
  {
  }

  /** Copying leaves the cards alone and writes text that lists the card's
      values (not its strings) in channel order, one field per channel. */
  lemma CopyListsValues(spaces: seq<Space>, lastEdited: nat, i: nat, std: Routines)
    requires AllValid(spaces) && i < |spaces|
    requires forall k :: 0 <= k < |spaces[i].card.values| ==> ',' !in std.toString(spaces[i].card.values[k])
    ensures var o := Step(spaces, lastEdited, CopyToClipboard(i), std);
      && o.spaces == spaces
      && o.clipboard.Some?
      && Split(o.clipboard.value) == Formatted(spaces[i].card.values, std.toString)
  {
    ClipboardFields(spaces[i].card, std.toString);
  }

  /** The preview colour in `view`: the colour shifted up by its most negative
      channel (if any) and scaled down by the resulting spread when that
      exceeds 1, so that every channel is displayable. */
  function Normalise(rgb: Vec3): (n: Vec3)
    ensures forall k :: 0 <= k < 3 ==> 0.0 <= n[k] <= 1.0
    ensures (forall k :: 0 <= k < 3 ==> 0.0 <= rgb[k] <= 1.0) ==> n == rgb
  {
    var lo := Min(Min3(rgb[0], rgb[1], rgb[2]), 0.0);
    var span := Max(Max3(rgb[0], rgb[1], rgb[2]), 1.0) - lo;
    PreviewChannel(rgb[0], lo, span, Max3(rgb[0], rgb[1], rgb[2]));
    PreviewChannel(rgb[1], lo, span, Max3(rgb[0], rgb[1], rgb[2]));
    PreviewChannel(rgb[2], lo, span, Max3(rgb[0], rgb[1], rgb[2]));
    [(rgb[0] - lo) / span, (rgb[1] - lo) / span, (rgb[2] - lo) / span]
  }

  /** One channel of the preview lies in `[0, 1]`, and is unchanged when the
      colour needed no shift or scaling. */
  lemma PreviewChannel(x: real, lo: real, span: real, hi: real)
    requires lo <= x <= hi && lo <= 0.0
    requires span == Max(hi, 1.0) - lo
    ensures span >= 1.0
    ensures 0.0 <= (x - lo) / span <= 1.0
    ensures lo == 0.0 && hi <= 1.0 ==> (x - lo) / span == x
  {
    UnitRatio(x - lo, span);
  }

  /** The app: its cards, the index Ctrl+C copies, and the library routines
      the conversions use. */
  class ColorPicker {
    var spaces: seq<ColorSpace>
    var lastEdited: nat
    const std: Routines

    /** The arrays of every card. */
    function Arrays(): set<object>
      reads this
    {
      (set j | 0 <= j < |spaces| :: spaces[j].card.values as object) +
      (set j | 0 <= j < |spaces| :: spaces[j].card.strings as object)
    }

    /** Every card has its space's arity, and no two cards share an array
        (each card owns its struct). */
    ghost predicate Valid()
      reads this
    {
      && (forall j :: 0 <= j < |spaces| ==> spaces[j].Valid())
      && (forall j, k :: 0 <= j < |spaces| && 0 <= k < |spaces| && j != k ==>
            spaces[j].card.values != spaces[k].card.values &&
            spaces[j].card.strings != spaces[k].card.strings)
    }

    /** The cards as values. */
    function Cards(): (cs: seq<Space>)
      reads this, Arrays()
      ensures |cs| == |spaces|
      ensures forall j :: 0 <= j < |spaces| ==> cs[j] == spaces[j].Value()
      ensures Valid() ==> AllValid(cs)
    {
      seq(|spaces|, j requires 0 <= j < |spaces| reads this, Arrays() => spaces[j].Value())
    }

    /** `init`: one default card, and `last_edited` at 0. */
    constructor (std: Routines)
      ensures Valid() && Cards() == [Default(std)]
      ensures lastEdited == 0 && this.std == std
    {
      var cs := NewColorSpace(RGB, [1.0, 1.0, 1.0], std);
      spaces := [cs];
      lastEdited := 0;
      this.std := std;
    }

    /** `copy_to_clipboard`: the text for card `index`; nothing changes. */
    method CopyToClipboard(index: nat) returns (text: string)
      requires Valid() && index < |spaces|
      ensures text == CopyText(Cards()[index], std)
    {
      text := spaces[index].Value().card.Clipboard(std.toString);
    }

    /** `update`: carries out `Step` on the cards in place. No message changes
        `lastEdited`, so Ctrl+C always copies the card at the index set by
        `init`. */
    method Update(msg: Message) returns (clipboard: Option<string>)
      requires Valid() && Admissible(Cards(), lastEdited, msg)
      modifies this, Arrays()
      ensures Valid() && lastEdited == old(lastEdited)
      ensures Outcome(Cards(), clipboard) == Step(old(Cards()), lastEdited, msg, std)
    {
      match msg {
        case Edit(i, m) =>
          EditCard(i, m);
          clipboard := None;
        case ChangeColorSpace(i, target) =>
          SwitchCard(i, target);
          clipboard := None;
        case AddSpace =>
          AddCard();
          clipboard := None;
        case RemoveSpace(i) =>
          RemoveCard(i);
          clipboard := None;
        case CopyToClipboard(i) =>
          var text := CopyToClipboard(i);
          clipboard := Some(text);
        case Key(key, control) =>
          if IsCopyShortcut(key, control) {
            var text := CopyToClipboard(lastEdited);
            clipboard := Some(text);
          } else {
            clipboard := None;
          }
      }
    }

    /** `Message::ColorSpace { index: i, message: m }`: the edit goes to card
        `i`'s struct in place. */
    method EditCard(i: nat, m: SpaceMessage)
      requires Valid() && i < |spaces| && m.index < Arity(spaces[i].kind)
      modifies spaces[i].card.values, spaces[i].card.strings
      ensures Valid()
      ensures Cards() == Step(old(Cards()), lastEdited, Edit(i, m), std).spaces
    {
      var cs := spaces[i];
      match m {
        case ChangeValue(k, v) => cs.ChangeValue(k, v, std);
        case ChangeString(k, t) => cs.ChangeString(k, t, std);
      }
      forall j | 0 <= j < |spaces| && j != i
        ensures spaces[j].Value() == old(spaces[j].Value())
      {
        assert spaces[j].card.values != cs.card.values;
        assert spaces[j].card.strings != cs.card.strings;
      }
    }

    /** `Message::ChangeColorSpace`: card `i` is replaced by its conversion. */
    method SwitchCard(i: nat, target: Kind)
      requires Valid() && i < |spaces|
      modifies this
      ensures Valid() && lastEdited == old(lastEdited)
      ensures Cards() == Step(old(Cards()), lastEdited, ChangeColorSpace(i, target), std).spaces
    {
      var converted := spaces[i].To(target, std);
      spaces := spaces[i := converted];
    }

    /** `Message::AddSpace`: a default card is pushed. */
    method AddCard()
      requires Valid()
      modifies this
      ensures Valid() && lastEdited == old(lastEdited)
      ensures Cards() == Step(old(Cards()), lastEdited, AddSpace, std).spaces
    {
      var cs := NewColorSpace(RGB, [1.0, 1.0, 1.0], std);
      spaces := spaces + [cs];
    }

    /** `Message::RemoveSpace(i)`: card `i` is removed. */
    method RemoveCard(i: nat)
      requires Valid() && i < |spaces|
      modifies this
      ensures Valid() && lastEdited == old(lastEdited)
      ensures Cards() == Step(old(Cards()), lastEdited, RemoveSpace(i), std).spaces
    {
      spaces := spaces[..i] + spaces[i + 1..];
    }
  }
}
