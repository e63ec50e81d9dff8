/** The state every colour-space struct carries (`Rgb`, `Hsv`, `Oklab`,
    `Oklch`, `Cmyk` in src/colorspace/): a fixed-size array of channel values
    and a parallel array of the strings shown in the text inputs. The five
    structs differ only in their arity (four for CMYK, three otherwise) and in
    the conversion their `from_rgb` / `to_rgb` apply, so the shared part is
    modelled once here. `Card` is the contents of such a struct as a value;
    `ChannelArrays` is the struct itself, edited in place. */
module Cards {
  import opened Numerics

  /** The contents of a card: channel values and their display strings. */
  datatype Card = Card(values: seq<real>, strings: seq<string>)
  {
    /** One string per value. */
    predicate Valid() {
      |values| == |strings|
    }

    /** Every string is the formatted value beside it. */
    predicate Synced(toString: real -> string) {
      Valid() && forall k :: 0 <= k < |values| ==> strings[k] == toString(values[k])
    }

    /** `copy_to_clipboard`: the values (never the strings, which may hold
        half-typed text) formatted and separated by `", "`. */
    function Clipboard(toString: real -> string): (text: string)
      ensures values == [] ==> text == ""
      ensures |values| == 1 ==> text == toString(values[0])
      ensures |values| >= 1 ==> toString(values[0]) <= text
    {
      Join(Formatted(values, toString))
    }
  }

  /** Each value formatted with `toString`. */
  function Formatted(vs: seq<real>, toString: real -> string): (ss: seq<string>)
    ensures |ss| == |vs|
    ensures forall k :: 0 <= k < |vs| ==> ss[k] == toString(vs[k])
  {
    seq(|vs|, k requires 0 <= k < |vs| => toString(vs[k]))
  }

  /** What every `from_rgb` builds from the converted values: the values and
      their formatted strings. */
  function Loaded(vs: seq<real>, toString: real -> string): (c: Card)
    ensures c.values == vs && c.Synced(toString)
  {
    Card(vs, Formatted(vs, toString))
  }

  /** `change_value(i, v)`: the slot takes the value and its formatted string;
      every other slot and the arity stay as they were. */
  function EditValue(c: Card, i: nat, v: real, toString: real -> string): (e: Card)
    requires c.Valid() && i < |c.values|
    ensures e.Valid() && |e.values| == |c.values|
    ensures e.values[i] == v && e.strings[i] == toString(v)
    ensures forall k :: 0 <= k < |c.values| && k != i ==> e.values[k] == c.values[k] && e.strings[k] == c.strings[k]
  {
    Card(c.values[i := v], c.strings[i := toString(v)])
  }

  /** `change_string(i, s)`: the slot always shows the text; its value
      changes only when the text parses as a number. */
  function EditText(c: Card, i: nat, s: string, parse: string -> Option<real>): (e: Card)
    requires c.Valid() && i < |c.values|
    ensures e.Valid() && |e.values| == |c.values|
    ensures e.strings[i] == s
    ensures e.values[i] == (if parse(s).Some? then parse(s).value else c.values[i])
    ensures forall k :: 0 <= k < |c.values| && k != i ==> e.values[k] == c.values[k] && e.strings[k] == c.strings[k]
  {
    match parse(s)
    case Some(x) => Card(c.values[i := x], c.strings[i := s])
    case None => Card(c.values, c.strings[i := s])
  }

  /** A numeric edit keeps a card well formed and keeps values and strings
      in step. */
  lemma EditValueKeepsSync(c: Card, i: nat, v: real, toString: real -> string)
    requires c.Synced(toString) && i < |c.values|
    ensures EditValue(c, i, v, toString).Synced(toString)
  {
    var e := EditValue(c, i, v, toString);
    forall k | 0 <= k < |e.values|
      ensures e.strings[k] == toString(e.values[k])
    {
      if k != i {
        assert e.strings[k] == c.strings[k] && e.values[k] == c.values[k];
      }
    }
  }

  /** Typing the formatted text of a value is the same edit as choosing the
      value with the slider, whenever that text parses back to the value. */
  lemma TextPathAgrees(c: Card, i: nat, v: real, toString: real -> string, parse: string -> Option<real>)
    requires c.Valid() && i < |c.values|
    requires parse(toString(v)) == Some(v)
    ensures EditText(c, i, toString(v), parse) == EditValue(c, i, v, toString)
  {
  }

  /** A text edit that does not parse keeps every value, so the copied text
      does not change; the card keeps the text on show, so a synced card stops
      being synced unless the text already was the formatted value. */
  lemma UnparsedText(c: Card, i: nat, s: string, toString: real -> string, parse: string -> Option<real>)
    requires c.Synced(toString) && i < |c.values|
    requires parse(s) == None
    ensures var e := EditText(c, i, s, parse);
      && e.values == c.values
      && e.Clipboard(toString) == c.Clipboard(toString)
      && (e.Synced(toString) <==> s == toString(c.values[i]))
  {
    var e := EditText(c, i, s, parse);
    if s == toString(c.values[i]) {
      forall k | 0 <= k < |e.values|
        ensures e.strings[k] == toString(e.values[k])
      {
        if k != i {
          assert e.strings[k] == c.strings[k];
        }
      }
    } else {
      assert e.strings[i] != toString(e.values[i]);
    }
  }

  /** Repeating a text edit changes nothing more. */
  lemma EditTextIdempotent(c: Card, i: nat, s: string, parse: string -> Option<real>)
    requires c.Valid() && i < |c.values|
    ensures var e := EditText(c, i, s, parse);
      e.Valid() && EditText(e, i, s, parse) == e
  {
  }

  /** `a, b, c`: parts separated by a comma and a space. */
  function Join(parts: seq<string>): string {
    if parts == [] then ""
    else if |parts| == 1 then parts[0]
    else parts[0] + ", " + Join(parts[1..])
  }

  /** Splits text at every `", "`: the reading a user of the copied text
      makes of it. */
  function Split(text: string): (parts: seq<string>)
    ensures |parts| >= 1
    decreases |text|
  {
    if |text| >= 2 && text[0] == ',' && text[1] == ' ' then [""] + Split(text[2..])
    else if text == [] then [""]
    else
      var rest := Split(text[1..]);
      [[text[0]] + rest[0]] + rest[1..]
  }

  /** Text without a comma is glued onto the first field. */
  lemma {:induction false} SplitAfterPlain(p: string, rest: string)
    requires ',' !in p
    ensures var tail := Split(rest);
      Split(p + rest) == [p + tail[0]] + tail[1..]
    decreases |p|
  {
    var tail := Split(rest);
    if p == [] {
      assert p + rest == rest && p + tail[0] == tail[0];
      assert [tail[0]] + tail[1..] == tail;
    } else {
      var text := p + rest;
      assert text[0] == p[0] && p[0] in p;
      assert text[1..] == p[1..] + rest;
      SplitAfterPlain(p[1..], rest);
      var inner := Split(text[1..]);
      assert inner == [p[1..] + tail[0]] + tail[1..];
      assert Split(text) == [[text[0]] + inner[0]] + inner[1..];
      assert [p[0]] + (p[1..] + tail[0]) == p + tail[0];
    }
  }

  /** Joined fields without commas split back into the same fields. */
  lemma {:induction false} SplitJoin(parts: seq<string>)
    requires |parts| >= 1
    requires forall k :: 0 <= k < |parts| ==> ',' !in parts[k]
    ensures Split(Join(parts)) == parts
    decreases |parts|
  {
    if |parts| == 1 {
      SplitAfterPlain(parts[0], "");
      assert parts[0] + "" == parts[0];
    } else {
      var rest := Join(parts[1..]);
      SplitJoin(parts[1..]);
      assert parts[0] + ", " + rest == parts[0] + (", " + rest);
      SplitAfterPlain(parts[0], ", " + rest);
      assert (", " + rest)[2..] == rest;
      assert Split(", " + rest) == [""] + parts[1..];
      assert parts[0] + "" == parts[0];
      assert [parts[0]] + parts[1..] == parts;
    }
  }

  /** The copied text lists the card's values in channel order: when no
      formatted value contains a comma, splitting it at `", "` gives back
      exactly one formatted value per channel. */
  lemma ClipboardFields(c: Card, toString: real -> string)
    requires |c.values| >= 1
    requires forall k :: 0 <= k < |c.values| ==> ',' !in toString(c.values[k])
    ensures Split(c.Clipboard(toString)) == Formatted(c.values, toString)
  {
    SplitJoin(Formatted(c.values, toString));
  }

  /** A colour-space struct: its value and string arrays, edited in place. */
  class ChannelArrays {
    const values: array<real>
    const strings: array<string>

    ghost predicate Valid() {
      values.Length == strings.Length
    }

    /** The card this struct currently holds. */
    function Contents(): (c: Card)
      reads values, strings
      ensures c.Valid() <==> Valid()
    {
      Card(values[..], strings[..])
    }

    /** A struct built by `from_rgb` (or a `Default`) from its values and strings. */
    constructor (vs: seq<real>, ss: seq<string>)
      requires |vs| == |ss|
      ensures Valid() && Contents() == Card(vs, ss)
      ensures fresh(values) && fresh(strings)
    {
      values := new real[|vs|](k requires 0 <= k < |vs| => vs[k]);
      strings := new string[|ss|](k requires 0 <= k < |ss| => ss[k]);
    }

    /** `change_value`: indexing past the arity panics in the source. */
    method ChangeValue(i: nat, v: real, toString: real -> string)
      requires Valid() && i < values.Length
      modifies values, strings
      ensures Contents() == EditValue(old(Contents()), i, v, toString)
    {
      values[i] := v;
      strings[i] := toString(v);
    }

    /** `change_string` */
    method ChangeString(i: nat, s: string, parse: string -> Option<real>)
      requires Valid() && i < values.Length
      modifies values, strings
      ensures Contents() == EditText(old(Contents()), i, s, parse)
    {
      match parse(s) {
        case Some(x) => values[i] := x;
        case None =>
      }
      strings[i] := s;
    }

    /** Overwriting the struct with a freshly built one of the same arity
        (`*rgb = Rgb::from_rgb(..)` in `ColorSpace::from_rgb`). */
    method Load(vs: seq<real>, toString: real -> string)
      requires Valid() && |vs| == values.Length
      modifies values, strings
      ensures Contents() == Loaded(vs, toString)
    {
      forall k | 0 <= k < values.Length {
        values[k] := vs[k];
      }
      forall k | 0 <= k < strings.Length {
        strings[k] := toString(vs[k]);
      }
    }
  }
}
