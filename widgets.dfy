/** The colour slider's input handling (src/widgets.rs): dragging the handle
    and scrolling the wheel over it set the slider's value within its range,
    and every new value is published to the card it belongs to. Drawing and
    layout are not modelled; the slider's bounds arrive as a parameter. */
module Widgets {
  import opened Numerics

  datatype Point = Point(x: real, y: real)

  datatype Rectangle = Rectangle(x: real, y: real, width: real, height: real)

  /** The events `on_event` tells apart; a mouse event and its touch
      counterpart are handled alike. A wheel scroll by lines and one by pixels
      are handled alike too, so only the vertical amount is kept. */
  datatype Event =
    | Pressed        // left button pressed, finger pressed
    | Released       // left button released, finger lifted, finger lost
    | Moved          // cursor moved, finger moved
    | Wheel(y: real) // wheel scrolled
    | Other

  datatype Status = Captured | Ignored

  /** The cursor shape `mouse_interaction` asks for; `Idle` is the default. */
  datatype Interaction = Grabbing | Grab | Idle

  /** `cursor.position_over(bounds)`: the cursor's position, when it has one
      and the bounds contain it. `contains` is the toolkit's hit test. */
  function PositionOver(cursor: Option<Point>, bounds: Rectangle, contains: (Rectangle, Point) -> bool): (p: Option<Point>)
    ensures p.Some? <==> cursor.Some? && contains(bounds, cursor.value)
    ensures p.Some? ==> p == cursor
  {
    if cursor.Some? && contains(bounds, cursor.value) then cursor else None
  }

  /** The handle position of a drag to `p`: how far along the track the
      cursor is, clamped to `[0, 1]`. The track is the width less one handle
      (the handle is as wide as the slider is high). */
  function Percent(bounds: Rectangle, p: Point): (t: real)
    requires bounds.width != bounds.height
    ensures 0.0 <= t <= 1.0
  {
    Clamp((p.x - bounds.x) / (bounds.width - bounds.height), 0.0, 1.0)
  }

  /** The value a drag to `p` sets: `start * (1 - t) + end * t`, so the
      start of the track gives `start`, its end gives `end`, and a range of
      one point gives that point wherever the cursor is. */
  function DragValue(start: real, end: real, bounds: Rectangle, p: Point): (v: real)
    requires bounds.width != bounds.height
    ensures Percent(bounds, p) == 0.0 ==> v == start
    ensures Percent(bounds, p) == 1.0 ==> v == end
    ensures start == end ==> v == start
  {
    var t := Percent(bounds, p);
    start * (1.0 - t) + end * t
  }

  /** A drag never leaves the range. */
  lemma DragWithinRange(start: real, end: real, bounds: Rectangle, p: Point)
    requires bounds.width != bounds.height && start <= end
    ensures start <= DragValue(start, end, bounds, p) <= end
  {
    var t, d := Percent(bounds, p), end - start;
    assert DragValue(start, end, bounds, p) == start + t * d;
    if d > 0.0 {
      ScaleLeAt(0.0, t, d, 0.0, t * d);
      ScaleLeAt(t, 1.0, d, t * d, d);
    }
  }

  /** The ends of the track give the ends of the range. */
  lemma DragEnds(start: real, end: real, bounds: Rectangle, p: Point)
    requires bounds.width > bounds.height
    ensures p.x <= bounds.x ==> DragValue(start, end, bounds, p) == start
    ensures p.x >= bounds.x + (bounds.width - bounds.height) ==> DragValue(start, end, bounds, p) == end
  {
    var track := bounds.width - bounds.height;
    var rel := (p.x - bounds.x) / track;
    assert rel * track == p.x - bounds.x;
    if p.x <= bounds.x {
      ScaleLeAt(rel, 0.0, track, p.x - bounds.x, 0.0);
      assert Percent(bounds, p) == 0.0;
    }
    if p.x >= bounds.x + track {
      ScaleLeAt(1.0, rel, track, track, p.x - bounds.x);
      assert Percent(bounds, p) == 1.0;
    }
  }

  /** Moving the cursor right moves the value from `start` toward `end`. */
  lemma DragMonotone(start: real, end: real, bounds: Rectangle, p: Point, q: Point)
    requires bounds.width > bounds.height && start <= end && p.x <= q.x
    ensures DragValue(start, end, bounds, p) <= DragValue(start, end, bounds, q)
  {
    var track := bounds.width - bounds.height;
    var rp, rq := (p.x - bounds.x) / track, (q.x - bounds.x) / track;
    assert rp * track == p.x - bounds.x && rq * track == q.x - bounds.x;
    ScaleLe(rp, rq, track);
    var tp, tq := Percent(bounds, p), Percent(bounds, q);
    assert tp <= tq;
    var d := end - start;
    assert DragValue(start, end, bounds, p) == start + tp * d;
    assert DragValue(start, end, bounds, q) == start + tq * d;
    if d > 0.0 {
      ScaleLeAt(tp, tq, d, tp * d, tq * d);
    }
  }

  /** The value a wheel scroll of `y` sets: one scroll step per unit,
      clamped to the range. */
  function WheelValue(value: real, y: real, scrollSteps: real, start: real, end: real): (v: real)
    requires start <= end
    ensures start <= v <= end
    ensures start <= value + y * scrollSteps <= end ==> v == value + y * scrollSteps
  {
    Clamp(value + y * scrollSteps, start, end)
  }

  /** The slider's mutable state: its value and `ColorSliderState::is_dragging`. */
  datatype SliderState = SliderState(value: real, isDragging: bool)

  /** What one event does: the new state, the value published (if any) and
      whether the event was captured. */
  datatype Reaction = Reaction(state: SliderState, published: Option<real>, status: Status)

  /** The events that move the handle to the cursor. */
  predicate Drags(s: SliderState, event: Event, bounds: Rectangle, cursor: Option<Point>, contains: (Rectangle, Point) -> bool) {
    || (event.Pressed? && PositionOver(cursor, bounds, contains).Some?)
    || (event.Moved? && s.isDragging && cursor.Some?)
  }

  /** The events that scroll the value. */
  predicate Scrolls(s: SliderState, event: Event, bounds: Rectangle, cursor: Option<Point>, contains: (Rectangle, Point) -> bool) {
    event.Wheel? && !s.isDragging && PositionOver(cursor, bounds, contains).Some?
  }

  /** `on_event` on the slider's state. A drag needs a track of non-zero
      length (the `f32` division by zero is not modelled), and a scroll needs
      `start <= end` (`f32::clamp` panics otherwise). */
  function React(s: SliderState, start: real, end: real, scrollSteps: real, event: Event,
                 bounds: Rectangle, cursor: Option<Point>, contains: (Rectangle, Point) -> bool): (r: Reaction)
    requires Drags(s, event, bounds, cursor, contains) ==> bounds.width != bounds.height
    requires Scrolls(s, event, bounds, cursor, contains) ==> start <= end
    ensures r.status == Ignored ==> r == Reaction(s, None, Ignored)
    ensures r.published.Some? ==> r.status == Captured && r.published.value == r.state.value
    ensures r.state.isDragging != s.isDragging ==> r.status == Captured
  {
    match event
    case Pressed =>
      var over := PositionOver(cursor, bounds, contains);
      if over.Some? then
        var v := DragValue(start, end, bounds, over.value);
        Reaction(SliderState(v, true), Some(v), Captured)
      else Reaction(s, None, Ignored)
    case Released =>
      if s.isDragging then Reaction(SliderState(s.value, false), None, Captured)
      else Reaction(s, None, Ignored)
    case Moved =>
      if !s.isDragging then Reaction(s, None, Ignored)
      else if cursor.Some? then
        var v := DragValue(start, end, bounds, cursor.value);
        Reaction(SliderState(v, true), Some(v), Captured)
      else Reaction(s, None, Captured)
    case Wheel(y) =>
      if Scrolls(s, event, bounds, cursor, contains) then
        var v := WheelValue(s.value, y, scrollSteps, start, end);
        Reaction(SliderState(v, false), Some(v), Captured)
      else Reaction(s, None, Ignored)
    case Other => Reaction(s, None, Ignored)
  }

  /** A slider whose value is in range keeps it in range, whatever the event;
      whenever the value changes the new value is published; and a published
      value is the new value. */
  lemma ReactKeepsRange(s: SliderState, start: real, end: real, scrollSteps: real, event: Event,
                        bounds: Rectangle, cursor: Option<Point>, contains: (Rectangle, Point) -> bool)
    requires Drags(s, event, bounds, cursor, contains) ==> bounds.width != bounds.height
    requires start <= s.value <= end
    ensures var r := React(s, start, end, scrollSteps, event, bounds, cursor, contains);
      && start <= r.state.value <= end
      && (r.state.value != s.value ==> r.published == Some(r.state.value))
      && (r.published.Some? ==> r.published.value == r.state.value && r.status == Captured)
  {
    match event
    case Pressed =>
      var over := PositionOver(cursor, bounds, contains);
      if over.Some? {
        DragWithinRange(start, end, bounds, over.value);
      }
    case Moved =>
      if s.isDragging && cursor.Some? {
        DragWithinRange(start, end, bounds, cursor.value);
      }
    case Released =>
    case Wheel(_) =>
    case Other =>
  }

  /** Pressing over the slider starts a drag and is captured; a press
      elsewhere is ignored and changes nothing. */
  lemma PressStartsDrag(s: SliderState, start: real, end: real, scrollSteps: real,
                        bounds: Rectangle, cursor: Option<Point>, contains: (Rectangle, Point) -> bool)
    requires PositionOver(cursor, bounds, contains).Some? ==> bounds.width != bounds.height
    ensures var r := React(s, start, end, scrollSteps, Pressed, bounds, cursor, contains);
      && (r.status == Captured <==> cursor.Some? && contains(bounds, cursor.value))
      && (r.status == Captured ==> r.state.isDragging && r.published.Some?)
      && (r.status == Ignored ==> r == Reaction(s, None, Ignored))
  {
  }

  /** Releasing ends a drag and is captured only when a drag was under way;
      the value never changes. */
  lemma ReleaseEndsDrag(s: SliderState, start: real, end: real, scrollSteps: real,
                        bounds: Rectangle, cursor: Option<Point>, contains: (Rectangle, Point) -> bool)
    ensures var r := React(s, start, end, scrollSteps, Released, bounds, cursor, contains);
      && !r.state.isDragging && r.state.value == s.value && r.published == None
      && (r.status == Captured <==> s.isDragging)
  {
  }

  /** Moving the cursor changes the value only during a drag. */
  lemma MoveOnlyWhileDragging(s: SliderState, start: real, end: real, scrollSteps: real,
                              bounds: Rectangle, cursor: Option<Point>, contains: (Rectangle, Point) -> bool)
    requires s.isDragging && cursor.Some? ==> bounds.width != bounds.height
    ensures var r := React(s, start, end, scrollSteps, Moved, bounds, cursor, contains);
      && r.state.isDragging == s.isDragging
      && (!s.isDragging ==> r == Reaction(s, None, Ignored))
      && (s.isDragging <==> r.status == Captured)
  {
  }

  /** A wheel scroll over an idle slider moves the value by one step per unit
      (clamped to the range) and is captured; during a drag or away from the
      slider it is ignored. Any other event is ignored and changes nothing. */
  lemma WheelScrolls(s: SliderState, start: real, end: real, scrollSteps: real, y: real,
                     bounds: Rectangle, cursor: Option<Point>, contains: (Rectangle, Point) -> bool)
    requires start <= end
    ensures var r := React(s, start, end, scrollSteps, Wheel(y), bounds, cursor, contains);
      && (r.status == Captured <==> !s.isDragging && cursor.Some? && contains(bounds, cursor.value))
      && (r.status == Captured ==> r.state.value == Clamp(s.value + y * scrollSteps, start, end))
      && (r.status == Ignored ==> r == Reaction(s, None, Ignored))
      && React(s, start, end, scrollSteps, Other, bounds, cursor, contains) == Reaction(s, None, Ignored)
  {
  }

  /** `ColorSlider` together with its widget-tree state. `published` records
      the values passed to `on_change` and published to the shell. */
  class ColorSlider {
    var value: real
    const start: real
    const end: real
    const scrollSteps: real
    var isDragging: bool
    var published: seq<real>

    function State(): SliderState
      reads this
    {
      SliderState(value, isDragging)
    }

    /** `color_slider` and the widget's initial `state`: one scroll step is
        `0.01` and no drag is under way. */
    constructor (start: real, end: real, value: real)
      ensures this.start == start && this.end == end && this.value == value
      ensures scrollSteps == 0.01 && !isDragging && published == []
    {
      this.value := value;
      this.start := start;
      this.end := end;
      scrollSteps := 0.01;
      isDragging := false;
      published := [];
    }

    /** The `change` closure: moves the handle to `p` and publishes the value. */
    method Change(bounds: Rectangle, p: Point)
      requires bounds.width != bounds.height
      modifies this
      ensures value == DragValue(start, end, bounds, p)
      ensures published == old(published) + [value] && isDragging == old(isDragging)
    {
      value := start * (1.0 - Percent(bounds, p)) + end * Percent(bounds, p);
      published := published + [value];
    }

    /** `on_event` */
    method OnEvent(event: Event, bounds: Rectangle, cursor: Option<Point>, contains: (Rectangle, Point) -> bool)
      returns (status: Status)
      requires Drags(State(), event, bounds, cursor, contains) ==> bounds.width != bounds.height
      requires Scrolls(State(), event, bounds, cursor, contains) ==> start <= end
      modifies this
      ensures var r := React(old(State()), start, end, scrollSteps, event, bounds, cursor, contains);
        && State() == r.state && status == r.status
        && published == old(published) + (if r.published.Some? then [r.published.value] else [])
    {
      match event {
        case Pressed =>
          var over := PositionOver(cursor, bounds, contains);
          if over.Some? {
            isDragging := true;
            Change(bounds, over.value);
            return Captured;
          }
        case Released =>
          if isDragging {
            isDragging := false;
            return Captured;
          }
        case Moved =>
          if isDragging {
            if cursor.Some? {
              Change(bounds, cursor.value);
            }
            return Captured;
          }
        case Wheel(y) =>
          if !isDragging && PositionOver(cursor, bounds, contains).Some? {
            value := value + y * scrollSteps;
            value := Clamp(value, start, end);
            published := published + [value];
            return Captured;
          }
        case Other =>
      }
      return Ignored;
    }

    /** `mouse_interaction`: a closed hand while dragging, an open hand over
        the slider, the default cursor otherwise. */
    function MouseInteraction(bounds: Rectangle, cursor: Option<Point>, contains: (Rectangle, Point) -> bool): (i: Interaction)
      reads this
      ensures i == Grabbing <==> isDragging
      ensures i == Grab <==> !isDragging && cursor.Some? && contains(bounds, cursor.value)
    {
      if isDragging then Grabbing
      else if PositionOver(cursor, bounds, contains).Some? then Grab
      else Idle
    }
  }
}
