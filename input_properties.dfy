/**
 * What the press/hold bookkeeping of `update_input` guarantees: `pressed` reports press edges
 * only, releases leave it alone, untracked events change nothing, the right mouse button shares
 * the left button's slot, and the wheel sets or clears its two slots.
 */
module InputProperties {
  import opened Wrappers
  import opened UserInput

  /** Events that fall through to a `_ => ()` arm. */
  predicate Ignored(e: Event) {
    || e.OtherEvent?
    || ((e.KeyDown? || e.KeyUp?) && (e.keycode.None? || e.keycode.value.OtherCode?))
    || ((e.MouseButtonDown? || e.MouseButtonUp?) && e.button != Left && e.button != Right)
  }

  /** The event can set slot `i` of `pressed`: a tracked key or a mouse button going down, or the wheel. */
  predicate Drives(e: Event, i: nat) {
    || (e.KeyDown? && e.keycode.Some? && !e.keycode.value.OtherCode? && i == Index(KeyOf(e.keycode.value).value))
    || (e.MouseButtonDown? && (e.button == Left || e.button == Right) && i == Index(MouseLeftButton))
    || (e.MouseWheel? && e.y > 0 && i == Index(MouseWheelUp))
    || (e.MouseWheel? && e.y < 0 && i == Index(MouseWheelDown))
  }

  /** An ignored event changes nothing. */
  lemma IgnoredEvent(m: InputMap, e: Event)
    requires WellSized(m) && Ignored(e)
    ensures Step(m, e) == m
  {
  }

  /**
   * A key going down is pressed exactly when it was not already held, and is held afterwards;
   * every other slot keeps its flags. A second KeyDown while held (key repeat) is not a press.
   */
  lemma KeyDownEdge(m: InputMap, c: Keycode)
    requires WellSized(m) && !c.OtherCode?
    ensures var i := Index(KeyOf(c).value); var r := Step(m, KeyDown(Some(c)));
      && (r.pressed[i] <==> !m.hold[i]) && r.hold[i]
      && (forall j | 0 <= j < KEY_MAP_SIZE && j != i :: r.pressed[j] == m.pressed[j] && r.hold[j] == m.hold[j])
      && !Step(r, KeyDown(Some(c))).pressed[i]
  {
  }

  /** A key going up is no longer held and leaves `pressed` as it was; other slots are untouched. */
  lemma KeyUpKeepsPressed(m: InputMap, c: Keycode)
    requires WellSized(m) && !c.OtherCode?
    ensures var i := Index(KeyOf(c).value); var r := Step(m, KeyUp(Some(c)));
      && r.pressed == m.pressed && !r.hold[i]
      && (forall j | 0 <= j < KEY_MAP_SIZE && j != i :: r.hold[j] == m.hold[j])
  {
  }

  /** Left and right button events do exactly the same thing. */
  lemma RightButtonIsLeft(m: InputMap)
    requires WellSized(m)
    ensures Step(m, MouseButtonDown(Right)) == Step(m, MouseButtonDown(Left))
    ensures Step(m, MouseButtonUp(Right)) == Step(m, MouseButtonUp(Left))
  {
  }

  /** No event touches the `MouseRightButton` slot. */
  lemma {:induction false} RightSlotUntouched(m: InputMap, events: seq<Event>)
    requires WellSized(m)
    ensures ApplyEvents(m, events).pressed[Index(MouseRightButton)] == m.pressed[Index(MouseRightButton)]
    ensures ApplyEvents(m, events).hold[Index(MouseRightButton)] == m.hold[Index(MouseRightButton)]
    decreases |events|
  {
    if events != [] {
      RightSlotUntouched(Step(m, events[0]), events[1..]);
    }
  }

  /** So after any frame, `MouseRightButton` never reads as pressed. */
  lemma RightSlotNeverPressed(m: InputMap, events: seq<Event>, dx: int, dy: int)
    requires WellSized(m)
    ensures !Update(m, events, dx, dy).pressed[Index(MouseRightButton)]
  {
    RightSlotUntouched(m.(pressed := Cleared()), events);
  }

  /** The wheel: up sets `MouseWheelUp`, down sets `MouseWheelDown`, zero clears both; `hold` is untouched. */
  lemma Wheel(m: InputMap, y: int)
    requires WellSized(m)
    ensures var r := Step(m, MouseWheel(y));
      && r.hold == m.hold
      && (y > 0 ==> r.pressed == m.pressed[Index(MouseWheelUp) := true])
      && (y < 0 ==> r.pressed == m.pressed[Index(MouseWheelDown) := true])
      && (y == 0 ==> !r.pressed[Index(MouseWheelUp)] && !r.pressed[Index(MouseWheelDown)])
  {
  }

  /** A slot of `pressed` that ends up set was set before or was driven by one of the events. */
  lemma {:induction false} PressedHasCause(m: InputMap, events: seq<Event>, i: nat)
    requires WellSized(m) && i < KEY_MAP_SIZE
    requires ApplyEvents(m, events).pressed[i]
    ensures m.pressed[i] || exists j | 0 <= j < |events| :: Drives(events[j], i)
    decreases |events|
  {
    if events != [] {
      var e := events[0];
      PressedHasCause(Step(m, e), events[1..], i);
      if Step(m, e).pressed[i] && !m.pressed[i] {
        assert Drives(events[0], i);
      } else if !Step(m, e).pressed[i] {
        var j :| 0 <= j < |events[1..]| && Drives(events[1..][j], i);
        assert Drives(events[j + 1], i);
      }
    }
  }

  /** Hence a frame reports a press only for a slot one of its own events drove. */
  lemma PressedThisFrame(m: InputMap, events: seq<Event>, dx: int, dy: int, i: nat)
    requires WellSized(m) && i < KEY_MAP_SIZE
    requires Update(m, events, dx, dy).pressed[i]
    ensures exists j | 0 <= j < |events| :: Drives(events[j], i)
  {
    PressedHasCause(m.(pressed := Cleared()), events, i);
  }

  /** The tables after some events depend only on the tables before them. */
  lemma {:induction false} TablesOnly(m1: InputMap, m2: InputMap, events: seq<Event>)
    requires WellSized(m1) && m1.pressed == m2.pressed && m1.hold == m2.hold
    ensures ApplyEvents(m1, events).pressed == ApplyEvents(m2, events).pressed
    ensures ApplyEvents(m1, events).hold == ApplyEvents(m2, events).hold
    decreases |events|
  {
    if events != [] {
      TablesOnly(Step(m1, events[0]), Step(m2, events[0]), events[1..]);
    }
  }

  /** A frame forgets the previous `pressed` flags and mouse motion: only `hold` carries over. */
  lemma UpdateForgetsPressed(m1: InputMap, m2: InputMap, events: seq<Event>, dx: int, dy: int)
    requires WellSized(m1) && WellSized(m2) && m1.hold == m2.hold
    ensures Update(m1, events, dx, dy) == Update(m2, events, dx, dy)
  {
    TablesOnly(m1.(pressed := Cleared()), m2.(pressed := Cleared()), events);
  }

  /** A frame without events reports nothing pressed and keeps every held key held. */
  lemma QuietFrame(m: InputMap, dx: int, dy: int)
    requires WellSized(m)
    ensures Update(m, [], dx, dy) == InputMap(Cleared(), m.hold, dx, dy)
  {
  }
}
