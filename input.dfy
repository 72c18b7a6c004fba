/**
 * The keyboard and mouse state of the SDL front end.
 *
 * Each frame, `UpdateInput` clears the `pressed` flags and then folds the frame's events into
 * two tables of 32 flags indexed by `Key`: `hold` says whether a key is down, `pressed` whether
 * it went down during this frame (a press edge). The SDL event pump is replaced by a sequence
 * of events, and the relative mouse motion by two numbers the caller supplies.
 *
 * `Step` and `Update` define the state change on values; the class `Input` is the object with
 * its two arrays, proved to change them exactly as `Update` says.
 */
module UserInput {
  import opened Wrappers

  const KEY_MAP_SIZE: nat := 32

  /** The slots of the key tables. */
  datatype Key =
    | W | A | S | D | R | N | F | I | LShift | RShift | Space | Esc | NumPlus | NumMinus
    | MouseLeftButton | MouseRightButton | MouseWheelUp | MouseWheelDown | NoKey

  /** The discriminant of a `Key`, the index `Index`/`IndexMut` use; it always fits the tables. */
  function Index(k: Key): (i: nat)
    ensures i < KEY_MAP_SIZE
  {
    match k
    case W => 0 case A => 1 case S => 2 case D => 3 case R => 4 case N => 5 case F => 6
    case I => 7 case LShift => 8 case RShift => 9 case Space => 10 case Esc => 11
    case NumPlus => 12 case NumMinus => 13 case MouseLeftButton => 14
    case MouseRightButton => 15 case MouseWheelUp => 16 case MouseWheelDown => 17
    case NoKey => 18
  }

  /** Distinct keys have distinct slots. */
  lemma IndexInjective(k: Key, l: Key)
    requires Index(k) == Index(l)
    ensures k == l
  {
  }

  /** The key codes the front end listens to; every other code is `OtherCode`. */
  datatype Keycode =
    | CodeW | CodeA | CodeS | CodeD | CodeR | CodeN | CodeF | CodeI | CodeLShift | CodeRShift
    | KpPlus | KpMinus | CodeSpace | Escape | OtherCode(code: int)

  datatype MouseButton = Left | Right | Middle | X1 | X2

  /** The events the front end distinguishes; every other event is `OtherEvent`. */
  datatype Event =
    | KeyDown(keycode: Option<Keycode>)
    | KeyUp(keycode: Option<Keycode>)
    | MouseButtonDown(button: MouseButton)
    | MouseButtonUp(button: MouseButton)
    | MouseWheel(y: int)
    | OtherEvent

  /** The key a key code drives, for the fourteen tracked codes. */
  function KeyOf(c: Keycode): (k: Option<Key>)
    ensures k.Some? <==> !c.OtherCode?
    ensures k.Some? ==> Index(k.value) < Index(MouseLeftButton)
  {
    match c
    case CodeW => Some(W) case CodeA => Some(A) case CodeS => Some(S) case CodeD => Some(D)
    case CodeR => Some(R) case CodeN => Some(N) case CodeF => Some(F) case CodeI => Some(I)
    case CodeLShift => Some(LShift) case CodeRShift => Some(RShift)
    case KpPlus => Some(NumPlus) case KpMinus => Some(NumMinus)
    case CodeSpace => Some(Space) case Escape => Some(Esc)
    case OtherCode(_) => None
  }

  /** A snapshot of the input state, `InputMap`. */
  datatype InputMap = InputMap(pressed: seq<bool>, hold: seq<bool>, mouseX: int, mouseY: int)

  predicate WellSized(m: InputMap) {
    |m.pressed| == KEY_MAP_SIZE && |m.hold| == KEY_MAP_SIZE
  }

  /** A table with every flag false. */
  function Cleared(): (t: seq<bool>)
    ensures |t| == KEY_MAP_SIZE && forall i | 0 <= i < |t| :: !t[i]
  {
    seq(KEY_MAP_SIZE, i => false)
  }

  const Blank := InputMap(Cleared(), Cleared(), 0, 0)

  /** A key goes down: it counts as pressed unless it was already held, and it is now held. */
  function Press(m: InputMap, k: Key): (r: InputMap)
    requires WellSized(m)
    ensures WellSized(r) && r.mouseX == m.mouseX && r.mouseY == m.mouseY
    ensures r.hold[Index(k)] && (r.pressed[Index(k)] <==> !m.hold[Index(k)])
    ensures forall j | 0 <= j < KEY_MAP_SIZE && j != Index(k) :: r.pressed[j] == m.pressed[j] && r.hold[j] == m.hold[j]
  {
    m.(pressed := m.pressed[Index(k) := !m.hold[Index(k)]], hold := m.hold[Index(k) := true])
  }

  /** A key goes up: it is no longer held. */
  function Release(m: InputMap, k: Key): (r: InputMap)
    requires WellSized(m)
    ensures WellSized(r) && r.mouseX == m.mouseX && r.mouseY == m.mouseY
    ensures !r.hold[Index(k)] && r.pressed == m.pressed
    ensures forall j | 0 <= j < KEY_MAP_SIZE && j != Index(k) :: r.hold[j] == m.hold[j]
  {
    m.(hold := m.hold[Index(k) := false])
  }

  /** The effect of one event. Both mouse buttons drive the `MouseLeftButton` slot. */
  function Step(m: InputMap, e: Event): (r: InputMap)
    requires WellSized(m)
    ensures WellSized(r) && r.mouseX == m.mouseX && r.mouseY == m.mouseY
  {
    match e
    case KeyDown(Some(c)) =>
      if KeyOf(c).Some? then Press(m, KeyOf(c).value) else m
    case KeyUp(Some(c)) =>
      if KeyOf(c).Some? then Release(m, KeyOf(c).value) else m
    case MouseButtonDown(b) =>
      if b == Left || b == Right then Press(m, MouseLeftButton) else m
    case MouseButtonUp(b) =>
      if b == Left || b == Right then Release(m, MouseLeftButton) else m
    case MouseWheel(y) =>
      if y > 0 then m.(pressed := m.pressed[Index(MouseWheelUp) := true])
      else if y < 0 then m.(pressed := m.pressed[Index(MouseWheelDown) := true])
      else m.(pressed := m.pressed[Index(MouseWheelUp) := false][Index(MouseWheelDown) := false])
    case _ => m
  }

  /** The events of a frame, in order. */
  function ApplyEvents(m: InputMap, events: seq<Event>): (r: InputMap)
    requires WellSized(m)
    ensures WellSized(r) && r.mouseX == m.mouseX && r.mouseY == m.mouseY
    decreases |events|
  {
    if events == [] then m else ApplyEvents(Step(m, events[0]), events[1..])
  }

  /** One frame: `pressed` cleared, the events applied, the mouse motion recorded. */
  function Update(m: InputMap, events: seq<Event>, dx: int, dy: int): (r: InputMap)
    requires WellSized(m)
    ensures WellSized(r) && r.mouseX == dx && r.mouseY == dy
  {
    ApplyEvents(m.(pressed := Cleared()), events).(mouseX := dx, mouseY := dy)
  }

  /** The input object: two tables of `KEY_MAP_SIZE` flags and the last mouse motion. */
  class Input {
    const pressed: array<bool>
    const hold: array<bool>
    var mouseX: int
    var mouseY: int

    predicate Valid()
      reads this
    {
      pressed.Length == KEY_MAP_SIZE && hold.Length == KEY_MAP_SIZE && pressed != hold
    }

    /** The state as a value. */
    function Snapshot(): (m: InputMap)
      reads this, pressed, hold
      requires Valid()
      ensures WellSized(m)
    {
      InputMap(pressed[..], hold[..], mouseX, mouseY)
    }

    /** `Input::new`: nothing pressed, nothing held, no motion. */
    constructor ()
      ensures Valid() && Snapshot() == Blank
      ensures fresh(pressed) && fresh(hold)
    {
      pressed := new bool[KEY_MAP_SIZE](i => false);
      hold := new bool[KEY_MAP_SIZE](i => false);
      mouseX, mouseY := 0, 0;
    }

    /** `get_input_map`: a copy of the state, unaffected by later updates. */
    method GetInputMap() returns (m: InputMap)
      requires Valid()
      ensures m == Snapshot()
    {
      m := InputMap(pressed[..], hold[..], mouseX, mouseY);
    }

    /** The flag updates of a key going down, in place. */
    method PressKey(k: Key)
      requires Valid()
      modifies pressed, hold
      ensures Snapshot() == Press(old(Snapshot()), k)
    {
      var i := Index(k);
      pressed[i] := !hold[i];
      hold[i] := true;
    }

    /** The flag update of a key going up, in place. */
    method ReleaseKey(k: Key)
      requires Valid()
      modifies hold
      ensures Snapshot() == Release(old(Snapshot()), k)
    {
      hold[Index(k)] := false;
    }

    /** One arm of the event `match` of `update_input`. */
    method HandleEvent(e: Event)
      requires Valid()
      modifies pressed, hold
      ensures Snapshot() == Step(old(Snapshot()), e)
    {
      match e {
        case KeyDown(Some(c)) =>
          var k := KeyOf(c);
          if k.Some? {
            PressKey(k.value);
          }
        case KeyUp(Some(c)) =>
          var k := KeyOf(c);
          if k.Some? {
            ReleaseKey(k.value);
          }
        case MouseButtonDown(b) =>
          if b == Left || b == Right {
            PressKey(MouseLeftButton);
          }
        case MouseButtonUp(b) =>
          if b == Left || b == Right {
            ReleaseKey(MouseLeftButton);
          }
        case MouseWheel(y) =>
          if y > 0 {
            pressed[Index(MouseWheelUp)] := true;
          } else if y < 0 {
            pressed[Index(MouseWheelDown)] := true;
          } else {
            pressed[Index(MouseWheelUp)] := false;
            pressed[Index(MouseWheelDown)] := false;
          }
        case _ =>
      }
    }

    /** `update_input`: clear `pressed`, handle the frame's events in order, record the motion. */
    method UpdateInput(events: seq<Event>, dx: int, dy: int)
      requires Valid()
      modifies this, pressed, hold
      ensures Valid() && Snapshot() == Update(old(Snapshot()), events, dx, dy)
    {
      forall i | 0 <= i < pressed.Length {
        pressed[i] := false;
      }
      assert pressed[..] == Cleared() && events[0..] == events;
      assert Snapshot() == old(Snapshot()).(pressed := Cleared());
      var k := 0;
      while k < |events|
        invariant 0 <= k <= |events|
        invariant mouseX == old(mouseX) && mouseY == old(mouseY)
        invariant ApplyEvents(Snapshot(), events[k..]) == ApplyEvents(old(Snapshot()).(pressed := Cleared()), events)
      {
        assert events[k..][0] == events[k] && events[k..][1..] == events[k + 1..];
        HandleEvent(events[k]);
        k := k + 1;
      }
      mouseX, mouseY := dx, dy;
    }
  }
}
