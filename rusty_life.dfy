/**
 * The control logic of the SDL front end: the board size rounded up to whole 16-cell words, and
 * the main loop, which each frame reads the input and then quits, toggles rendering or the
 * simulation, changes the simulation period, and asks for generations.
 *
 * The generation step itself, the renderer, the view, the random initial board and the clocks
 * are outside this model: a generation is only counted, and the milliseconds since the last
 * timed generation are part of each frame's input.
 */
module RustyLife {
  import opened Wrappers
  import opened Torus
  import opened UserInput

  const U32_MAX: nat := 0xFFFF_FFFF
  const U128_MAX: nat := 0xFFFF_FFFF_FFFF_FFFF_FFFF_FFFF_FFFF_FFFF

  /**
   * One board dimension rounded up to a multiple of 16, as the `u32` it is. None when the
   * addition overflows `u32` (a panic in a debug build).
   */
  function PadSize(n: nat): (r: Option<nat>)
    requires n <= U32_MAX
    ensures r.None? <==> n % 16 != 0 && n > U32_MAX - 15
    ensures r.Some? ==> r.value % 16 == 0 && n <= r.value < n + 16 && r.value <= U32_MAX
    ensures n % 16 == 0 ==> r == Some(n)
  {
    var x := n % 16;
    if x == 0 then Some(n)
    else if n + (16 - x) > U32_MAX then None
    else Some(n + (16 - x))
  }

  /** Both dimensions of the board padded, as `RustyLife::new` does. */
  function PadBoard(cols: nat, rows: nat): (r: Option<(nat, nat)>)
    requires cols <= U32_MAX && rows <= U32_MAX
    ensures r.Some? <==> PadSize(cols).Some? && PadSize(rows).Some?
    ensures r.Some? ==> r.value == (PadSize(cols).value, PadSize(rows).value)
  {
    match (PadSize(cols), PadSize(rows))
    case (Some(c), Some(r)) => Some((c, r))
    case _ => None
  }

  /** The locals of `run` that outlive a frame. */
  datatype Settings = Settings(simStepMs: nat, render: bool, runSim: bool, run: bool)

  const Initial := Settings(10, true, true, true)

  /** The simulation period after NumPLUS: ten more with LSHIFT held, else one more, never past `u128::MAX`. */
  function Slower(ms: nat, shift: bool, plus: bool): (r: nat)
    requires ms <= U128_MAX
    ensures ms <= r <= U128_MAX
    ensures !plus ==> r == ms
    ensures plus && shift ==> r == (if ms < U128_MAX - 10 then ms + 10 else ms)
    ensures plus && !shift ==> r == (if ms < U128_MAX then ms + 1 else ms)
  {
    if shift && plus then (if ms < U128_MAX - 10 then ms + 10 else ms)
    else if plus then (if ms < U128_MAX then ms + 1 else ms)
    else ms
  }

  /** The simulation period after NumMINUS: ten less with LSHIFT held, else one less, never below zero. */
  function Faster(ms: nat, shift: bool, minus: bool): (r: nat)
    ensures r <= ms
    ensures !minus ==> r == ms
    ensures minus && shift ==> r == (if ms > 10 then ms - 10 else ms)
    ensures minus && !shift ==> r == (if ms > 0 then ms - 1 else ms)
  {
    if shift && minus then (if ms > 10 then ms - 10 else ms)
    else if minus then (if ms > 0 then ms - 1 else ms)
    else ms
  }

  /** The settings after a frame whose input state is `m`. */
  function Control(s: Settings, m: InputMap): (r: Settings)
    requires WellSized(m) && s.simStepMs <= U128_MAX
    ensures r.simStepMs <= U128_MAX
    ensures r.run <==> s.run && !m.pressed[Index(Esc)]
    ensures r.render <==> (s.render != m.pressed[Index(R)])
    ensures r.runSim <==> (s.runSim != m.pressed[Index(Space)])
  {
    var shift := m.hold[Index(LShift)];
    Settings(
      Faster(Slower(s.simStepMs, shift, m.pressed[Index(NumPlus)]), shift, m.pressed[Index(NumMinus)]),
      if m.pressed[Index(R)] then !s.render else s.render,
      if m.pressed[Index(Space)] then !s.runSim else s.runSim,
      if m.pressed[Index(Esc)] then false else s.run)
  }

  /**
   * The generations a frame asks for, with the settings `s` after its controls: one for N, one
   * more when the simulation runs and its period has elapsed.
   */
  function Generations(s: Settings, m: InputMap, elapsed: nat): (g: nat)
    requires WellSized(m)
    ensures g <= 2
    ensures g == 0 <==> !m.pressed[Index(N)] && !(s.runSim && elapsed >= s.simStepMs)
  {
    Bit(m.pressed[Index(N)]) + Bit(s.runSim && elapsed >= s.simStepMs)
  }

  /** The input of one frame: its events, the relative mouse motion, the time since the last timed generation. */
  datatype Frame = Frame(events: seq<Event>, dx: int, dy: int, elapsed: nat)

  /** Where the loop ends: the settings, the input state, and the generations asked for frame by frame. */
  datatype Trace = Trace(settings: Settings, input: InputMap, generations: seq<nat>)

  /** The loop over the frames while `run` holds, after the frames that produced `acc`. */
  function Frames(s: Settings, m: InputMap, frames: seq<Frame>, acc: seq<nat>): (r: Trace)
    requires WellSized(m) && s.simStepMs <= U128_MAX
    ensures !s.run ==> r == Trace(s, m, acc)
    ensures r.settings.run ==> s.run
    ensures WellSized(r.input)
    decreases |frames|
  {
    if !s.run || frames == [] then Trace(s, m, acc)
    else
      var f := frames[0];
      var m' := Update(m, f.events, f.dx, f.dy);
      var s' := Control(s, m');
      Frames(s', m', frames[1..], acc + [Generations(s', m', f.elapsed)])
  }

  /** The two `if` chains of `run` that change the simulation period. */
  method AdjustPeriod(ms: nat, shift: bool, plus: bool, minus: bool) returns (r: nat)
    requires ms <= U128_MAX
    ensures r == Faster(Slower(ms, shift, plus), shift, minus)
  {
    r := ms;
    if shift && plus {
      if r < U128_MAX - 10 {
        r := r + 10;
      }
    } else if plus {
      if r < U128_MAX {
        r := r + 1;
      }
    }
    if shift && minus {
      if r > 10 {
        r := r - 10;
      }
    } else if minus {
      if r > 0 {
        r := r - 1;
      }
    }
  }

  /** The body of the loop of `run` after the input update: the key checks in order, then the timer. */
  method ControlFrame(s: Settings, m: InputMap, elapsed: nat) returns (next: Settings, requested: nat)
    requires WellSized(m) && s.simStepMs <= U128_MAX
    ensures next == Control(s, m) && requested == Generations(next, m, elapsed)
  {
    var simStepMs := s.simStepMs;
    var render := s.render;
    var runSim := s.runSim;
    var run := s.run;
    requested := 0;
    if m.pressed[Index(Esc)] {
      run := false;
    }
    if m.pressed[Index(N)] {
      requested := requested + 1;
    }
    if m.pressed[Index(R)] {
      render := !render;
    }
    if m.pressed[Index(Space)] {
      runSim := !runSim;
    }
    simStepMs := AdjustPeriod(simStepMs, m.hold[Index(LShift)], m.pressed[Index(NumPlus)], m.pressed[Index(NumMinus)]);
    if runSim && elapsed >= simStepMs {
      requested := requested + 1;
    }
    next := Settings(simStepMs, render, runSim, run);
  }

  /** `run`: the main loop, over the frames given, with the input object doing the updates. */
  method Run(input: Input, frames: seq<Frame>) returns (s: Settings, generations: seq<nat>)
    requires input.Valid()
    modifies input, input.pressed, input.hold
    ensures input.Valid()
    ensures Trace(s, input.Snapshot(), generations) == Frames(Initial, old(input.Snapshot()), frames, [])
  {
    s := Initial;
    generations := [];
    var i := 0;
    while s.run && i < |frames|
      invariant 0 <= i <= |frames| && input.Valid() && s.simStepMs <= U128_MAX
      invariant Frames(s, input.Snapshot(), frames[i..], generations)
             == Frames(Initial, old(input.Snapshot()), frames, [])
      decreases |frames| - i
    {
      assert frames[i..][0] == frames[i] && frames[i..][1..] == frames[i + 1..];
      var f := frames[i];
      input.UpdateInput(f.events, f.dx, f.dy);
      var m := input.GetInputMap();
      var requested;
      s, requested := ControlFrame(s, m, f.elapsed);
      generations := generations + [requested];
      i := i + 1;
    }
  }
}
