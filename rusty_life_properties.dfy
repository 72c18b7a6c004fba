/**
 * What the control logic of the front end guarantees: the padded board size is the least
 * multiple of 16 that fits, the simulation period never leaves the range of a `u128` and its
 * steps undo each other, toggles cancel out, ESC ends the loop, and the loop produces one entry
 * of generations per frame it runs.
 */
module RustyLifeProperties {
  import opened Wrappers
  import opened UserInput
  import opened RustyLife

  /** The padded size is the least multiple of 16 that is at least the size asked for. */
  lemma PadLeast(n: nat, m: nat)
    requires n <= U32_MAX && PadSize(n).Some?
    requires m % 16 == 0 && m >= n
    ensures PadSize(n).value <= m
  {
  }

  /**
   * NumPLUS and then NumMINUS restore the period wherever NumPLUS had room, except that with
   * LSHIFT held a period of 0 goes up to 10 and then stays there, since only a period above 10
   * goes down by 10.
   */
  lemma PlusThenMinus(ms: nat, shift: bool)
    requires if shift then 0 < ms < U128_MAX - 10 else ms < U128_MAX
    ensures Faster(Slower(ms, shift, true), shift, true) == ms
  {
  }

  /**
   * NumMINUS and then NumPLUS restore the period wherever NumMINUS had room, except that with
   * LSHIFT held `u128::MAX` goes down by 10 and then stays there, since only a period below
   * `u128::MAX - 10` goes up by 10.
   */
  lemma MinusThenPlus(ms: nat, shift: bool)
    requires ms <= U128_MAX
    requires if shift then 10 < ms < U128_MAX else ms > 0
    ensures Slower(Faster(ms, shift, true), shift, true) == ms
  {
  }

  /** At the ends of its range the period stays put. */
  lemma PeriodSaturates(shift: bool)
    ensures Slower(U128_MAX, shift, true) == U128_MAX
    ensures Faster(0, shift, true) == 0
    ensures Faster(10, true, true) == 10
    ensures Slower(0, true, true) == 10
    ensures Slower(U128_MAX - 10, true, true) == U128_MAX - 10
  {
  }

  /** Two frames with the same input flip R and SPACE twice, which restores both settings. */
  lemma ToggleTwice(s: Settings, m: InputMap)
    requires WellSized(m) && s.simStepMs <= U128_MAX
    ensures Control(Control(s, m), m).render == s.render
    ensures Control(Control(s, m), m).runSim == s.runSim
  {
  }

  /** A frame in which ESC is pressed is the last one the loop runs. */
  lemma EscStops(s: Settings, m: InputMap, f: Frame, rest: seq<Frame>, acc: seq<nat>)
    requires WellSized(m) && s.simStepMs <= U128_MAX && s.run
    requires Update(m, f.events, f.dx, f.dy).pressed[Index(Esc)]
    ensures Frames(s, m, [f] + rest, acc) == Frames(s, m, [f], acc)
    ensures !Frames(s, m, [f] + rest, acc).settings.run
  {
    assert ([f] + rest)[0] == f && ([f] + rest)[1..] == rest && [f][1..] == [];
  }

  /** The period the loop ends with is still a `u128`: it never overflows or underflows. */
  lemma {:induction false} PeriodInRange(s: Settings, m: InputMap, frames: seq<Frame>, acc: seq<nat>)
    requires WellSized(m) && s.simStepMs <= U128_MAX
    ensures Frames(s, m, frames, acc).settings.simStepMs <= U128_MAX
    decreases |frames|
  {
    if s.run && frames != [] {
      var f := frames[0];
      var m' := Update(m, f.events, f.dx, f.dy);
      var s' := Control(s, m');
      PeriodInRange(s', m', frames[1..], acc + [Generations(s', m', f.elapsed)]);
    }
  }

  /** The loop only appends to `acc`, at most one entry per frame. */
  lemma {:induction false} EntriesAppended(s: Settings, m: InputMap, frames: seq<Frame>, acc: seq<nat>)
    requires WellSized(m) && s.simStepMs <= U128_MAX
    ensures var g := Frames(s, m, frames, acc).generations;
      |acc| <= |g| <= |acc| + |frames| && g[..|acc|] == acc
    decreases |frames|
  {
    if s.run && frames != [] {
      var f := frames[0];
      var m' := Update(m, f.events, f.dx, f.dy);
      var s' := Control(s, m');
      var acc' := acc + [Generations(s', m', f.elapsed)];
      EntriesAppended(s', m', frames[1..], acc');
      var g := Frames(s', m', frames[1..], acc').generations;
      assert g[..|acc|] == g[..|acc'|][..|acc|];
    }
  }

  /** Every entry the loop appends asks for at most two generations. */
  lemma {:induction false} EntriesBounded(s: Settings, m: InputMap, frames: seq<Frame>, acc: seq<nat>, k: nat)
    requires WellSized(m) && s.simStepMs <= U128_MAX
    requires |acc| <= k < |Frames(s, m, frames, acc).generations|
    ensures Frames(s, m, frames, acc).generations[k] <= 2
    decreases |frames|
  {
    if s.run && frames != [] {
      var f := frames[0];
      var m' := Update(m, f.events, f.dx, f.dy);
      var s' := Control(s, m');
      var acc' := acc + [Generations(s', m', f.elapsed)];
      if k == |acc| {
        EntriesAppended(s', m', frames[1..], acc');
        assert Frames(s', m', frames[1..], acc').generations[..|acc'|] == acc';
      } else {
        EntriesBounded(s', m', frames[1..], acc', k);
      }
    }
  }

  /** A loop that has not been stopped ran every frame, one entry each. */
  lemma {:induction false} EveryFrameRuns(s: Settings, m: InputMap, frames: seq<Frame>, acc: seq<nat>)
    requires WellSized(m) && s.simStepMs <= U128_MAX
    requires Frames(s, m, frames, acc).settings.run
    ensures |Frames(s, m, frames, acc).generations| == |acc| + |frames|
    decreases |frames|
  {
    if s.run && frames != [] {
      var f := frames[0];
      var m' := Update(m, f.events, f.dx, f.dy);
      var s' := Control(s, m');
      EveryFrameRuns(s', m', frames[1..], acc + [Generations(s', m', f.elapsed)]);
    }
  }
}
