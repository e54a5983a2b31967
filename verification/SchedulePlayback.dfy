/** How far a script's inputs drift from its schedule when frames do not divide them evenly. */
module SchedulePlayback {
  import opened Basics
  import opened Schedule
  import opened ScheduleInvariants

  const CALM_GAME := Env(false, {}, {})

  /** A script that plays the given inputs, of any kind, and then returns. */
  function NextInput(inputs: seq<Command>): Run {
    Run(if inputs == [] then [] else [inputs[0]], Returns)
  }

  /** The time of an input in 60ths, at the rate a script starts with. */
  function Time(c: Command): nat {
    if c.SetInput? then 2 * c.duration else 0
  }

  /** An input call with a duration that is positive and does not overflow. */
  predicate Playable(c: Command) {
    c.SetInput? && 0 < Time(c) < U32
  }

  function OnlyScript(run: Run): (runs: seq<Run>)
    ensures WfRuns(runs)
  {
    seq(DEPTH, i => if i == 0 then run else Run([], Returns))
  }

  /** Plays frames of the given lengths; the inputs still to be scheduled are left over. */
  function PlayTicks(s: State, inputs: seq<Command>, deltas: seq<nat>): (State, seq<Command>)
    requires Wf(s)
    decreases |deltas|
  {
    if deltas == [] then (s, inputs)
    else
      var resumed := (s.active || s.pending) && Admit(s, deltas[0], CALM_GAME).0;
      PlayTicks(Tick(s, deltas[0], CALM_GAME, OnlyScript(NextInput(inputs))),
                if resumed && inputs != [] then inputs[1..] else inputs, deltas[1..])
  }

  /** A lone script waiting for its input to run out, with nothing pausing the game. */
  predicate Playing(s: State) {
    && Wf(s) && Healthy(s) && s.sp == 0 && s.active && !s.pending && Occupied(s) && Top(s).ctx == Suspended
    && !s.frameAdvance && !s.debugPause && Top(s).fps == Fps30
    && Top(s).awaitRequest == 0 && Top(s).awaitTarget == 0 && Top(s).ttl > 0
  }

  /** The time of a list of inputs, in 60ths. */
  function Total(inputs: seq<Command>): nat {
    if inputs == [] then 0 else Time(inputs[0]) + Total(inputs[1..])
  }

  function Sum(xs: seq<nat>): nat {
    if xs == [] then 0 else xs[0] + Sum(xs[1..])
  }

  lemma ResumesWhenSpent(s: State, delta: nat)
    requires Playing(s) && s.elapsed + delta < U32
    ensures var (resume, t) := Admit(s, delta, CALM_GAME);
            && (resume <==> Top(s).ttl <= delta)
            && t.elapsed == s.elapsed + delta
            && t == s.(elapsed := s.elapsed + delta,
                       frames := s.frames[0 := Top(s).(ttl := Deduct(Top(s).ttl, delta),
                                                       ctx := if resume then Active else Suspended)])
  {
  }

  /** A tick shorter than the input keeps it. */
  lemma HoldTick(s: State, delta: nat, inputs: seq<Command>)
    requires Playing(s) && s.elapsed + delta < U32 && delta < Top(s).ttl
    ensures var t := Tick(s, delta, CALM_GAME, OnlyScript(NextInput(inputs)));
            Playing(t) && t.elapsed == s.elapsed + delta && Top(t).ttl == Top(s).ttl - delta
  {
    ResumesWhenSpent(s, delta);
  }

  /** A tick that reaches the end of the input starts the next one, whatever part of the tick is left. */
  lemma NextTick(s: State, delta: nat, inputs: seq<Command>)
    requires Playing(s) && s.elapsed + delta < U32 && Top(s).ttl <= delta
    requires inputs != [] && Playable(inputs[0])
    ensures var t := Tick(s, delta, CALM_GAME, OnlyScript(NextInput(inputs)));
            Playing(t) && t.elapsed == s.elapsed + delta && Top(t).ttl == Time(inputs[0])
  {
    hide Admit;
    ResumesWhenSpent(s, delta);
    PlaysInput(Admit(s, delta, CALM_GAME).1, inputs);
  }

  lemma PlaysInput(s: State, inputs: seq<Command>)
    requires Running(s, 0) && s.active && Top(s).fps == Fps30 && inputs != [] && Playable(inputs[0])
    ensures var (o, t) := RunCommands(s, 0, NextInput(inputs));
            o == Yielded &&
            t == s.(frames := s.frames[0 := Top(t)]) &&
            Top(t) == Top(s).(ctx := Suspended, ttl := Time(inputs[0]), held := Top(t).held)
  {
    hide GameButtons;
    var c := NextInput(inputs).commands[0];
    assert Scale(Top(s).fps, c.duration) == Some(Time(inputs[0]));
    var (s1, stop) := ApplySetInput(s, c);
    assert Apply(s, c) == (s1, Yield);
    assert RunCommands(s, 0, NextInput(inputs)) == (Yielded, SetCtx(s1, 0, Suspended));
  }

  /** A tick that reaches the end of the last input ends playback. */
  lemma LastTick(s: State, delta: nat)
    requires Playing(s) && s.elapsed + delta < U32 && Top(s).ttl <= delta
    ensures var t := Tick(s, delta, CALM_GAME, OnlyScript(NextInput([])));
            !t.active && !t.pending && !t.abortReq && t.elapsed == s.elapsed + delta
  {
    hide Admit;
    ResumesWhenSpent(s, delta);
  }

  lemma {:induction false} IdleTicks(s: State, inputs: seq<Command>, deltas: seq<nat>)
    requires Wf(s) && !s.active && !s.pending && !s.abortReq
    ensures PlayTicks(s, inputs, deltas) == (s, inputs)
    decreases |deltas|
  {
    if deltas != [] { IdleTicks(s, inputs, deltas[1..]); }
  }

  /** The most drift that `n` ended inputs can add: less than one frame each. */
  function Slack(n: nat, longest: nat): (r: nat)
    requires longest > 0
    ensures r == n * (longest - 1)
  {
    if n == 0 then 0 else Slack(n - 1, longest) + longest - 1
  }

  /** The time the clock is ahead of the inputs scheduled so far. */
  predicate Drifts(s: State, scheduled: int, least: int, most: int)
    requires Wf(s)
  {
    least <= s.elapsed + (if s.active then Top(s).ttl else 0) - scheduled <= most
  }

  lemma PlayingHolds(s: State)
    requires Playing(s)
    ensures Wf(s) && s.active
  {
  }

  lemma PlayStep(s: State, inputs: seq<Command>, deltas: seq<nat>)
    requires Playing(s) && (deltas != [] ==> s.elapsed + deltas[0] < U32)
    ensures Wf(s) && s.active && !s.abortReq && Top(s).ttl > 0
    ensures PlayTicks(s, inputs, deltas) ==
            if deltas == [] then (s, inputs)
            else PlayTicks(Tick(s, deltas[0], CALM_GAME, OnlyScript(NextInput(inputs))),
                           if Top(s).ttl <= deltas[0] && inputs != [] then inputs[1..] else inputs, deltas[1..])
  {
    hide Tick, Admit, OnlyScript, NextInput;
    if deltas != [] { ResumesWhenSpent(s, deltas[0]); }
  }

  /**
   However long the frames are, the clock never falls behind the schedule, and each input that
   ends adds less than one frame of drift.
   */
  lemma {:induction false} DriftIsBounded(s: State, scheduled: int, ended: nat, inputs: seq<Command>,
                                          deltas: seq<nat>, longest: nat)
    requires Playing(s) && s.elapsed + Sum(deltas) < U32 && longest > 0
    requires forall i :: 0 <= i < |inputs| ==> Playable(inputs[i])
    requires forall i :: 0 <= i < |deltas| ==> deltas[i] <= longest
    requires Drifts(s, scheduled, 0, Slack(ended, longest))
    ensures var (t, left) := PlayTicks(s, inputs, deltas);
            && Wf(t) && |left| <= |inputs|
            && var n := |inputs| - |left|;
               left == inputs[n..] &&
               Drifts(t, scheduled + Total(inputs[..n]), 0, Slack(ended + n + if t.active then 0 else 1, longest))
    decreases |deltas|
  {
    hide Tick, Admit, OnlyScript, NextInput, Playing, PlayTicks, Drifts, Slack;
    PlayStep(s, inputs, deltas);
    assert inputs[..0] == [] && inputs[0..] == inputs;
    if deltas != [] {
      var delta := deltas[0];
      var t := Tick(s, delta, CALM_GAME, OnlyScript(NextInput(inputs)));
      DriftSteps(s, t, scheduled, ended, delta, longest);
      if delta < Top(s).ttl {
        HoldTick(s, delta, inputs);
        PlayingHolds(t);
        DriftIsBounded(t, scheduled, ended, inputs, deltas[1..], longest);
      } else if inputs == [] {
        LastTick(s, delta);
        IdleTicks(t, [], deltas[1..]);
      } else {
        NextTick(s, delta, inputs);
        PlayingHolds(t);
        var rest := inputs[1..];
        assert forall i :: 0 <= i < |rest| ==> rest[i] == inputs[i + 1];
        DriftIsBounded(t, scheduled + Time(inputs[0]), ended + 1, rest, deltas[1..], longest);
        var (u, left) := PlayTicks(t, rest, deltas[1..]);
        DriftJoins(u, left, inputs, scheduled, ended, longest);
      }
    }
  }

  /** One tick on: the input goes on, the next one starts and adds to the schedule, or the last one has ended. */
  lemma DriftSteps(s: State, t: State, scheduled: int, ended: nat, delta: nat, longest: nat)
    requires Wf(s) && Wf(t) && s.active && Top(s).ttl > 0 && delta <= longest && longest > 0
    requires Drifts(s, scheduled, 0, Slack(ended, longest))
    ensures t.elapsed == s.elapsed + delta && t.active && Top(t).ttl == Top(s).ttl - delta ==>
              Drifts(t, scheduled, 0, Slack(ended, longest))
    ensures t.elapsed == s.elapsed + delta && t.active && Top(s).ttl <= delta ==>
              Drifts(t, scheduled + Top(t).ttl, 0, Slack(ended + 1, longest))
    ensures t.elapsed == s.elapsed + delta && !t.active && Top(s).ttl <= delta ==>
              Drifts(t, scheduled, 0, Slack(ended + 1, longest))
  {
  }

  lemma DriftJoins(u: State, left: seq<Command>, inputs: seq<Command>, scheduled: int, ended: nat, longest: nat)
    requires Wf(u) && longest > 0 && inputs != [] && |left| < |inputs|
    requires forall i :: 0 <= i < |inputs| ==> Playable(inputs[i])
    requires var rest := inputs[1..]; var n := |rest| - |left|;
             left == rest[n..] &&
             Drifts(u, scheduled + Time(inputs[0]) + Total(rest[..n]), 0,
                    Slack(ended + 1 + n + if u.active then 0 else 1, longest))
    ensures var n := |inputs| - |left|;
            left == inputs[n..] &&
            Drifts(u, scheduled + Total(inputs[..n]), 0, Slack(ended + n + if u.active then 0 else 1, longest))
  {
    FirstInput(inputs, |inputs| - 1 - |left|);
    hide Slack, Total, Time;
  }

  lemma FirstInput(inputs: seq<Command>, n: nat)
    requires n < |inputs|
    ensures inputs[n + 1..] == inputs[1..][n..]
    ensures Total(inputs[..n + 1]) == Time(inputs[0]) + Total(inputs[1..][..n])
  {
    assert inputs[..n + 1][1..] == inputs[1..][..n];
  }

  /** The first tick after a push starts the first input with the clock at zero. */
  lemma FirstTick(m: ModuleId, blockDebug: bool, delta: nat, inputs: seq<Command>)
    requires delta < U32 && inputs != [] && Playable(inputs[0])
    ensures var s := Push(INIT, m, blockDebug, true);
            && Admit(s, delta, CALM_GAME).0
            && var t := Tick(s, delta, CALM_GAME, OnlyScript(NextInput(inputs)));
               Playing(t) && t.elapsed == 0 && Top(t).ttl == Time(inputs[0])
  {
    hide GameButtons;
    var s := Push(INIT, m, blockDebug, true);
    var (resume, s1) := Admit(s, delta, CALM_GAME);
    assert resume && Running(s1, 0) && !s1.active;
    var c := NextInput(inputs).commands[0];
    assert Scale(Top(s1).fps, c.duration) == Some(Time(inputs[0]));
    var (s2, stop) := ApplySetInput(s1, c);
    assert Apply(s1, c) == (s2, Yield);
    assert RunCommands(s1, 0, NextInput(inputs)) == (Yielded, SetCtx(s2, 0, Suspended));
  }

  /**
   A script played from a fresh start, with frames of any length up to `longest`: after any number
   of ticks the clock is ahead of the inputs scheduled so far by less than one frame for each input
   that has ended.
   */
  lemma PlaybackDrift(m: ModuleId, blockDebug: bool, inputs: seq<Command>, deltas: seq<nat>, longest: nat)
    requires inputs != [] && deltas != [] && Sum(deltas) < U32
    requires forall i :: 0 <= i < |inputs| ==> Playable(inputs[i])
    requires forall i :: 0 <= i < |deltas| ==> deltas[i] <= longest
    requires longest > 0
    ensures var (t, left) := PlayTicks(Push(INIT, m, blockDebug, true), inputs, deltas);
            && Wf(t) && |left| < |inputs| && left == inputs[|inputs| - |left|..]
            && var started := |inputs| - |left|;
               Drifts(t, Total(inputs[..started]), 0, Slack(started - if t.active then 1 else 0, longest))
  {
    hide Tick, Admit, OnlyScript, NextInput, Push, Healthy;
    var s := Push(INIT, m, blockDebug, true);
    PushPends(m, blockDebug);
    FirstTick(m, blockDebug, deltas[0], inputs);
    var t := Tick(s, deltas[0], CALM_GAME, OnlyScript(NextInput(inputs)));
    var rest := inputs[1..];
    assert forall i :: 0 <= i < |rest| ==> rest[i] == inputs[i + 1];
    DriftIsBounded(t, Time(inputs[0]), 0, rest, deltas[1..], longest);
    FirstInput(inputs, |rest| - |PlayTicks(t, rest, deltas[1..]).1|);
  }

  lemma PushPends(m: ModuleId, blockDebug: bool)
    ensures Wf(Push(INIT, m, blockDebug, true)) && Push(INIT, m, blockDebug, true).pending
  {
  }

  /** The time is a whole number of frames of length `delta`. */
  predicate Whole(time: nat, delta: nat)
    requires delta > 0
  {
    time == 0 || (time >= delta && Whole(time - delta, delta))
  }

  /** When every input is a whole number of equal frames, the clock keeps exactly to the schedule. */
  lemma {:induction false} EvenFramesDoNotDrift(s: State, scheduled: int, inputs: seq<Command>, deltas: seq<nat>,
                                                 delta: nat)
    requires Playing(s) && s.elapsed + Sum(deltas) < U32 && delta > 0 && Whole(Top(s).ttl, delta)
    requires forall c <- inputs :: Playable(c) && Whole(Time(c), delta)
    requires forall d <- deltas :: d == delta
    requires Drifts(s, scheduled, 0, 0)
    ensures var (t, left) := PlayTicks(s, inputs, deltas);
            && Wf(t) && |left| <= |inputs| && Drifts(t, scheduled + Total(inputs[..|inputs| - |left|]), 0, 0)
    decreases |deltas|
  {
    hide Tick, Admit, OnlyScript, NextInput, Playing, PlayTicks, Drifts, Whole;
    PlayStep(s, inputs, deltas);
    assert inputs[..0] == [] && Total([]) == 0;
    if deltas != [] {
      assert deltas[0] in deltas && (inputs != [] ==> inputs[0] in inputs);
      assert forall d <- deltas[1..] :: d in deltas;
      var t := Tick(s, delta, CALM_GAME, OnlyScript(NextInput(inputs)));
      EvenSteps(s, t, scheduled, delta);
      if delta < Top(s).ttl {
        HoldTick(s, delta, inputs);
        PlayingHolds(t);
        EvenFramesDoNotDrift(t, scheduled, inputs, deltas[1..], delta);
      } else {
        if inputs == [] {
          LastTick(s, delta);
          IdleTicks(t, [], deltas[1..]);
        } else {
          NextTick(s, delta, inputs);
          PlayingHolds(t);
          var rest := inputs[1..];
          assert forall c <- rest :: c in inputs;
          EvenFramesDoNotDrift(t, scheduled + Time(inputs[0]), rest, deltas[1..], delta);
          var n := |rest| - |PlayTicks(t, rest, deltas[1..]).1|;
          FirstInput(inputs, n);
          assert inputs[..n + 1] == inputs[..|inputs| - |PlayTicks(t, rest, deltas[1..]).1|];
        }
      }
    }
  }

  lemma EvenSteps(s: State, t: State, scheduled: int, delta: nat)
    requires Wf(s) && Wf(t) && s.active && Top(s).ttl > 0 && delta > 0 && Whole(Top(s).ttl, delta)
    requires Drifts(s, scheduled, 0, 0)
    ensures t.elapsed == s.elapsed + delta && t.active && delta < Top(s).ttl && Top(t).ttl == Top(s).ttl - delta ==>
              Drifts(t, scheduled, 0, 0) && Whole(Top(t).ttl, delta)
    ensures t.elapsed == s.elapsed + delta && t.active && Top(s).ttl <= delta ==>
              Drifts(t, scheduled + Top(t).ttl, 0, 0)
    ensures t.elapsed == s.elapsed + delta && !t.active && Top(s).ttl <= delta ==> Drifts(t, scheduled, 0, 0)
  {
  }
}
