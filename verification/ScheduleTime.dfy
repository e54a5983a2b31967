/** Frame time and held input over whole ticks, however many scripts finish and pop in one. */
module ScheduleTime {
  import opened Schedule
  import opened ScheduleInvariants

  // ----- who pays for a tick -----

  /** The lowest frame a tick resumed or returned to; frames under it only waited. */
  function Resumed(t: State): int {
    if t.pending then t.sp - 1 else t.sp
  }

  lemma {:induction false} RunKeepsClock(s: State, own: nat, run: Run)
    requires Running(s, own) && (own + 1 == DEPTH ==> forall c <- run.commands :: !c.PushChild?) && s.elapsed < U32
    ensures var t := RunCommands(s, own, run).1; t.elapsed < U32 && (s.active ==> t.elapsed == s.elapsed)
    decreases |run.commands|
  {
    hide Apply;
    if run.commands != [] {
      var c := run.commands[0];
      ApplyKeepsClock(s, c);
      if !c.PushChild? && !c.RequestAbort? {
        ApplyKeepsStack(s, c);
        if Apply(s, c).1.Continue? { RunKeepsClock(Apply(s, c).0, own, run.(commands := run.commands[1..])); }
      }
    }
  }

  lemma ApplyKeepsClock(s: State, c: Command)
    requires Wf(s) && (c.PushChild? ==> HasRoom(s)) && s.elapsed < U32
    ensures var (t, stop) := Apply(s, c);
            && t.elapsed < U32 && (s.active ==> t.elapsed == s.elapsed)
            && (c.PushChild? || c.RequestAbort? ==> !stop.Continue?)
  {
    hide ApplySetInput, SharedBelow, Scale, Add32, Prepare, PushSlot, HasRoom;
    if c.SetInput? { InputWrites(s, c); }
  }

  /**
   The one frame whose input was showing: the top one, or the one a pending push interrupted with time left. Stated
   here as the rule that is promised, beside the choice the scheduler makes in `ChargedFrame`; they agree, and
   `ConsumeCharges` would fail if that choice were another.
   */
  function Payer(s: State): nat
    requires Wf(s)
  {
    if s.pending && s.sp > 0 && s.frames[s.sp - 1].ttl > 0 then s.sp - 1 else s.sp
  }

  /** From `s` to `t` no frame but the payer has lost time, and the payer either nothing or the whole delta, once. */
  predicate PaidOnce(s: State, delta: nat, t: State)
    requires Wf(s)
  {
    && Wf(t)
    && (forall i :: 0 <= i < DEPTH && i != Payer(s) ==> t.frames[i].ttl == s.frames[i].ttl)
    && t.frames[Payer(s)].ttl in {s.frames[Payer(s)].ttl, Deduct(s.frames[Payer(s)].ttl, delta)}
    && t.elapsed in {s.elapsed, Add32(s.elapsed, delta)}
  }

  /** Frames under the top one keep everything, except the payer's time. */
  predicate OnlyTimeBelow(s: State, t: State)
    requires Wf(s)
  {
    Wf(t) && forall i :: 0 <= i < s.sp ==> t.frames[i] == s.frames[i].(ttl := t.frames[i].ttl)
  }

  lemma ConsumeCharges(s: State, delta: nat)
    requires Wf(s)
    ensures var (exhausted, t) := Consume(s, delta);
            && PaidOnce(s, delta, t) && OnlyTimeBelow(s, t)
            && (exhausted <==> t.frames[Payer(s)].ttl == 0) && t.pending == s.pending
            && (!s.frameAdvance ==> t.frames[Payer(s)].ttl == Deduct(s.frames[Payer(s)].ttl, delta)
                                    && t.elapsed == Add32(s.elapsed, delta))
  {
    hide FrameAdvanceGate, Deduct, Add32;
    GateKeepsFrames(s, s.frames[ChargedFrame(s)].blockDebug, delta);
  }

  /**
   One pass charges at most one frame, and at most once; without frame advance a script that nothing blocks has
   the whole delta taken, and is resumed only when that leaves it nothing or it waits for its first run.
   */
  lemma AdmitCharges(s: State, delta: nat, env: Env)
    requires Wf(s)
    ensures var (resume, t) := Admit(s, delta, env);
            && PaidOnce(s, delta, t) && OnlyTimeBelow(s, t)
            && (!CheckBlocked(s, env).0 && !s.frameAdvance ==>
                  t.frames[Payer(s)].ttl == Deduct(s.frames[Payer(s)].ttl, delta) &&
                      t.elapsed == Add32(s.elapsed, delta))
            && (resume ==> s.pending || Top(t).ttl == 0) && (s.pending ==> resume)
  {
    hide Consume, CheckPauses, Deduct, Add32, PaidOnce, OnlyTimeBelow;
    CheckPausesKeeps(s, env);
    var (blocked, s1) := CheckBlocked(s, env);
    ConsumeCharges(s1, delta);
    var s2 := Consume(s1, delta).1;
    ChargedThrough(s, s1, s1, delta);
    ChargedThrough(s, s1, s2, delta);
    StartsCharged(s, s2, delta);
  }

  /** Clearing finished awaits moves no time. */
  lemma ChargedThrough(s: State, s1: State, t: State, delta: nat)
    requires Wf(s) && s1 == s.(frames := s1.frames) && Wf(s1)
    requires forall i :: 0 <= i < DEPTH && i != s.sp ==> s1.frames[i] == s.frames[i]
    requires Top(s1).ttl == Top(s).ttl
    ensures Payer(s1) == Payer(s) && PaidOnce(s, delta, s1) && OnlyTimeBelow(s, s1)
    ensures PaidOnce(s1, delta, t) ==> PaidOnce(s, delta, t)
    ensures OnlyTimeBelow(s1, t) ==> OnlyTimeBelow(s, t)
  {
  }

  lemma StartsCharged(s: State, t: State, delta: nat)
    requires Wf(s) && Wf(t) && t.sp == s.sp && PaidOnce(s, delta, t) && OnlyTimeBelow(s, t)
    ensures var u := SetCtx(t.(pending := false), s.sp, Active); PaidOnce(s, delta, u) && OnlyTimeBelow(s, u)
  {
  }

  /**
   From admission `a` of a tick on `s` to its end `t`: the frames under those resumed and a running clock have not
   moved, every frame popped in between had no time left, and one it was popped to with time left keeps that and
   its input.
   */
  predicate BelowPost(s: State, a: State, t: State) {
    && Wf(s) && Wf(a) && Wf(t)
    && (!t.abortReq ==>
         && Resumed(t) <= s.sp && t.elapsed < U32
         && (forall i :: 0 <= i < Resumed(t) ==> t.frames[i] == a.frames[i])
         && (forall i :: 0 <= i < s.sp && i > Resumed(t) ==> a.frames[i].ttl == 0)
         && (0 <= Resumed(t) < s.sp ==> LandsOn(a, t, Resumed(t)))
         && (s.active ==> t.elapsed == a.elapsed))
  }

  predicate LandsOn(a: State, t: State, k: nat)
    requires Wf(a) && Wf(t) && k < DEPTH
  {
    a.frames[k].ttl > 0 ==> !t.pending && t.frames[k].ttl == a.frames[k].ttl && t.frames[k].held == a.frames[k].held
  }

  lemma BelowRun(s: State, own: nat, a: State, run: Run)
    requires Wf(s) && s.sp == own && (s.active ==> a.active)
    requires Running(a, own) && (own + 1 == DEPTH ==> forall c <- run.commands :: !c.PushChild?) && a.elapsed < U32
    ensures BelowPost(s, a, RunCommands(a, own, run).1)
  {
    hide RunCommands;
    RunKeepsStack(a, own, run);
    RunKeepsClock(a, own, run);
  }

  lemma BelowPopped(s: State, a: State, s2: State, p: State, b: State, t: State)
    requires Wf(s2) && s.sp > 0 && s2.sp == s.sp && !s2.abortReq && !s2.pending && BelowPost(s, a, s2)
    requires p.sp == s.sp - 1 && SameBelow(s2, p, s.sp - 1) && p.elapsed == s2.elapsed < U32 && (s.active ==> p.active)
    requires Wf(p) && Top(p).ttl == a.frames[p.sp].ttl && (Top(p).ttl > 0 ==> Top(p).held == a.frames[p.sp].held)
    requires BelowPost(p, b, t) && b.elapsed == p.elapsed && forall i :: 0 <= i < p.sp ==> b.frames[i] == p.frames[i]
    requires Top(p).ttl > 0 ==> !t.abortReq && t.sp == p.sp && !t.pending && LandsOn(p, t, p.sp)
    ensures BelowPost(s, a, t)
  {
  }

  /** Frames under the one a tick resumes keep everything, and a running clock moves once, before any script runs. */
  lemma {:induction false} BelowUnchanged(s: State, delta: nat, env: Env, runs: seq<Run>)
    requires Shape(s) && !s.abortReq && Occupied(s) && WfRuns(runs) && s.elapsed < U32
    ensures BelowPost(s, Admit(s, delta, env).1, CalcCtx(s, delta, env, runs).1)
    decreases s.sp
  {
    hide Admit, RunCommands, Pop, DiscardTop, Unprepare, Running, SameControl, OnlyTimeBelow, PaidOnce, BelowPost,
        SharedBelow;
    AdmitKeeps(s, delta, env);
    AdmitShrinks(s, delta, env);
    AdmitCharges(s, delta, env);
    var (resume, a) := Admit(s, delta, env);
    if resume {
      RunKeepsStack(a, s.sp, runs[s.sp]);
      RunKeepsClock(a, s.sp, runs[s.sp]);
      BelowRun(s, s.sp, a, runs[s.sp]);
      var (outcome, s2) := RunCommands(a, s.sp, runs[s.sp]);
      if outcome.Completed? {
        if s.sp > 0 {
          var p := Pop(s2);
          CompletedBelow(a, s.sp, s2);
          PopKeeps(s2, p);
          PopBelow(s2);
          BelowUnchanged(p, 0, env, runs);
          SpentCharges(p, env);
          if Top(p).ttl > 0 { StopsAtTimeLeft(p, env, runs); }
          BelowPopped(s, a, s2, p, Admit(p, 0, env).1, CalcCtx(p, 0, env, runs).1);
        } else {
          EmptiedBelow(s, a, s2, CalcCtx(s, delta, env, runs).1);
        }
      } else if outcome.Failed? {
        AbortedBelow(s, a, RequestAbortAll(s2));
      }
    } else {
      StayedBelow(s, a);
    }
  }

  lemma EmptiedBelow(s: State, a: State, s2: State, t: State)
    requires BelowPost(s, a, s2) && s.sp == 0 && s2.sp == 0 && !s2.pending
    requires t == DiscardTop(SetTop(s2, Unprepare(Top(s2))))
    ensures BelowPost(s, a, t)
  {
    DiscardTopIs(SetTop(s2, Unprepare(Top(s2))));
    hide DiscardTop, Unprepare;
  }

  lemma AbortedBelow(s: State, a: State, t: State)
    requires Wf(s) && Wf(a) && Wf(t) && t.abortReq
    ensures BelowPost(s, a, t)
  {
  }

  /** Once a tick's time is spent, another pass takes none, and leaves the frames below the top one as they are. */
  lemma SpentCharges(s: State, env: Env)
    requires Wf(s) && !s.pending && s.elapsed < U32
    ensures var t := Admit(s, 0, env).1;
            t.elapsed == s.elapsed && forall i :: 0 <= i < s.sp ==> t.frames[i] == s.frames[i]
  {
    hide Admit;
    AdmitCharges(s, 0, env);
  }

  /** Admission never adds time to the top script. */
  lemma AdmitShrinks(s: State, delta: nat, env: Env)
    requires Wf(s)
    ensures Top(Admit(s, delta, env).1).ttl <= Top(s).ttl
    ensures s.elapsed < U32 ==> Admit(s, delta, env).1.elapsed < U32
  {
    hide Admit;
    AdmitCharges(s, delta, env);
  }

  lemma StayedBelow(s: State, a: State)
    requires Wf(s) && Wf(a) && SameControl(s, a) && !s.pending && a.elapsed < U32
    ensures BelowPost(s, a, a)
  {
  }

  lemma PopBelow(s: State)
    requires Wf(s) && s.sp > 0
    ensures SameBelow(s, Pop(s), s.sp - 1) && Pop(s).elapsed == s.elapsed
    ensures Top(Pop(s)).ttl == s.frames[s.sp - 1].ttl
    ensures Top(Pop(s)).held == if s.frames[s.sp - 1].ttl == 0 then Top(s).held else s.frames[s.sp - 1].held
  {
    PopIs(s);
    hide Pop;
  }

  /**
   A tick takes its delta from at most one stack frame and at most once, however many scripts it pops: after the
   one charge, a suspended parent keeps its time, one popped on the way had none, and one popped to with time left
   has it unchanged. A script whose time is not used up is not resumed at all.
   */
  lemma TickChargesOnce(s: State, delta: nat, env: Env, runs: seq<Run>)
    requires Healthy(s) && (s.active || s.pending) && WfRuns(runs) && s.elapsed < U32
    ensures var (resume, a) := Admit(s, delta, env); var t := Tick(s, delta, env, runs);
            && PaidOnce(s, delta, a) && SameHeld(s, a)
            && (resume ==> s.pending || Top(a).ttl == 0)
            && (!resume ==> t == a)
            && BelowPost(s, a, t)
  {
    hide Admit, PaidOnce, OnlyTimeBelow, BelowPost, RequestAbortAll;
    BelowUnchanged(s, delta, env, runs);
    AdmitCharges(s, delta, env);
    AdmitKeeps(s, delta, env);
    StillBelow(s, Admit(s, delta, env).1, CalcCtx(s, delta, env, runs).1);
  }

  lemma StillBelow(s: State, a: State, t: State)
    requires BelowPost(s, a, t)
    ensures BelowPost(s, a, t.(active := false))
  {
  }

  // ----- the input the game sees -----

  /** The script schedules no input of its own. */
  predicate Quiet(run: Run) {
    forall c <- run.commands :: !c.SetInput? && !c.SetGyro?
  }

  /** A push hands the interrupted script's input to the new one, so the game sees no gap. */
  lemma PushKeepsHeld(s: State, m: ModuleId, blockDebug: bool, hasEntry: bool)
    requires Healthy(s) && HasRoom(s) && Occupied(s)
    ensures var t := Push(s, m, blockDebug, hasEntry); Top(t).held == Top(s).held
  {
  }

  lemma QuietApply(s: State, c: Command)
    requires Wf(s) && !c.SetInput? && !c.SetGyro? && !c.PushChild? && !c.RequestAbort?
    ensures var t := Apply(s, c).0; Top(t).held == Top(s).held && Top(t).ttl == Top(s).ttl
  {
    hide Push, ApplySetInput;
  }

  lemma QuietPush(s: State, own: nat, c: Command)
    requires Running(s, own) && c.PushChild? && own + 1 < DEPTH
    ensures var t := Apply(s, c).0;
            !t.abortReq ==>
              Top(t).held == Top(s).held && t.frames[own].held == Top(s).held && t.frames[own].ttl == Top(s).ttl
  {
  }

  lemma ApplyAborts(s: State, c: Command)
    requires Wf(s) && (c.PushChild? ==> HasRoom(s))
    ensures c.PushChild? ==> !Apply(s, c).1.Continue?
    ensures c.RequestAbort? ==> Apply(s, c).1.Cancel? && Apply(s, c).0.abortReq
  {
  }

  lemma {:induction false} QuietRun(s: State, own: nat, run: Run)
    requires Running(s, own) && Quiet(run) && (own + 1 == DEPTH ==> forall c <- run.commands :: !c.PushChild?)
    ensures var t := RunCommands(s, own, run).1;
            !t.abortReq ==>
              t.frames[own].ttl == Top(s).ttl && t.frames[own].held == Top(s).held && Top(t).held == Top(s).held
    decreases |run.commands|
  {
    hide Apply, Push, RequestAbortAll;
    if run.commands != [] {
      var c := run.commands[0];
      ApplyAborts(s, c);
      if c.PushChild? {
        PushKeepsStack(s, own, c);
        QuietPush(s, own, c);
      } else if !c.RequestAbort? {
        ApplyKeepsStack(s, c);
        QuietApply(s, c);
        if Apply(s, c).1.Continue? { QuietRun(Apply(s, c).0, own, run.(commands := run.commands[1..])); }
      }
    }
  }

  /** A tick that popped to a script still holding an input. */
  predicate Restores(s: State, t: State)
    requires Wf(t)
  {
    t.sp < s.sp && !t.pending && Top(t).ttl > 0
  }

  predicate QuietPost(s: State, t: State) {
    Wf(s) && Wf(t) &&
    (!t.abortReq ==>
       && Resumed(t) <= s.sp
       && (Top(s).ttl == 0 && t.sp == s.sp && !t.pending ==> Top(t).ttl == 0)
       && if Restores(s, t) then Top(t).held == s.frames[t.sp].held else Top(t).held == Top(s).held)
  }

  /** Running a quiet script, before anything is popped. */
  lemma QuietStopped(s: State, s1: State, run: Run)
    requires Wf(s) && Running(s1, s.sp) && SameHeld(s, s1) && Top(s1).ttl <= Top(s).ttl && Quiet(run)
    requires s.sp + 1 == DEPTH ==> forall c <- run.commands :: !c.PushChild?
    ensures QuietPost(s, RunCommands(s1, s.sp, run).1)
  {
    hide RunCommands;
    RunKeepsStack(s1, s.sp, run);
    QuietRun(s1, s.sp, run);
  }

  lemma QuietPopped(s: State, s1: State, s2: State, p: State, t: State)
    requires Wf(s) && s.sp > 0 && Running(s1, s.sp) && SameHeld(s, s1) && RunPost(s1, s.sp, Completed, s2)
    requires Top(s2).held == Top(s).held
    requires Wf(p) && p.sp == s.sp - 1 && SameBelow(s2, p, s.sp - 1)
    requires Top(p).held == if Top(p).ttl == 0 then Top(s2).held else s2.frames[s.sp - 1].held
    requires QuietPost(p, t) && (Top(p).ttl > 0 ==> t.sp == p.sp && !t.pending && Top(t).ttl > 0)
    ensures QuietPost(s, t)
  {
  }

  /**
   With no script scheduling input, a tick leaves the game seeing what it saw, or, when it pops to
   a script that was interrupted with time left, exactly what that script held.
   */
  lemma {:induction false} QuietCalc(s: State, delta: nat, env: Env, runs: seq<Run>)
    requires Shape(s) && !s.abortReq && Occupied(s) && WfRuns(runs) && forall run <- runs :: Quiet(run)
    ensures QuietPost(s, CalcCtx(s, delta, env, runs).1)
    decreases s.sp
  {
    hide Admit, RunCommands, Pop, Running, SameControl;
    AdmitKeeps(s, delta, env);
    AdmitShrinks(s, delta, env);
    var (resume, s1) := Admit(s, delta, env);
    if resume {
      RunKeepsStack(s1, s.sp, runs[s.sp]);
      QuietRun(s1, s.sp, runs[s.sp]);
      QuietStopped(s, s1, runs[s.sp]);
      var (outcome, s2) := RunCommands(s1, s.sp, runs[s.sp]);
      if outcome.Completed? && s.sp > 0 {
        var p := Pop(s2);
        CompletedBelow(s1, s.sp, s2);
        PopKeeps(s2, p);
        PopBelow(s2);
        QuietCalc(p, 0, env, runs);
        if Top(p).ttl > 0 { StopsAtTimeLeft(p, env, runs); }
        QuietPopped(s, s1, s2, p, CalcCtx(p, 0, env, runs).1);
      }
    }
  }

  /**
   Once a tick's time is spent it goes no further down than a script that still has some, and leaves it that and its
   input.
   */
  lemma StopsAtTimeLeft(s: State, env: Env, runs: seq<Run>)
    requires Shape(s) && !s.abortReq && !s.pending && Occupied(s) && WfRuns(runs) && Top(s).ttl > 0
    ensures var t := CalcCtx(s, 0, env, runs).1;
            t.sp == s.sp && !t.pending && !t.abortReq && Top(t).ttl == Top(s).ttl && Top(t).held == Top(s).held
  {
    hide RunCommands, Pop, Admit, DiscardTop, Unprepare, RequestAbortAll;
    AdmitCharges(s, 0, env);
    AdmitKeeps(s, 0, env);
  }

  lemma QuietTick(s: State, delta: nat, env: Env, runs: seq<Run>)
    requires Healthy(s) && Occupied(s) && WfRuns(runs) && forall run <- runs :: Quiet(run)
    ensures QuietPost(s, Tick(s, delta, env, runs))
  {
    if s.active || s.pending { QuietCalc(s, delta, env, runs); }
  }

  /** The same for every operation on a stack with a script on it, pushes included. */
  lemma QuietStep(s: State, op: Op)
    requires Healthy(s) && Occupied(s) && Enabled(s, op) && (op.DoTick? ==> forall run <- op.runs :: Quiet(run))
    ensures QuietPost(s, Step(s, op))
  {
    hide Tick, Push;
    match op
    case DoPush(m, b, e) =>
      PushLands(s, m, b, e);
      PushKeepsHeld(s, m, b, e);
    case DoFailedPush =>
    case DoTick(d, env, runs) => QuietTick(s, d, env, runs);
    case DoDebugPause(_) =>
  }

  lemma PushLands(s: State, m: ModuleId, blockDebug: bool, hasEntry: bool)
    requires Healthy(s) && HasRoom(s) && Occupied(s)
    ensures var t := Push(s, m, blockDebug, hasEntry); !t.abortReq ==> t.pending && t.sp == s.sp + 1
  {
  }
}
