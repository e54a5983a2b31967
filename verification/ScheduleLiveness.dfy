/** Whether a script left on the stack will be looked at again by a later tick. */
module ScheduleLiveness {
  import opened Basics
  import opened Schedule
  import opened ScheduleInvariants

  /** A script that is on the stack, and that no tick will look at before something else is pushed. */
  predicate Stalled(s: State) {
    Wf(s) && Occupied(s) && !s.active && !s.pending && !s.abortReq
  }

  predicate AtRest(f: Frame) {
    f.ttl == 0 && f.awaitRequest == 0 && f.awaitTarget == 0
  }

  /** Scripts have a frame rate, and before playback starts none of them holds an input or waits for anything. */
  predicate Settled(s: State) {
    Wf(s) && forall i :: 0 <= i < DEPTH && s.frames[i].mod.Some? ==> SettledFrame(s, s.frames[i])
  }

  predicate SettledFrame(s: State, f: Frame) {
    f.fps != FpsUnset && (s.active || s.abortReq || AtRest(f))
  }

  predicate StepsFrames(c: Command) {
    c.BeginFrameAdvance? || c.StepFrameAdvance? || c.EndFrameAdvance?
  }

  predicate Unstepped(runs: seq<Run>) {
    forall run <- runs, c <- run.commands :: !StepsFrames(c)
  }

  // ----- what every run keeps -----

  /** Each frame is as settled as one of the old ones with the same module. */
  lemma SettledKept(s: State, t: State)
    requires Settled(s) && Wf(t) && (s.active || s.abortReq ==> t.active || t.abortReq)
    requires forall i :: 0 <= i < DEPTH && t.frames[i].mod.Some? ==>
               s.frames[i].mod.Some? && t.frames[i].fps == s.frames[i].fps &&
                   (AtRest(s.frames[i]) ==> AtRest(t.frames[i]))
    ensures Settled(t)
  {
  }

  lemma PushSettles(s: State, m: ModuleId, blockDebug: bool, hasEntry: bool)
    requires Settled(s) && HasRoom(s)
    ensures Settled(Push(s, m, blockDebug, hasEntry))
  {
    assert Wf(s);
    hide Settled, RequestAbortAll;
    var (slot, f) := PushSlot(s);
    var f1 := f.(mod := Some(m), blockDebug := blockDebug);
    if f.mod.Some? {
      SlotSettles(s, slot, f, s.sp, s.pending);
      AbortSettles(s.(frames := s.frames[slot := f]));
    } else if !hasEntry {
      SlotSettles(s, slot, f1, s.sp, s.pending);
      AbortSettles(s.(frames := s.frames[slot := f1]));
    } else {
      SlotSettles(s, slot, Prepare(f1), slot, true);
    }
  }

  lemma SlotSettles(s: State, slot: nat, f: Frame, sp: nat, pending: bool)
    requires Settled(s) && slot < DEPTH && sp < DEPTH && AtRest(f) && f.fps != FpsUnset
    ensures Settled(s.(frames := s.frames[slot := f], sp := sp, pending := pending))
  {
  }

  /** A call that is neither a push nor an abort: the script's frame stays settled, playback may begin. */
  lemma ApplySettles(s: State, c: Command)
    requires Settled(s) && Top(s).mod.Some? && !c.PushChild? && !c.RequestAbort?
    ensures Settled(Apply(s, c).0)
    ensures (c.SetInput? || c.Await?) ==> Apply(s, c).0.active
  {
    hide GameButtons;
    ApplyKeepsStack(s, c);
    assert Top(s).fps != FpsUnset;
  }

  lemma AbortSettles(s: State)
    requires Settled(s)
    ensures Settled(RequestAbortAll(s))
  {
  }

  lemma SetCtxSettles(s: State, i: nat, c: Ctx)
    requires Settled(s) && i < DEPTH
    ensures Settled(SetCtx(s, i, c))
  {
  }

  lemma {:induction false} RunSettles(s: State, own: nat, run: Run)
    requires Running(s, own) && Settled(s) && (own + 1 == DEPTH ==> forall c <- run.commands :: !c.PushChild?)
    ensures Settled(RunCommands(s, own, run).1)
    decreases |run.commands|
  {
    hide Settled, Push, RequestAbortAll, SetCtx, ApplySetInput, ApplyAwait, ApplyStep;
    if run.commands == [] {
      SetCtxSettles(s, own, Finished);
      SetCtxSettles(s, own, Exception);
    } else {
      var c := run.commands[0];
      var (s1, stop) := Apply(s, c);
      if c.PushChild? {
        PushSettles(s, c.mod, c.blockDebug, c.hasEntry);
      } else if c.RequestAbort? {
        AbortSettles(s);
      } else {
        ApplyKeepsStack(s, c);
        ApplySettles(s, c);
        if stop.Continue? { RunSettles(s1, own, run.(commands := run.commands[1..])); }
      }
      if !stop.Continue? { SetCtxSettles(s1, own, if stop.Yield? then Suspended else Aborted); }
    }
  }

  /** No frame has gained an input or something to wait for. */
  predicate NoLessRest(s: State, t: State) {
    && Wf(s) && Wf(t) && t.active == s.active && t.abortReq == s.abortReq
    && forall i :: 0 <= i < DEPTH ==>
         && t.frames[i].mod == s.frames[i].mod && t.frames[i].fps == s.frames[i].fps
         && (AtRest(s.frames[i]) ==> AtRest(t.frames[i]))
  }

  lemma NoLessRestTrans(s: State, t: State, u: State)
    requires NoLessRest(s, t) && NoLessRest(t, u)
    ensures NoLessRest(s, u)
  {
  }

  lemma AdmitSettles(s: State, delta: nat, env: Env)
    requires Settled(s)
    ensures Settled(Admit(s, delta, env).1)
  {
    AdmitRests(s, delta, env);
    hide Admit;
    SettledKept(s, Admit(s, delta, env).1);
  }

  lemma AdmitRests(s: State, delta: nat, env: Env)
    requires Wf(s)
    ensures NoLessRest(s, Admit(s, delta, env).1)
  {
    hide Consume, CheckBlocked, NoLessRest;
    CheckBlockedRests(s, env);
    var s1 := CheckBlocked(s, env).1;
    ConsumeRests(s1, delta);
    var s2 := Consume(s1, delta).1;
    NoLessRestTrans(s, s1, s2);
    StartRests(s, s2);
  }

  lemma StartRests(s: State, t: State)
    requires NoLessRest(s, t) && t.sp == s.sp
    ensures NoLessRest(s, SetCtx(t.(pending := false), s.sp, Active))
  {
  }

  lemma CheckBlockedRests(s: State, env: Env)
    requires Wf(s)
    ensures NoLessRest(s, CheckBlocked(s, env).1)
  {
    hide CheckPauses;
    CheckPausesRests(s, env);
  }

  lemma CheckPausesRests(s: State, env: Env)
    requires Wf(s)
    ensures var f := CheckPauses(s, env).1;
            f.mod == Top(s).mod && f.fps == Top(s).fps && (AtRest(Top(s)) ==> AtRest(f))
  {
  }

  lemma ConsumeRests(s: State, delta: nat)
    requires Wf(s)
    ensures NoLessRest(s, Consume(s, delta).1)
  {
    hide FrameAdvanceGate;
    GateKeepsFrames(s, s.frames[ChargedFrame(s)].blockDebug, delta);
  }

  lemma PopSettles(s: State)
    requires Settled(s) && s.sp > 0
    ensures Settled(Pop(s))
  {
    PopFrames(s);
    hide Pop;
    SettledKept(s, Pop(s));
  }

  lemma {:induction false} CalcCtxSettles(s: State, delta: nat, env: Env, runs: seq<Run>)
    requires Shape(s) && !s.abortReq && Occupied(s) && WfRuns(runs) && Settled(s)
    ensures Settled(CalcCtx(s, delta, env, runs).1)
    decreases s.sp
  {
    hide Admit, RunCommands, Pop, Settled, DiscardTop, RequestAbortAll, Unprepare;
    AdmitKeeps(s, delta, env);
    AdmitSettles(s, delta, env);
    var (resume, s1) := Admit(s, delta, env);
    if resume {
      RunKeepsStack(s1, s.sp, runs[s.sp]);
      RunSettles(s1, s.sp, runs[s.sp]);
      var (outcome, s2) := RunCommands(s1, s.sp, runs[s.sp]);
      if outcome.Failed? {
        AbortSettles(s2);
      } else if outcome.Completed? {
        if s.sp == 0 {
          EmptiedSettles(s2);
        } else {
          CompletedBelow(s1, s.sp, s2);
          PopKeeps(s2, Pop(s2));
          PopSettles(s2);
          CalcCtxSettles(Pop(s2), 0, env, runs);
        }
      }
    }
  }

  lemma EmptiedSettles(s: State)
    requires Settled(s)
    ensures Settled(DiscardTop(SetTop(s, Unprepare(Top(s)))))
  {
    DiscardTopIs(SetTop(s, Unprepare(Top(s))));
    hide DiscardTop;
  }

  lemma StepSettles(s: State, op: Op)
    requires Sound(s) && Settled(s) && Enabled(s, op)
    ensures Settled(Step(s, op))
  {
    match op
    case DoPush(m, b, e) => PushSettles(s, m, b, e);
    case DoFailedPush => AbortSettles(s);
    case DoTick(d, env, runs) =>
      hide CalcCtx, RequestAbortAll;
      if s.abortReq {
        ClearedSettles(s, d, env, runs);
      } else if s.active || s.pending {
        CalcCtxSettles(s, d, env, runs);
        CalcCtxKeeps(s, d, env, runs);
      }
    case DoDebugPause(_) =>
  }

  lemma ClearedSettles(s: State, delta: nat, env: Env, runs: seq<Run>)
    requires Sound(s) && s.abortReq && WfRuns(runs)
    ensures Settled(Tick(s, delta, env, runs))
  {
    ProcessAbortClears(s);
  }

  // ----- exactly when a tick stalls -----

  /** The call neither schedules nor awaits nor starts anything, though it may begin, step or end frame advance. */
  predicate Idles(c: Command) {
    c.SetGyro? || c.BlockOnDebugPause? || c.BlockOnLoadingPause? || StepsFrames(c)
  }

  predicate Inert(run: Run) {
    run.ending == Returns && forall c <- run.commands :: Idles(c)
  }

  /** What decides whether DebugPause holds a script back. */
  datatype Hold = Hold(debugPause: bool, frameAdvance: bool, bypass: nat)

  function HoldOf(s: State): Hold {
    Hold(s.debugPause, s.frameAdvance, s.bypass)
  }

  /** A pause keeps the script in this frame from being resumed; DebugPause does not while stepped time is left. */
  predicate Blocks(h: Hold, f: Frame, env: Env) {
    (h.debugPause && f.blockDebug && !(h.frameAdvance && h.bypass > 0)) || (env.loadingPause && f.blockLoading)
  }

  /** Frame advance pauses the game when no stepped time is left, and lets it go on while there is some. */
  function Gated(h: Hold, blockDebug: bool, delta: nat): Hold {
    if !h.frameAdvance then h
    else if h.bypass == 0 then h.(debugPause := true)
    else if !blockDebug then h
    else if h.debugPause then h.(debugPause := false)
    else var left := Deduct(h.bypass, delta); h.(bypass := left, debugPause := left == 0)
  }

  function Begun(h: Hold): Hold {
    if h.frameAdvance then h.(debugPause := true) else Hold(true, true, 0)
  }

  function Called(h: Hold, fps: Fps, c: Command): Hold {
    match c
    case BeginFrameAdvance => Begun(h)
    case StepFrameAdvance(d) =>
      var g := if h.frameAdvance then h else Begun(h);
      g.(bypass := Add32(g.bypass, match Scale(fps, d) case None => 0 case Some(v) => v))
    case EndFrameAdvance => Hold(false, false, 0)
    case _ => h
  }

  function CalledAll(h: Hold, fps: Fps, commands: seq<Command>): Hold
    decreases |commands|
  {
    if commands == [] then h else CalledAll(Called(h, fps, commands[0]), fps, commands[1..])
  }

  /** What the script in a frame leaves to the one below when it is admitted, makes its calls and returns. */
  function Passed(h: Hold, f: Frame, delta: nat, run: Run): Hold {
    CalledAll(Gated(h, f.blockDebug, delta), f.fps, run.commands)
  }

  /** A pause stops the tick at frame k, or at one under it to which it comes through scripts that do nothing. */
  predicate Stuck(s: State, h: Hold, delta: nat, env: Env, runs: seq<Run>, k: nat)
    requires k < |s.frames| && k < |runs|
    decreases k
  {
    Blocks(h, s.frames[k], env) ||
    (Inert(runs[k]) && k > 0 && Stuck(s, Passed(h, s.frames[k], delta, runs[k]), 0, env, runs, k - 1))
  }

  /** The queued script does nothing, and the tick gets stuck at one below it. */
  predicate LeavesBehind(s: State, delta: nat, env: Env, runs: seq<Run>)
    requires Wf(s) && WfRuns(runs)
  {
    Inert(runs[s.sp]) && s.sp > 0 &&
    Stuck(s, Passed(HoldOf(s), Top(s), delta, runs[s.sp]), 0, env, runs, s.sp - 1)
  }

  /** Frames under `own` are still to be blocked, and run, as they were. */
  predicate SameBlocks(s: State, t: State, own: nat) {
    && Wf(s) && Wf(t)
    && forall i :: 0 <= i < own && i < DEPTH ==>
         && t.frames[i].blockDebug == s.frames[i].blockDebug && t.frames[i].blockLoading == s.frames[i].blockLoading
         && t.frames[i].fps == s.frames[i].fps
  }

  lemma {:induction false} StuckThrough(s: State, t: State, own: nat, h: Hold, delta: nat, env: Env, runs: seq<Run>,
                                        k: nat)
    requires SameBlocks(s, t, own) && k < own <= DEPTH && |runs| == DEPTH
    ensures Stuck(s, h, delta, env, runs, k) == Stuck(t, h, delta, env, runs, k)
    decreases k
  {
    hide Gated, CalledAll, Inert;
    if k > 0 { StuckThrough(s, t, own, Passed(h, s.frames[k], delta, runs[k]), 0, env, runs, k - 1); }
  }

  /** A run before playback has begun: if it does nothing nothing begins, and otherwise something does or aborts. */
  lemma {:induction false} InertRun(s: State, own: nat, run: Run)
    requires Running(s, own) && Settled(s) && (own + 1 == DEPTH ==> forall c <- run.commands :: !c.PushChild?)
    ensures var (o, t) := RunCommands(s, own, run);
            if !s.active && Inert(run) then
              o == Completed && !t.active && HoldOf(t) == CalledAll(HoldOf(s), Top(s).fps, run.commands)
            else o.Failed? || t.active || t.pending || t.abortReq
    decreases |run.commands|
  {
    hide Settled, Push, RequestAbortAll, Apply, Inert, Called;
    InertSteps(run);
    if run.commands != [] {
      var c := run.commands[0];
      if c.PushChild? {
        PushKeepsStack(s, own, c);
      } else if c.RequestAbort? {
        AbortsAtOnce(s, c);
      } else {
        ApplyKeepsStack(s, c);
        ApplySettles(s, c);
        ApplyIdles(s, c);
        if Apply(s, c).1.Continue? { InertRun(Apply(s, c).0, own, run.(commands := run.commands[1..])); }
      }
    }
  }

  lemma AbortsAtOnce(s: State, c: Command)
    requires Wf(s) && c.RequestAbort?
    ensures Apply(s, c).1.Cancel? && Apply(s, c).0.abortReq
  {
  }

  lemma ApplyIdles(s: State, c: Command)
    requires Wf(s) && !c.PushChild? && !c.RequestAbort?
    ensures Idles(c) ==>
              var (t, stop) := Apply(s, c);
              && stop.Continue? && t.active == s.active && Top(t).fps == Top(s).fps
              && HoldOf(t) == Called(HoldOf(s), Top(s).fps, c)
    ensures !Idles(c) ==> c.SetInput? || c.Await?
  {
    hide ApplySetInput, ApplyAwait, Scale, Add32;
  }

  lemma InertSteps(run: Run)
    ensures Inert(run) <==>
            if run.commands == [] then run.ending == Returns
            else Idles(run.commands[0]) && Inert(run.(commands := run.commands[1..]))
  {
    if run.commands != [] { assert run.commands == [run.commands[0]] + run.commands[1..]; }
  }

  lemma SameBlocksTrans(s: State, t: State, u: State, own: nat)
    requires SameBlocks(s, t, own) && SameBlocks(t, u, own)
    ensures SameBlocks(s, u, own)
  {
  }

  /** Before playback has begun no script holds an input, so a script is admitted unless a pause blocks it. */
  lemma AdmitUnlessBlocked(s: State, delta: nat, env: Env)
    requires Wf(s) && Settled(s) && Occupied(s) && !s.active && !s.abortReq
    requires s.sp > 0 ==> s.frames[s.sp - 1].mod.Some?
    ensures var (resume, t) := Admit(s, delta, env);
            && (resume <==> s.pending || !Blocks(HoldOf(s), Top(s), env))
            && SameBlocks(s, t, DEPTH) && t.active == s.active
            && (resume ==> HoldOf(t) == Gated(HoldOf(s), Top(s).blockDebug, delta))
  {
    TopAtRest(s);
    assert s.sp > 0 ==> s.frames[s.sp - 1].ttl == 0;
    hide CheckBlocked, Consume, Settled, Gated, Blocks, SameBlocks;
    BlockedIff(s, env);
    var (blocked, s1) := CheckBlocked(s, env);
    if !blocked {
      ConsumesRest(s1, delta);
      var s2 := Consume(s1, delta).1;
      SameBlocksTrans(s, s1, s2, DEPTH);
      CtxKeepsBlocks(s2);
      SameBlocksTrans(s, s2, SetCtx(s2.(pending := false), s2.sp, Active), DEPTH);
    }
  }

  lemma CtxKeepsBlocks(s: State)
    requires Wf(s)
    ensures SameBlocks(s, SetCtx(s.(pending := false), s.sp, Active), DEPTH)
  {
  }

  lemma BlockedIff(s: State, env: Env)
    requires Wf(s) && AtRest(Top(s)) && (s.sp > 0 ==> s.frames[s.sp - 1].ttl == 0)
    ensures var (blocked, t) := CheckBlocked(s, env);
            && (blocked <==> !s.pending && Blocks(HoldOf(s), Top(s), env))
            && SameBlocks(s, t, DEPTH) && HoldOf(t) == HoldOf(s) && t.active == s.active && t.pending == s.pending
            && t.sp == s.sp && Top(t).blockDebug == Top(s).blockDebug
            && Top(t).ttl == 0 && (t.sp > 0 ==> t.frames[t.sp - 1].ttl == 0)
  {
    hide CheckPauses, Blocks;
    PausesBlock(s, env);
  }

  lemma PausesBlock(s: State, env: Env)
    requires Wf(s) && AtRest(Top(s))
    ensures var (blocked, f) := CheckPauses(s, env);
            && (blocked <==> Blocks(HoldOf(s), Top(s), env))
            && f == Top(s).(awaitRequest := f.awaitRequest, awaitTarget := f.awaitTarget)
  {
  }

  lemma ConsumesRest(s: State, delta: nat)
    requires Wf(s) && Top(s).ttl == 0 && (s.sp > 0 ==> s.frames[s.sp - 1].ttl == 0)
    ensures var (exhausted, t) := Consume(s, delta);
            && exhausted && SameBlocks(s, t, DEPTH) && t.active == s.active && t.pending == s.pending
            && HoldOf(t) == Gated(HoldOf(s), Top(s).blockDebug, delta)
  {
    hide FrameAdvanceGate, Gated;
    GateHolds(s, Top(s).blockDebug, delta);
    GateKeepsFrames(s, Top(s).blockDebug, delta);
  }

  lemma GateHolds(s: State, blockDebug: bool, delta: nat)
    ensures HoldOf(FrameAdvanceGate(s, blockDebug, delta).0) == Gated(HoldOf(s), blockDebug, delta)
  {
  }

  lemma PopKeepsBlocks(s: State)
    requires Wf(s) && s.sp > 0
    ensures SameBlocks(s, Pop(s), s.sp) && HoldOf(Pop(s)) == HoldOf(s) && Pop(s).active == s.active
  {
    PopFrames(s);
    hide Pop;
  }

  /** Before playback has begun, a pass goes on to the script below if the top one does nothing; else none is left. */
  lemma CalcCtxPasses(s: State, delta: nat, env: Env, runs: seq<Run>) returns (p: State)
    requires Shape(s) && !s.abortReq && Occupied(s) && WfRuns(runs) && Settled(s) && !s.active
    requires Admit(s, delta, env).0
    ensures if Inert(runs[s.sp]) && s.sp > 0 then
              && Shape(p) && Occupied(p) && !p.abortReq && !p.pending && !p.active && Settled(p)
              && p.sp == s.sp - 1 && SameBlocks(s, p, s.sp) && CalcCtx(s, delta, env, runs) == CalcCtx(p, 0, env, runs)
              && HoldOf(p) == Passed(HoldOf(s), Top(s), delta, runs[s.sp])
            else !Stalled(CalcCtx(s, delta, env, runs).1)
  {
    assert Wf(s);
    hide Pop, Settled, Inert, SameBlocks, CalcCtx, Shape, RunCommands, Admit, Running, Stalled, CalledAll, Gated,
      RunPost;
    p := s;
    var s1 := Admit(s, delta, env).1;
    var (outcome, s2) := RunCommands(s1, s.sp, runs[s.sp]);
    RunFirst(s, delta, env, runs, s1, outcome, s2);
    if outcome.Completed? && s.sp > 0 {
      p := Pop(s2);
      CalcCtxContinues(s, delta, env, runs, s1, s2, p);
      PopsSettled(s, s1, s2);
      if p.active { ActiveNotStalled(p, env, runs); }
    } else {
      CalcCtxStops(s, delta, env, runs, s1, outcome, s2);
    }
  }

  lemma RunFirst(s: State, delta: nat, env: Env, runs: seq<Run>, s1: State, outcome: Outcome, s2: State)
    requires Shape(s) && !s.abortReq && Occupied(s) && WfRuns(runs) && Settled(s) && !s.active
    requires Admit(s, delta, env) == (true, s1) && RunCommands(s1, s.sp, runs[s.sp]) == (outcome, s2)
    ensures Running(s1, s.sp) && RunPost(s1, s.sp, outcome, s2) && Settled(s2)
    ensures outcome.Completed? ==> SameBlocks(s, s2, s.sp)
    ensures if Inert(runs[s.sp]) then
              outcome == Completed && !s2.active && HoldOf(s2) == Passed(HoldOf(s), Top(s), delta, runs[s.sp])
            else (outcome.Completed? ==> s2.active) && (outcome.Yielded? ==> !Stalled(s2))
  {
    assert Wf(s) && (s.sp > 0 ==> s.frames[s.sp - 1].mod.Some?);
    hide Admit, RunCommands, Settled, RequestAbortAll, Inert, Blocks, SameBlocks, SameHeld, Running, RunPost,
      Shape, SameControl, CalledAll, Gated, Stalled;
    AdmitKeeps(s, delta, env);
    AdmitSettles(s, delta, env);
    AdmitUnlessBlocked(s, delta, env);
    RunKeepsStack(s1, s.sp, runs[s.sp]);
    RunSettles(s1, s.sp, runs[s.sp]);
    InertRun(s1, s.sp, runs[s.sp]);
    SameFps(s, s1);
    if outcome.Completed? { BlocksThrough(s, s1, s2); }
    EndsLive(s1, s.sp, outcome, s2);
  }

  lemma EndsLive(s: State, own: nat, o: Outcome, t: State)
    requires RunPost(s, own, o, t)
    ensures o.Completed? ==> !t.pending && !t.abortReq
    ensures o.Failed? ==> !t.pending
    ensures t.active || t.pending || t.abortReq ==> !Stalled(t)
  {
  }

  lemma SameFps(s: State, t: State)
    requires SameBlocks(s, t, DEPTH) && t.sp == s.sp
    ensures Top(t).fps == Top(s).fps
  {
  }

  lemma BlocksThrough(s: State, s1: State, s2: State)
    requires SameBlocks(s, s1, DEPTH) && RunPost(s1, s.sp, Completed, s2)
    ensures SameBlocks(s, s2, s.sp)
  {
  }

  /** Before playback has begun, a pass over the stack stalls exactly when it gets stuck at a pause. */
  lemma {:induction false} CalcCtxStallsIff(s: State, delta: nat, env: Env, runs: seq<Run>)
    requires Shape(s) && !s.abortReq && Occupied(s) && WfRuns(runs) && Settled(s) && !s.active
    ensures Stalled(CalcCtx(s, delta, env, runs).1) <==>
            if s.pending then LeavesBehind(s, delta, env, runs) else Stuck(s, HoldOf(s), delta, env, runs, s.sp)
    decreases s.sp
  {
    assert s.sp > 0 ==> s.frames[s.sp - 1].mod.Some?;
    hide Admit, Settled, Inert, Blocks, CalcCtx, Passed, SameBlocks;
    AdmitUnlessBlocked(s, delta, env);
    if Admit(s, delta, env).0 {
      var p := CalcCtxPasses(s, delta, env, runs);
      if Inert(runs[s.sp]) && s.sp > 0 {
        CalcCtxStallsIff(p, 0, env, runs);
        StuckThrough(s, p, s.sp, HoldOf(p), 0, env, runs, p.sp);
      }
    } else {
      CalcCtxWaits(s, delta, env, runs, Admit(s, delta, env).1);
    }
  }

  lemma PopsSettled(s: State, s1: State, s2: State)
    requires Running(s1, s.sp) && s.sp > 0 && RunPost(s1, s.sp, Completed, s2) && Settled(s2)
    requires SameBlocks(s, s2, s.sp)
    ensures var p := Pop(s2);
            && p.sp == s.sp - 1 && Shape(p) && Occupied(p) && !p.abortReq && !p.pending && p.active == s2.active
            && Settled(p) && SameBlocks(s, p, s.sp) && HoldOf(p) == HoldOf(s2)
  {
    hide Pop, SameBlocks, Settled;
    PopLands(s1, s.sp, s2);
    PopSettles(s2);
    PopKeepsBlocks(s2);
    SameBlocksTrans(s, s2, Pop(s2), s.sp);
  }

  lemma CalcCtxWaits(s: State, delta: nat, env: Env, runs: seq<Run>, s1: State)
    requires Shape(s) && !s.abortReq && Occupied(s) && WfRuns(runs) && Admit(s, delta, env) == (false, s1)
    ensures CalcCtx(s, delta, env, runs) == (false, s1) && Stalled(s1) == (!s.active && !s.pending)
  {
    AdmitKeeps(s, delta, env);
    hide Admit, RunCommands, Pop, DiscardTop, Unprepare, RequestAbortAll;
  }

  lemma CalcCtxStops(s: State, delta: nat, env: Env, runs: seq<Run>, s1: State, outcome: Outcome, s2: State)
    requires Shape(s) && !s.abortReq && Occupied(s) && WfRuns(runs) && Admit(s, delta, env) == (true, s1)
    requires (outcome, s2) == RunCommands(s1, s.sp, runs[s.sp]) && (outcome.Completed? ==> s.sp == 0)
    requires outcome.Yielded? ==> !Stalled(s2)
    ensures !Stalled(CalcCtx(s, delta, env, runs).1)
  {
    CalcCtxKeeps(s, delta, env, runs);
    hide Admit, RunCommands, Pop, DiscardTop, Unprepare, RequestAbortAll, Stalled, CalcPost;
    if !outcome.Yielded? { DoneNotStalled(s, CalcCtx(s, delta, env, runs).1); }
  }

  lemma CalcCtxContinues(s: State, delta: nat, env: Env, runs: seq<Run>, s1: State, s2: State, p: State)
    requires Wf(s) && IsValid(s) && WfRuns(runs) && Wf(s1) && s1.sp == s.sp && Wf(s2) && s2.sp == s.sp > 0 && Wf(p)
    requires RunCommands(s1, s.sp, runs[s.sp]) == (Completed, s2) && Admit(s, delta, env) == (true, s1) && p == Pop(s2)
    ensures CalcCtx(s, delta, env, runs) == CalcCtx(p, 0, env, runs)
  {
    hide Admit, RunCommands, Pop;
  }

  lemma DoneNotStalled(s: State, t: State)
    requires CalcPost(s, true, t)
    ensures !Stalled(t)
  {
  }

  /** Once playback has begun it stays on until the stack is empty. */
  lemma ActiveNotStalled(s: State, env: Env, runs: seq<Run>)
    requires Shape(s) && !s.abortReq && Occupied(s) && WfRuns(runs) && s.active
    ensures !Stalled(CalcCtx(s, 0, env, runs).1)
  {
    hide CalcCtx;
    CalcCtxKeeps(s, 0, env, runs);
  }

  lemma TopAtRest(s: State)
    requires Settled(s) && Occupied(s) && !s.active && !s.abortReq
    ensures Wf(s) && AtRest(Top(s))
  {
  }

  /**
   A tick leaves a script behind exactly when none has started yet and the queued one, and any finished after it, do
   nothing until the tick gets stuck at a pause.
   */
  lemma TickStallsIff(s: State, delta: nat, env: Env, runs: seq<Run>)
    requires Healthy(s) && Settled(s) && WfRuns(runs)
    ensures Stalled(Tick(s, delta, env, runs)) <==>
            Stalled(s) || (s.pending && !s.active && LeavesBehind(s, delta, env, runs))
  {
    hide CalcCtx, LeavesBehind, Stuck;
    if s.active || s.pending {
      CalcCtxKeeps(s, delta, env, runs);
      if !s.active { CalcCtxStallsIff(s, delta, env, runs); }
    }
  }

  /** The operation is a tick that leaves a script behind. */
  predicate Forgets(s: State, op: Op)
    requires Enabled(s, op)
  {
    op.DoTick? && !s.abortReq && s.pending && !s.active && LeavesBehind(s, op.delta, op.env, op.runs)
  }

  predicate NeverForgets(s: State, ops: seq<Op>)
    requires Fits(s, ops)
    decreases |ops|
  {
    ops == [] || (!Forgets(s, ops[0]) && NeverForgets(Step(s, ops[0]), ops[1..]))
  }

  /** At no point of the run is a script on the stack that no tick would look at. */
  predicate NeverStalls(s: State, ops: seq<Op>)
    requires Fits(s, ops)
    decreases |ops|
  {
    !Stalled(s) && (ops == [] || NeverStalls(Step(s, ops[0]), ops[1..]))
  }

  lemma StepStallsIff(s: State, op: Op)
    requires Sound(s) && Settled(s) && Enabled(s, op) && !Stalled(s)
    ensures Stalled(Step(s, op)) <==> Forgets(s, op)
  {
    hide Tick, LeavesBehind, Settled, RequestAbortAll, Healthy;
    match op
    case DoPush(m, b, e) => PushNotStalled(s, m, b, e);
    case DoFailedPush => AbortNotStalled(s);
    case DoTick(d, env, runs) =>
      if s.abortReq { ClearedNotStalled(s, d, env, runs); } else { TickStallsIff(s, d, env, runs); }
    case DoDebugPause(_) =>
  }

  lemma PushNotStalled(s: State, m: ModuleId, blockDebug: bool, hasEntry: bool)
    requires Wf(s) && HasRoom(s)
    ensures !Stalled(Push(s, m, blockDebug, hasEntry))
  {
  }

  lemma AbortNotStalled(s: State)
    requires Wf(s)
    ensures !Stalled(RequestAbortAll(s))
  {
  }

  lemma ClearedNotStalled(s: State, delta: nat, env: Env, runs: seq<Run>)
    requires Sound(s) && s.abortReq && WfRuns(runs)
    ensures !Stalled(Tick(s, delta, env, runs))
  {
    ProcessAbortClears(s);
  }

  /** Over any run, no script is ever stalled exactly when none is at the start and no tick leaves one behind. */
  lemma {:induction false} NeverStallsIff(s: State, ops: seq<Op>)
    requires Sound(s) && Settled(s) && Fits(s, ops)
    ensures NeverStalls(s, ops) <==> !Stalled(s) && NeverForgets(s, ops)
    decreases |ops|
  {
    hide Settled, Step, Forgets, Stalled, Sound;
    if ops != [] && !Stalled(s) {
      StepStallsIff(s, ops[0]);
      StepSettles(s, ops[0]);
      StepKeepsSound(s, ops[0]);
      NeverStallsIff(Step(s, ops[0]), ops[1..]);
    }
  }

  /** The state after startup meets what the results on stalling ask for. */
  lemma StartIsSettled()
    ensures Sound(INIT) && Settled(INIT) && !INIT.frameAdvance && !INIT.debugPause && !Stalled(INIT)
  {
  }

  /** Every state reached from a settled one is settled. */
  lemma {:induction false} ReachableIsSettled(s: State, ops: seq<Op>)
    requires Sound(s) && Settled(s) && Fits(s, ops)
    ensures Settled(RunOps(s, ops))
    decreases |ops|
  {
    hide Settled, Step, Sound;
    if ops != [] {
      StepSettles(s, ops[0]);
      StepKeepsSound(s, ops[0]);
      ReachableIsSettled(Step(s, ops[0]), ops[1..]);
    }
  }

  // ----- while nothing pauses the game -----

  predicate SamePause(s: State, t: State) {
    t.debugPause == s.debugPause && t.frameAdvance == s.frameAdvance
  }

  lemma ApplyKeepsPause(s: State, c: Command)
    requires Wf(s) && (c.PushChild? ==> HasRoom(s)) && !StepsFrames(c)
    ensures SamePause(s, Apply(s, c).0)
  {
    hide ApplySetInput, Prepare, PushSlot, HasRoom;
    if c.SetInput? { InputWrites(s, c); }
  }

  lemma {:induction false} RunKeepsPause(s: State, own: nat, run: Run)
    requires Wf(s) && s.sp == own && (own + 1 == DEPTH ==> forall c <- run.commands :: !c.PushChild?)
    requires forall c <- run.commands :: !StepsFrames(c)
    ensures SamePause(s, RunCommands(s, own, run).1)
    decreases |run.commands|
  {
    hide Apply;
    if run.commands != [] {
      ApplyKeepsPause(s, run.commands[0]);
      var (s1, stop) := Apply(s, run.commands[0]);
      if stop.Continue? { RunKeepsPause(s1, own, run.(commands := run.commands[1..])); }
    }
  }

  lemma AdmitKeepsPause(s: State, delta: nat, env: Env)
    requires Wf(s) && !s.frameAdvance
    ensures SamePause(s, Admit(s, delta, env).1)
  {
    hide CheckPauses;
  }

  lemma PopKeepsPause(s: State)
    requires Wf(s) && s.sp > 0
    ensures SamePause(s, Pop(s)) && Wf(Pop(s)) && Pop(s).sp == s.sp - 1
  {
    PopFrames(s);
    hide Pop;
  }

  lemma EmptiedKeepsPause(s: State)
    requires Wf(s)
    ensures SamePause(s, DiscardTop(SetTop(s, Unprepare(Top(s)))))
  {
  }

  /** Ticks keep frame advance off, and DebugPause as it is, while no script uses frame advance. */
  lemma {:induction false} CalcCtxKeepsPause(s: State, delta: nat, env: Env, runs: seq<Run>)
    requires Wf(s) && WfRuns(runs) && !s.frameAdvance && Unstepped(runs)
    ensures SamePause(s, CalcCtx(s, delta, env, runs).1)
    decreases s.sp
  {
    hide Admit, RunCommands, Pop, DiscardTop, Unprepare;
    if IsValid(s) {
      AdmitKeepsPause(s, delta, env);
      var (resume, s1) := Admit(s, delta, env);
      if resume {
        RunKeepsPause(s1, s.sp, runs[s.sp]);
        var (outcome, s2) := RunCommands(s1, s.sp, runs[s.sp]);
        if outcome.Completed? && s.sp == 0 {
          EmptiedKeepsPause(s2);
        } else if outcome.Completed? {
          PopKeepsPause(s2);
          CalcCtxKeepsPause(Pop(s2), 0, env, runs);
        }
      }
    }
  }

  /** Nothing in the operation pauses the game: no request from outside, no loading, no frame advance. */
  predicate NeverPauses(op: Op) {
    (op.DoDebugPause? ==> !op.v) && (op.DoTick? ==> !op.env.loadingPause && Unstepped(op.runs))
  }

  lemma StepUnpaused(s: State, op: Op)
    requires Enabled(s, op) && NeverPauses(op) && !s.frameAdvance && !s.debugPause
    ensures !Step(s, op).frameAdvance && !Step(s, op).debugPause
  {
    hide CalcCtx;
    if op.DoTick? { CalcCtxKeepsPause(ProcessAbort(s), op.delta, op.env, op.runs); }
  }

  /** While nothing pauses the game, no script on the stack is ever forgotten. */
  lemma {:induction false} UnpausedNeverStalls(s: State, ops: seq<Op>)
    requires Sound(s) && Settled(s) && Fits(s, ops) && !s.frameAdvance && !s.debugPause && !Stalled(s)
    requires forall op <- ops :: NeverPauses(op)
    ensures NeverStalls(s, ops)
    decreases |ops|
  {
    hide Settled, Step, Stalled, Sound, Forgets;
    if ops != [] {
      var op := ops[0];
      assert NeverPauses(op);
      NotForgotten(s, op);
      StepStallsIff(s, op);
      StepSettles(s, op);
      StepKeepsSound(s, op);
      StepUnpaused(s, op);
      UnpausedNeverStalls(Step(s, op), ops[1..]);
    }
  }

  lemma NotForgotten(s: State, op: Op)
    requires Enabled(s, op) && NeverPauses(op) && !s.frameAdvance && !s.debugPause
    ensures !Forgets(s, op)
  {
    if op.DoTick? && s.sp > 0 {
      var run := op.runs[s.sp];
      PassedFree(HoldOf(s), Top(s), op.delta, run);
      NotStuck(s, Passed(HoldOf(s), Top(s), op.delta, run), 0, op.env, op.runs, s.sp - 1);
    }
  }

  lemma {:induction false} NotStuck(s: State, h: Hold, delta: nat, env: Env, runs: seq<Run>, k: nat)
    requires k < |s.frames| && k < |runs| && !h.debugPause && !h.frameAdvance && !env.loadingPause && Unstepped(runs)
    ensures !Stuck(s, h, delta, env, runs, k)
    decreases k
  {
    hide Passed;
    if k > 0 {
      PassedFree(h, s.frames[k], delta, runs[k]);
      NotStuck(s, Passed(h, s.frames[k], delta, runs[k]), 0, env, runs, k - 1);
    }
  }

  lemma PassedFree(h: Hold, f: Frame, delta: nat, run: Run)
    requires !h.frameAdvance && forall c <- run.commands :: !StepsFrames(c)
    ensures Passed(h, f, delta, run) == h
  {
    CalledFree(h, f.fps, run.commands);
  }

  lemma {:induction false} CalledFree(h: Hold, fps: Fps, commands: seq<Command>)
    requires forall c <- commands :: !StepsFrames(c)
    ensures CalledAll(h, fps, commands) == h
    decreases |commands|
  {
    if commands != [] {
      assert !StepsFrames(commands[0]);
      CalledFree(h, fps, commands[1..]);
    }
  }

  /** A stalled script stays as it is through any ticks and pauses, until something is pushed. */
  lemma {:induction false} StalledStays(s: State, ops: seq<Op>)
    requires Stalled(s) && Fits(s, ops) && forall op <- ops :: op.DoTick? || op.DoDebugPause?
    ensures RunOps(s, ops) == s.(debugPause := RunOps(s, ops).debugPause)
    decreases |ops|
  {
    if ops != [] { StalledStays(Step(s, ops[0]), ops[1..]); }
  }

  // ----- stalls from the start -----

  /** The three ways a script below the queued one gets blocked: from outside, or by the queued script itself. */
  datatype Cause = Debug | Loading | FrameAdvance

  /** What the queued script, and any other, does when it is resumed. */
  function DoesNothing(cause: Cause): Run {
    Run(if cause.FrameAdvance? then [BeginFrameAdvance] else [], Returns)
  }

  /** Two scripts that do nothing are queued one on the other, and a tick runs the upper one. */
  function TwoQueued(cause: Cause, delta: nat): seq<Op> {
    [DoDebugPause(cause.Debug?), DoPush(1, true, true), DoPush(2, true, true),
     DoTick(delta, Env(cause.Loading?, {}, {}), seq(DEPTH, _ => DoesNothing(cause)))]
  }

  lemma StallIsReachable(cause: Cause, delta: nat)
    ensures Fits(INIT, TwoQueued(cause, delta)) && Stalled(RunOps(INIT, TwoQueued(cause, delta)))
  {
    hide Tick, Push, LeavesBehind;
    var env := Env(cause.Loading?, {}, {});
    var runs := seq(DEPTH, _ => DoesNothing(cause));
    assert WfRuns(runs);
    var s1 := INIT.(debugPause := cause.Debug?);
    assert HasRoom(s1);
    var s2 := Push(s1, 1, true, true);
    QueuedOnce(cause.Debug?);
    var s3 := Push(s2, 2, true, true);
    QueuedTwice(s2);
    BlockedBelow(s3, delta, cause);
    TickStallsIff(s3, delta, env, runs);
    FourSteps(INIT, DoDebugPause(cause.Debug?), DoPush(1, true, true), DoPush(2, true, true),
              DoTick(delta, env, runs));
  }

  lemma QueuedOnce(debugPause: bool)
    ensures var s := Push(INIT.(debugPause := debugPause), 1, true, true);
            && Healthy(s) && Settled(s) && s.sp == 0 && s.pending && !s.active && Occupied(s)
            && HoldOf(s) == Hold(debugPause, false, 0) && Top(s).blockDebug && Top(s).blockLoading
  {
  }

  lemma QueuedTwice(s: State)
    requires Healthy(s) && Settled(s) && s.sp == 0 && s.pending && !s.active && Occupied(s)
    ensures var t := Push(s, 2, true, true);
            && Healthy(t) && Settled(t) && t.sp == 1 && t.pending && !t.active
            && HoldOf(t) == HoldOf(s) && t.frames[0] == s.frames[0]
  {
    PushSettles(s, 2, true, true);
    hide Settled;
    HealthyPush(s, 1, Prepare(PushSlot(s).1.(mod := Some(2), blockDebug := true)));
  }

  lemma BlockedBelow(s: State, delta: nat, cause: Cause)
    requires Wf(s) && s.sp == 1 && s.frames[0].blockDebug && s.frames[0].blockLoading
    requires HoldOf(s) == Hold(cause.Debug?, false, 0)
    ensures var runs := seq(DEPTH, _ => DoesNothing(cause));
            WfRuns(runs) && LeavesBehind(s, delta, Env(cause.Loading?, {}, {}), runs)
  {
    var run := DoesNothing(cause);
    assert Inert(run);
    var h := Passed(HoldOf(s), Top(s), delta, run);
    if cause.FrameAdvance? {
      assert run.commands[1..] == [];
      assert CalledAll(HoldOf(s), Top(s).fps, run.commands) == Begun(HoldOf(s));
    }
    assert Blocks(h, s.frames[0], Env(cause.Loading?, {}, {}));
  }

  lemma FourSteps(s: State, a: Op, b: Op, c: Op, d: Op)
    requires Enabled(s, a) && Enabled(Step(s, a), b) && Enabled(Step(Step(s, a), b), c)
    requires Enabled(Step(Step(Step(s, a), b), c), d)
    ensures Fits(s, [a, b, c, d]) && RunOps(s, [a, b, c, d]) == Step(Step(Step(Step(s, a), b), c), d)
  {
    hide Step, Enabled;
    var s1 := Step(s, a);
    var s2 := Step(s1, b);
    var s3 := Step(s2, c);
    var s4 := Step(s3, d);
    assert [a, b, c, d][1..] == [b, c, d] && [b, c, d][1..] == [c, d] && [c, d][1..] == [d] && [d][1..] == [];
    assert Fits(s4, []) && RunOps(s4, []) == s4;
    assert Fits(s3, [d]) && RunOps(s3, [d]) == s4;
    assert Fits(s2, [c, d]) && RunOps(s2, [c, d]) == s4;
    assert Fits(s1, [b, c, d]) && RunOps(s1, [b, c, d]) == s4;
  }
}
