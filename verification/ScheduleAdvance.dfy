/** Frame advance: time is held with DebugPause and released in the amounts scripts ask for. */
module ScheduleAdvance {
  import opened Schedule
  import opened ScheduleInvariants

  /**
   While frames are being stepped, everything asked for has either been counted down or is still to run. Holds until
   the requests of one session add up to more than the 32-bit counter can carry.
   */
  predicate Balanced(s: State) {
    s.frameAdvance && s.stepped < U32 ==> s.bypass + s.counted == s.stepped
  }

  /** While frames are being stepped, the game is paused or has time left to run. */
  predicate Held(s: State) {
    s.frameAdvance && s.stepped < U32 ==> s.debugPause || s.bypass > 0
  }

  /** What every step of the scheduler does to the two. */
  predicate Advances(s: State, t: State) {
    Balanced(s) ==> Balanced(t) && (Held(s) ==> Held(t))
  }

  predicate SameAdvance(a: State, b: State) {
    a.frameAdvance == b.frameAdvance && a.bypass == b.bypass && a.debugPause == b.debugPause &&
    a.stepped == b.stepped && a.counted == b.counted
  }

  lemma GateAdvances(s: State, blockDebug: bool, delta: nat)
    ensures Advances(s, FrameAdvanceGate(s, blockDebug, delta).0)
  {
  }

  lemma AdmitAdvances(s: State, delta: nat, env: Env)
    requires Wf(s)
    ensures Advances(s, Admit(s, delta, env).1)
  {
    hide CheckPauses, FrameAdvanceGate, Balanced, Held;
    var (blocked, s1) := CheckBlocked(s, env);
    StillAdvancing(s, s1);
    if !blocked {
      var gated := FrameAdvanceGate(s1, s1.frames[ChargedFrame(s1)].blockDebug, delta).0;
      GateAdvances(s1, s1.frames[ChargedFrame(s1)].blockDebug, delta);
      StillAdvancing(gated, Admit(s, delta, env).1);
    } else {
      assert Admit(s, delta, env).1 == s1;
    }
  }

  lemma PushSameAdvance(s: State, mod: ModuleId, blockDebug: bool, hasEntry: bool)
    requires Wf(s) && HasRoom(s)
    ensures SameAdvance(s, Push(s, mod, blockDebug, hasEntry))
  {
    hide Wf;
  }

  lemma InputSameAdvance(s: State, c: Command)
    requires Wf(s) && c.SetInput?
    ensures SameAdvance(s, ApplySetInput(s, c).0)
  {
    hide GameButtons, Scale;
  }

  lemma StepAdvances(s: State, duration: nat)
    requires Wf(s)
    ensures Advances(s, ApplyStep(s, duration))
  {
    hide Wf;
  }

  lemma ApplyAdvances(s: State, c: Command)
    requires Wf(s) && (c.PushChild? ==> HasRoom(s))
    ensures Advances(s, Apply(s, c).0)
  {
    hide Push, ApplySetInput, ApplyStep, Wf, HasRoom;
    match c
    case SetInput(_, _, _, _, _, _, _) =>
      InputSameAdvance(s, c);
    case StepFrameAdvance(d) =>
      StepAdvances(s, d);
    case PushChild(m, blockDebug, hasEntry) =>
      PushSameAdvance(s, m, blockDebug, hasEntry);
    case _ =>
  }

  lemma {:induction false} RunAdvances(s: State, own: nat, run: Run)
    requires Wf(s) && s.sp == own && (own + 1 == DEPTH ==> forall c <- run.commands :: !c.PushChild?)
    ensures Advances(s, RunCommands(s, own, run).1)
    decreases |run.commands|
  {
    hide Balanced, Held, Apply;
    if run.commands == [] {
      StillAdvancing(s, SetCtx(s, own, if run.ending == Returns then Finished else Exception));
    } else {
      var (s1, stop) := Apply(s, run.commands[0]);
      ApplyAdvances(s, run.commands[0]);
      match stop
      case Continue => RunAdvances(s1, own, run.(commands := run.commands[1..]));
      case Yield => StillAdvancing(s1, SetCtx(s1, own, Suspended));
      case Cancel => StillAdvancing(s1, SetCtx(s1, own, Aborted));
    }
  }

  lemma StillAdvancing(s: State, t: State)
    requires SameAdvance(s, t)
    ensures Advances(s, t)
  {
  }

  lemma {:induction false} CalcCtxAdvances(s: State, delta: nat, env: Env, runs: seq<Run>)
    requires Wf(s) && WfRuns(runs)
    ensures Advances(s, CalcCtx(s, delta, env, runs).1)
    decreases s.sp
  {
    hide Balanced, Held, Admit, RunCommands;
    StillAdvancing(s, RequestAbortAll(s));
    if IsValid(s) {
      AdmitAdvances(s, delta, env);
      var (resume, s1) := Admit(s, delta, env);
      if resume {
        RunAdvances(s1, s.sp, runs[s.sp]);
        var (outcome, s2) := RunCommands(s1, s.sp, runs[s.sp]);
        StillAdvancing(s2, RequestAbortAll(s2));
        if outcome.Completed? {
          if s.sp > 0 {
            StillAdvancing(s2, Pop(s2));
            CalcCtxAdvances(Pop(s2), 0, env, runs);
          } else {
            StillAdvancing(s2, DiscardTop(SetTop(s2, Unprepare(Top(s2)))));
          }
        }
      }
    }
  }

  lemma TickAdvances(s: State, delta: nat, env: Env, runs: seq<Run>)
    requires Wf(s) && WfRuns(runs)
    ensures Advances(s, Tick(s, delta, env, runs))
  {
    hide CalcCtx;
    if ProcessAbort(s).active || ProcessAbort(s).pending { CalcCtxAdvances(ProcessAbort(s), delta, env, runs); }
  }

  /** Over any run, outside pauses included, stepped time is counted down or still to come, never lost. */
  lemma {:induction false} StepTimeIsConserved(s: State, ops: seq<Op>)
    requires Fits(s, ops) && Balanced(s)
    ensures Balanced(RunOps(s, ops))
    decreases |ops|
  {
    hide Balanced, Held, Step;
    if ops != [] {
      OpAdvances(s, ops[0]);
      StepTimeIsConserved(Step(s, ops[0]), ops[1..]);
    }
  }

  /** The game stays paused or has time to run, over any run in which nothing from outside lifts the pause too soon. */
  lemma {:induction false} StaysHeld(s: State, ops: seq<Op>)
    requires Fits(s, ops) && Balanced(s) && Held(s) && NeverReleased(s, ops)
    ensures Held(RunOps(s, ops))
    decreases |ops|
  {
    hide Balanced, Held, Step, Releases;
    if ops != [] {
      OpAdvances(s, ops[0]);
      StaysHeld(Step(s, ops[0]), ops[1..]);
    }
  }

  /** The pause is lifted from outside while frames are being stepped and none is due. */
  predicate Releases(s: State, op: Op) {
    op.DoDebugPause? && !op.v && s.frameAdvance && s.stepped < U32 && s.bypass == 0
  }

  predicate NeverReleased(s: State, ops: seq<Op>)
    requires Fits(s, ops)
    decreases |ops|
  {
    ops == [] || (!Releases(s, ops[0]) && NeverReleased(Step(s, ops[0]), ops[1..]))
  }

  /** One operation keeps the balance, and keeps the game held unless it is the one that lifts the pause. */
  lemma OpAdvances(s: State, op: Op)
    requires Enabled(s, op) && Balanced(s)
    ensures Balanced(Step(s, op))
    ensures Held(s) ==> (Held(Step(s, op)) <==> !Releases(s, op))
  {
    hide Tick;
    match op
    case DoTick(d, env, runs) => TickAdvances(s, d, env, runs);
    case DoPush(m, b, e) => PushSameAdvance(s, m, b, e);
    case DoFailedPush =>
    case DoDebugPause(_) =>
  }
}
