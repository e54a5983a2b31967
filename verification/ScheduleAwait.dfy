/** When the top script may run: what blocks it, what it awaits, which ticks count against its time. */
module ScheduleAwait {
  import opened Schedule
  import opened ScheduleInvariants
  import opened ScheduleTime
  import opened ScheduleLiveness
  import opened ScheduleInput
  import opened ScheduleShared

  // ----- one look at the top script -----

  /** Whether the pause is on: a pause request by hash, two of which have their own owners, or a pause target. */
  predicate IsOn(s: State, env: Env, onTarget: bool, hash: nat) {
    if onTarget then hash in env.targets
    else if hash == 0x2d67e2da then s.debugPause
    else if hash == 0x0eafe200 then env.loadingPause
    else hash in env.requests
  }

  function Awaited(f: Frame, onTarget: bool): nat {
    if onTarget then f.awaitTarget else f.awaitRequest
  }

  /** The frame awaits a pause that is not as awaited. */
  predicate Unmet(s: State, env: Env, f: Frame, onTarget: bool) {
    Awaited(f, onTarget) != 0 && f.awaitVal != IsOn(s, env, onTarget, Awaited(f, onTarget))
  }

  /** A script is held back exactly by a pause it minds or one that is not as it awaits, unless it was just pushed. */
  lemma BlockedExactly(s: State, env: Env)
    requires Wf(s)
    ensures CheckBlocked(s, env).0 <==>
            !s.pending &&
            (Blocks(HoldOf(s), Top(s), env) || Unmet(s, env, Top(s), false) || Unmet(s, env, Top(s), true))
  {
  }

  /** DebugPause holds the script back. */
  predicate DebugHolds(s: State)
    requires Wf(s)
  {
    s.debugPause && Top(s).blockDebug && !(s.frameAdvance && s.bypass > 0)
  }

  /**
   An awaited request is over once it is as awaited and nothing blocks the script, or when it is for the very pause
   that does.
   */
  predicate RequestIsOver(s: State, env: Env)
    requires Wf(s)
  {
    var f := Top(s);
    || (!Unmet(s, env, f, false) && !Blocks(HoldOf(s), f, env))
    || (f.awaitVal && f.awaitRequest == 0x2d67e2da && s.debugPause && f.blockDebug)
    || (f.awaitVal && f.awaitRequest == 0x0eafe200 && env.loadingPause && f.blockLoading && !DebugHolds(s))
  }

  /** Exactly which awaits a look at the top script ends; it changes nothing else. */
  lemma AwaitsEnd(s: State, env: Env)
    requires Wf(s)
    ensures var (blocked, t) := CheckBlocked(s, env); var f := Top(s);
            && t == s.(frames := s.frames[s.sp := f.(awaitRequest := Top(t).awaitRequest,
                                                     awaitTarget := Top(t).awaitTarget)])
            && Top(t).awaitRequest == (if !s.pending && RequestIsOver(s, env) then 0 else f.awaitRequest)
            && Top(t).awaitTarget == (if !s.pending && !blocked then 0 else f.awaitTarget)
  {
    CheckPausesKeeps(s, env);
    PausesEnd(s, env);
    hide CheckPauses, RequestIsOver;
    assert s.frames[s.sp := Top(s)] == s.frames;
  }

  lemma PausesEnd(s: State, env: Env)
    requires Wf(s)
    ensures var (blocked, f) := CheckPauses(s, env);
            && f.awaitRequest == (if RequestIsOver(s, env) then 0 else Top(s).awaitRequest)
            && f.awaitTarget == (if !blocked then 0 else Top(s).awaitTarget)
  {
  }

  // ----- which ticks count -----

  /**
   A tick counts against an input unless frame advance holds the game paused, or is only now letting it go on, for a
   script that minds.
   */
  predicate Counts(h: Hold, blockDebug: bool) {
    !(h.frameAdvance && h.debugPause && (h.bypass == 0 || blockDebug))
  }

  /** It counts for the clock too, unless the script goes on regardless of the pause while there is time to step. */
  predicate Timed(h: Hold, blockDebug: bool) {
    Counts(h, blockDebug) && !(h.frameAdvance && h.bypass > 0 && !blockDebug)
  }

  /** Exactly what a tick takes from whom, in every case of frame advance. */
  lemma ConsumesExactly(s: State, delta: nat)
    requires Wf(s)
    ensures var (exhausted, t) := Consume(s, delta); var p := Payer(s); var f := s.frames[p];
            && t.frames ==
               s.frames[p := f.(ttl := if Counts(HoldOf(s), f.blockDebug) then Deduct(f.ttl, delta) else f.ttl)]
            && t.elapsed == (if Timed(HoldOf(s), f.blockDebug) then Add32(s.elapsed, delta) else s.elapsed)
            && exhausted == (t.frames[p].ttl == 0)
  {
    var f := s.frames[Payer(s)];
    GateExactly(s, f.blockDebug, delta);
    GateKeepsFrames(s, f.blockDebug, delta);
    hide FrameAdvanceGate, Add32, Deduct, Counts, Timed;
    assert s.frames[Payer(s) := f] == s.frames;
  }

  lemma GateExactly(s: State, blockDebug: bool, delta: nat)
    ensures var gate := FrameAdvanceGate(s, blockDebug, delta).1;
            && gate.counts == Counts(HoldOf(s), blockDebug)
            && (gate.counts && gate.timed) == Timed(HoldOf(s), blockDebug)
  {
  }

  /** The top script is resumed exactly when it was just pushed, or nothing holds it back and its time is used up. */
  lemma ResumesExactly(s: State, delta: nat, env: Env)
    requires Wf(s)
    ensures Admit(s, delta, env).0 <==>
            || s.pending
            || (&& !Blocks(HoldOf(s), Top(s), env) && !Unmet(s, env, Top(s), false) && !Unmet(s, env, Top(s), true)
                && Top(s).ttl <= (if Counts(HoldOf(s), Top(s).blockDebug) then delta else 0))
  {
    BlockedExactly(s, env);
    AwaitsEnd(s, env);
    var s1 := CheckBlocked(s, env).1;
    ConsumesExactly(s1, delta);
    ConsumeKeeps(s1, delta);
    hide CheckBlocked, Consume, Blocks, Unmet, Counts, Timed, RequestIsOver;
  }

  // ----- a script that awaits a pause -----

  /** The frame awaits one pause, with nothing else to wait for. */
  predicate Awaiting(f: Frame, onTarget: bool, val: bool, hash: nat) {
    && f.mod.Some? && hash != 0 && f.awaitVal == val && f.ttl == 0
    && Awaited(f, onTarget) == hash && Awaited(f, !onTarget) == 0
  }

  predicate Waits(s: State, n: nat, onTarget: bool, val: bool, hash: nat) {
    Wf(s) && n <= s.sp && (s.pending ==> n < s.sp) && Awaiting(s.frames[n], onTarget, val, hash)
  }

  lemma {:induction false} MadeTakesNoTime(fps: Fps, commands: seq<Command>)
    requires var made := Made(fps, commands); made != [] && Last(made).Await?
    ensures var c := LastInput(Made(fps, commands)); c.Some? ==> Time60(fps, c.value.duration) == 0
    decreases |commands|
  {
    var c, rest := commands[0], commands[1..];
    if Stops(fps, c) {
      assert Made(fps, commands) == [c] && [c][1..] == [];
    } else {
      var made := Made(fps, rest);
      assert Made(fps, commands) == [c] + made && ([c] + made)[1..] == made;
      assert made != [] by { assert Last([c] + made) == if made == [] then c else Last(made); }
      assert Last(made) == Last([c] + made);
      MadeTakesNoTime(fps, rest);
    }
  }

  /** A script that hands control back with an await then awaits exactly that pause. */
  lemma TickAwaits(s: State, delta: nat, env: Env, runs: seq<Run>, k: nat)
    requires Healthy(s) && Settled(s) && Fresh(s) && (s.active || s.pending) && WfRuns(runs)
    requires Resumes(s, delta, env, runs, k) && k <= s.sp && Rests(s.frames[k].fps, runs[k])
    requires var c := Last(Made(s.frames[k].fps, runs[k].commands)); c.Await? && c.hash != 0
    ensures var c := Last(Made(s.frames[k].fps, runs[k].commands)); var t := Tick(s, delta, env, runs);
            Waits(t, k, c.onTarget, c.val, c.hash) && t.sp == k && t.active && !t.abortReq
  {
    var made := Made(s.frames[k].fps, runs[k].commands);
    assert s.frames[k].mod.Some? by { ResumedIsOn(s, delta, env, runs, k); }
    hide Tick, Made, Resumes;
    TickWrites(s, delta, env, runs, k);
    LastIsLast(made);
    MadeTakesNoTime(s.frames[k].fps, runs[k].commands);
    var f :| ResumedAs(s, runs, k, f) && WrittenBy(f, Top(Tick(s, delta, env, runs)), made);
    hide Plays, GyroAt, Time60;
  }

  lemma ResumedIsOn(s: State, delta: nat, env: Env, runs: seq<Run>, k: nat)
    requires Shape(s) && WfRuns(runs) && k <= s.sp && Resumes(s, delta, env, runs, k)
    ensures s.frames[k].mod.Some?
  {
    hide Admit, RunCommands, Pop;
  }

  /** A script that waits for its first run has nothing left over from whoever used its frame before. */
  predicate Fresh(s: State) {
    Wf(s) && (s.pending && !s.abortReq ==> AtRest(Top(s)))
  }

  lemma {:induction false} RunFresh(s: State, own: nat, run: Run)
    requires Running(s, own) && (own + 1 == DEPTH ==> forall c <- run.commands :: !c.PushChild?)
    ensures Fresh(RunCommands(s, own, run).1)
    decreases |run.commands|
  {
    hide Push, ApplySetInput, ApplyAwait, ApplyStep, RequestAbortAll;
    if run.commands != [] {
      var c := run.commands[0];
      if c.PushChild? {
        PushKeepsStack(s, own, c);
        PushFresh(s, c.mod, c.blockDebug, c.hasEntry);
      } else if c.RequestAbort? {
        AbortsAtOnce(s, c);
      } else {
        ApplyKeepsStack(s, c);
        if Apply(s, c).1.Continue? { RunFresh(Apply(s, c).0, own, run.(commands := run.commands[1..])); }
      }
    }
  }

  lemma PushFresh(s: State, m: ModuleId, blockDebug: bool, hasEntry: bool)
    requires Wf(s) && HasRoom(s)
    ensures Fresh(Push(s, m, blockDebug, hasEntry))
  {
  }

  lemma {:induction false} CalcCtxFresh(s: State, delta: nat, env: Env, runs: seq<Run>)
    requires Shape(s) && !s.abortReq && Occupied(s) && WfRuns(runs)
    ensures Fresh(CalcCtx(s, delta, env, runs).1)
    decreases s.sp
  {
    hide Admit, RunCommands, Pop, DiscardTop, Unprepare, RequestAbortAll;
    AdmitKeeps(s, delta, env);
    PendingResumes(s, delta, env);
    var (resume, s1) := Admit(s, delta, env);
    if resume {
      RunFresh(s1, s.sp, runs[s.sp]);
      RunKeepsStack(s1, s.sp, runs[s.sp]);
      var (outcome, s2) := RunCommands(s1, s.sp, runs[s.sp]);
      if outcome.Completed? && s.sp == 0 {
        DiscardTopIs(SetTop(s2, Unprepare(Top(s2))));
      } else if outcome.Completed? {
        PopLands(s1, s.sp, s2);
        CalcCtxFresh(Pop(s2), 0, env, runs);
      } else if outcome.Failed? {
        Aborts(s2);
      }
    }
  }

  lemma Aborts(s: State)
    requires Wf(s)
    ensures RequestAbortAll(s).abortReq && Wf(RequestAbortAll(s))
  {
  }

  lemma PendingResumes(s: State, delta: nat, env: Env)
    requires Wf(s)
    ensures s.pending ==> Admit(s, delta, env).0
  {
    ResumesExactly(s, delta, env);
  }

  lemma StepFresh(s: State, op: Op)
    requires Sound(s) && Fresh(s) && Enabled(s, op)
    ensures Fresh(Step(s, op))
  {
    hide CalcCtx, Push, RequestAbortAll;
    match op
    case DoPush(m, b, e) => PushFresh(s, m, b, e);
    case DoFailedPush => Aborts(s);
    case DoTick(d, env, runs) =>
      if s.abortReq {
        if s.pending { DoomedStep(s, op); } else { AbortRecoversIff(s, d, env, runs); }
      } else if s.active || s.pending {
        CalcCtxFresh(s, d, env, runs);
      }
    case DoDebugPause(_) =>
  }

  /** From the start on, and over any run, a script that waits for its first run is fresh. */
  lemma {:induction false} ReachableIsFresh(s: State, ops: seq<Op>)
    requires Sound(s) && Fresh(s) && Fits(s, ops)
    ensures Fresh(RunOps(s, ops))
    decreases |ops|
  {
    hide Fresh, Step, Sound;
    if ops != [] {
      StepFresh(s, ops[0]);
      StepKeepsSound(s, ops[0]);
      ReachableIsFresh(Step(s, ops[0]), ops[1..]);
    }
  }

  /**
   At this tick the pause is not as awaited. Scripts above the waiting one can switch DebugPause, so for that one the
   waiting script has to be on top.
   */
  predicate NotYet(s: State, env: Env, n: nat, onTarget: bool, val: bool, hash: nat) {
    IsOn(s, env, onTarget, hash) != val && (!onTarget && hash == 0x2d67e2da ==> n == s.sp)
  }

  lemma AdmitKeepsWaiting(s: State, delta: nat, env: Env, n: nat, onTarget: bool, val: bool, hash: nat)
    requires Shape(s) && Occupied(s) && !s.abortReq && Waits(s, n, onTarget, val, hash)
    requires NotYet(s, env, n, onTarget, val, hash)
    ensures var (resume, t) := Admit(s, delta, env);
            && Awaiting(t.frames[n], onTarget, val, hash) && t.sp == s.sp && (!resume ==> !t.pending && !s.pending)
            && (n == s.sp ==> !resume)
  {
    ResumesExactly(s, delta, env);
    AdmitKeeps(s, delta, env);
    AdmitCharges(s, delta, env);
    if n == s.sp {
      BlockedExactly(s, env);
      AwaitsEnd(s, env);
      assert Admit(s, delta, env) == (false, CheckBlocked(s, env).1);
      hide Admit, CheckBlocked, Blocks;
    } else {
      hide Admit;
    }
  }

  /** A pass over the stack leaves a script waiting, and does not resume it, while the pause is not as awaited. */
  lemma {:induction false} PassKeepsWaiting(s: State, delta: nat, env: Env, runs: seq<Run>, n: nat, onTarget: bool,
                                            val: bool, hash: nat)
    requires Shape(s) && Occupied(s) && !s.abortReq && WfRuns(runs) && Waits(s, n, onTarget, val, hash)
    requires NotYet(s, env, n, onTarget, val, hash)
    ensures !Resumes(s, delta, env, runs, n)
    ensures var t := CalcCtx(s, delta, env, runs).1; !t.abortReq ==> Waits(t, n, onTarget, val, hash)
    decreases s.sp
  {
    hide Admit, RunCommands, Pop, DiscardTop, Unprepare, RequestAbortAll, NotYet;
    AdmitKeeps(s, delta, env);
    AdmitKeepsWaiting(s, delta, env, n, onTarget, val, hash);
    var (resume, s1) := Admit(s, delta, env);
    if resume {
      RunKeepsStack(s1, s.sp, runs[s.sp]);
      var (outcome, s2) := RunCommands(s1, s.sp, runs[s.sp]);
      if outcome.Failed? {
        Aborts(s2);
      } else if outcome.Completed? {
        PopLands(s1, s.sp, s2);
        PopFrames(s2);
        StillNotYet(s, Pop(s2), env, n, onTarget, val, hash);
        PassKeepsWaiting(Pop(s2), 0, env, runs, n, onTarget, val, hash);
      }
    }
  }

  lemma StillNotYet(s: State, p: State, env: Env, n: nat, onTarget: bool, val: bool, hash: nat)
    requires NotYet(s, env, n, onTarget, val, hash) && n < s.sp
    ensures NotYet(p, env, n, onTarget, val, hash)
  {
  }

  predicate ResumesIn(s: State, op: Op, n: nat)
    requires Enabled(s, op)
  {
    op.DoTick? && (s.active || s.pending) && Resumes(s, op.delta, op.env, op.runs, n)
  }

  /** Nothing aborts, and at every tick the pause is not as awaited. */
  predicate NeverAsAwaited(s: State, ops: seq<Op>, n: nat, onTarget: bool, val: bool, hash: nat)
    requires Fits(s, ops)
    decreases |ops|
  {
    !s.abortReq &&
    (ops == [] ||
     ((ops[0].DoTick? ==> NotYet(s, ops[0].env, n, onTarget, val, hash)) &&
      NeverAsAwaited(Step(s, ops[0]), ops[1..], n, onTarget, val, hash)))
  }

  predicate NeverResumed(s: State, ops: seq<Op>, n: nat)
    requires Fits(s, ops)
    decreases |ops|
  {
    ops == [] || (!ResumesIn(s, ops[0], n) && NeverResumed(Step(s, ops[0]), ops[1..], n))
  }

  lemma StepKeepsWaiting(s: State, op: Op, n: nat, onTarget: bool, val: bool, hash: nat)
    requires Healthy(s) && Enabled(s, op) && Waits(s, n, onTarget, val, hash)
    requires op.DoTick? ==> NotYet(s, op.env, n, onTarget, val, hash)
    ensures !ResumesIn(s, op, n)
    ensures !Step(s, op).abortReq ==> Waits(Step(s, op), n, onTarget, val, hash)
  {
    hide CalcCtx, Push, Resumes, NotYet, Awaiting;
    assert Occupied(s) by { WaitsOccupied(s, n, onTarget, val, hash); }
    match op
    case DoPush(m, b, e) => PushWrites(s, m, b, e);
    case DoFailedPush => Aborts(s);
    case DoTick(d, env, runs) =>
      if s.active || s.pending { PassKeepsWaiting(s, d, env, runs, n, onTarget, val, hash); }
    case DoDebugPause(_) =>
  }

  lemma WaitsOccupied(s: State, n: nat, onTarget: bool, val: bool, hash: nat)
    requires Shape(s) && Waits(s, n, onTarget, val, hash)
    ensures Occupied(s)
  {
  }

  /**
   Over any run, scripts pushed above it included, a script that awaits a pause is not resumed before the first tick
   on which that pause is as awaited, and goes on waiting until then.
   */
  lemma {:induction false} WaitsUntilAsAwaited(s: State, ops: seq<Op>, n: nat, onTarget: bool, val: bool, hash: nat)
    requires Healthy(s) && Fits(s, ops) && Waits(s, n, onTarget, val, hash)
    requires NeverAsAwaited(s, ops, n, onTarget, val, hash)
    ensures NeverResumed(s, ops, n) && Waits(RunOps(s, ops), n, onTarget, val, hash) && Healthy(RunOps(s, ops))
    decreases |ops|
  {
    hide Step, Healthy, Waits, NotYet, ResumesIn;
    if ops != [] {
      StepKeepsWaiting(s, ops[0], n, onTarget, val, hash);
      HealthyIsSound(s);
      StepKeepsSound(s, ops[0]);
      SoundIsHealthy(Step(s, ops[0]));
      WaitsUntilAsAwaited(Step(s, ops[0]), ops[1..], n, onTarget, val, hash);
    }
  }

  lemma HealthyIsSound(s: State)
    requires Healthy(s)
    ensures Sound(s)
  {
  }

  lemma SoundIsHealthy(s: State)
    requires Sound(s) && !s.abortReq
    ensures Healthy(s)
  {
  }

  /**
   Then, on top, it is resumed exactly when the pause is as awaited and none blocks it, with its await ended; the
   await also ends, without the script being resumed, when it is for the very pause that blocks it.
   */
  lemma AwaitEndsExactly(s: State, delta: nat, env: Env, runs: seq<Run>, onTarget: bool, val: bool, hash: nat)
    requires Healthy(s) && WfRuns(runs) && Waits(s, s.sp, onTarget, val, hash)
    ensures Resumes(s, delta, env, runs, s.sp) <==>
            IsOn(s, env, onTarget, hash) == val && !Blocks(HoldOf(s), Top(s), env)
    ensures var t := Admit(s, delta, env).1;
            && (Resumes(s, delta, env, runs, s.sp) ==> Awaited(Top(t), onTarget) == 0)
            && (onTarget ==> (Awaited(Top(t), true) == 0 <==> Resumes(s, delta, env, runs, s.sp)))
            && (!onTarget ==> (Awaited(Top(t), false) == 0 <==> RequestIsOver(s, env)))
  {
    ResumesExactly(s, delta, env);
    AdmitAwaits(s, delta, env);
    BlockedExactly(s, env);
    hide Admit, Blocks, IsOn, Counts, CheckBlocked;
  }

  lemma AdmitAwaits(s: State, delta: nat, env: Env)
    requires Wf(s)
    ensures var t := Admit(s, delta, env).1;
            && Top(t).awaitRequest == (if !s.pending && RequestIsOver(s, env) then 0 else Top(s).awaitRequest)
            && Top(t).awaitTarget == (if !s.pending && !CheckBlocked(s, env).0 then 0 else Top(s).awaitTarget)
  {
    AwaitsEnd(s, env);
    var (blocked, s1) := CheckBlocked(s, env);
    ConsumeKeepsBlocks(s1, delta);
    hide CheckBlocked, Consume, RequestIsOver;
  }
}
