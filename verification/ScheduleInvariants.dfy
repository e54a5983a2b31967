/** What every run of the scheduler keeps: the shape of the stack, and when an abort can be recovered from. */
module ScheduleInvariants {
  import opened Basics
  import opened Schedule

  const NEUTRAL := Held(Input({}, 0, 0, 0, 0, 0), Vanilla)
  const UNUSED := Frame(None, Uninitialized, NEUTRAL, 0, 0, 0, 0, false, false, false, FpsUnset)

  /** The state after the contexts have been created at startup. */
  const INIT := State(seq(DEPTH, _ => UNUSED), 0, 0, 0, false, false, false, false, false, [], 0, 0)

  /**
   What happens between and in ticks: a deferred push, one whose script cannot be read or built and which asks for
   an abort instead, a tick, or a pause request from outside.
   */
  datatype Op =
    | DoPush(mod: ModuleId, blockDebug: bool, hasEntry: bool)
    | DoFailedPush
    | DoTick(delta: nat, env: Env, runs: seq<Run>)
    | DoDebugPause(v: bool)

  predicate Enabled(s: State, op: Op) {
    Wf(s) && (op.DoPush? ==> HasRoom(s)) && (op.DoTick? ==> WfRuns(op.runs))
  }

  function Step(s: State, op: Op): (r: State)
    requires Enabled(s, op)
    ensures Wf(r)
  {
    match op
    case DoPush(m, b, e) => Push(s, m, b, e)
    case DoFailedPush => RequestAbortAll(s)
    case DoTick(d, env, runs) => Tick(s, d, env, runs)
    case DoDebugPause(v) => s.(debugPause := v)
  }

  /** Every push in the sequence finds room on the stack when it is made. */
  predicate Fits(s: State, ops: seq<Op>)
    decreases |ops|
  {
    ops == [] || (Enabled(s, ops[0]) && Fits(Step(s, ops[0]), ops[1..]))
  }

  function RunOps(s: State, ops: seq<Op>): (t: State)
    requires Fits(s, ops)
    ensures Wf(s) ==> Wf(t)
    decreases |ops|
  {
    if ops == [] then s else RunOps(Step(s, ops[0]), ops[1..])
  }

  predicate Free(f: Frame) {
    f.mod.None? && f.ctx == Uninitialized
  }

  predicate Ready(f: Frame) {
    f.mod.Some? && Runnable(f.ctx)
  }

  /** Frames 0..sp hold scripts that can be resumed, or the stack is empty; every other frame is unused. */
  predicate Shape(s: State) {
    && Wf(s)
    && (forall i :: 0 <= i < s.sp ==> Ready(s.frames[i]))
    && (forall i :: s.sp < i < DEPTH ==> Free(s.frames[i]))
    && (Ready(Top(s)) || (Free(Top(s)) && s.sp == 0 && !s.pending))
  }

  /** No abort is waiting, and playback is on only while a script is on the stack. */
  predicate Healthy(s: State) {
    Shape(s) && !s.abortReq && (s.active ==> Occupied(s))
  }

  /** No context is left running between ticks. */
  predicate Calm(s: State) {
    Wf(s) && forall i :: 0 <= i < DEPTH ==> s.frames[i].ctx != Active
  }

  /** An abort is waiting to be processed while a push is still pending. */
  predicate Doomed(s: State) {
    Calm(s) && s.abortReq && s.pending
  }

  // ----- what running a script can change -----

  /** The script of frame `own` is the one running. */
  predicate Running(s: State, own: nat) {
    && Wf(s) && s.sp == own && !s.abortReq && !s.pending
    && s.frames[own].mod.Some? && s.frames[own].ctx == Active
    && (forall i :: 0 <= i < own ==> Ready(s.frames[i]))
    && (forall i :: own < i < DEPTH ==> Free(s.frames[i]))
  }

  /** Only data of the running frame and the clocks have changed. */
  predicate SameStack(a: State, b: State) {
    && Wf(a) && Wf(b) && a.sp == b.sp && a.pending == b.pending && a.abortReq == b.abortReq && a.discards == b.discards
    && (a.active ==> b.active)
    && Top(a).mod == Top(b).mod && Top(a).ctx == Top(b).ctx
    && forall i :: 0 <= i < DEPTH && i != a.sp ==> a.frames[i] == b.frames[i]
  }

  predicate SameBelow(a: State, b: State, n: nat) {
    |a.frames| == |b.frames| == DEPTH && forall i :: 0 <= i < n && i < DEPTH ==> a.frames[i] == b.frames[i]
  }

  /** The running script pushed a child, which waits for its first run on top of it. */
  predicate Pushed(s: State, own: nat, t: State) {
    && Wf(t) && t.sp == own + 1 && t.pending && t.frames[own + 1].mod.Some? && t.frames[own + 1].ctx == Prepared
    && forall i :: own + 1 < i < DEPTH ==> Free(t.frames[i])
  }

  predicate RunPost(s: State, own: nat, o: Outcome, t: State) {
    && Wf(s) && Wf(t) && s.sp == own
    && t.discards == s.discards
    && (o.Cancelled? <==> t.abortReq)
    && (!o.Cancelled? ==> SameBelow(s, t, own) && t.frames[own].mod == s.frames[own].mod)
    && match o
       case Completed =>
         && t.sp == own && !t.pending && t.frames[own].ctx == Finished && (s.active ==> t.active)
         && forall i :: own < i < DEPTH ==> Free(t.frames[i])
       case Failed => t.sp == own && !t.pending && Calm(t)
       case Cancelled => !t.pending && Calm(t)
       case Yielded =>
         && t.frames[own].ctx == Suspended
         && (Pushed(s, own, t) ||
             (t.sp == own && !t.pending && t.active && forall i :: own < i < DEPTH ==> Free(t.frames[i])))
         && (s.active ==> t.active)
  }

  /** An input call writes the top frame's input and time and starts the clock, and nothing else. */
  lemma InputWrites(s: State, c: Command)
    requires Wf(s) && c.SetInput?
    ensures var (t, stop) := ApplySetInput(s, c);
            && t == s.(frames := t.frames, active := t.active, elapsed := t.elapsed) && !stop.Cancel?
            && t.frames == s.frames[s.sp := Top(s).(held := Top(t).held, ttl := Top(t).ttl)]
            && t.elapsed == (if s.active || !t.active then s.elapsed else 0)
            && (s.active || stop.Yield? ==> t.active)
  {
    hide ApplySetInput;
    InputFrames(s, c);
    InputClock(s, c);
  }

  lemma InputClock(s: State, c: Command)
    requires Wf(s) && c.SetInput?
    ensures var (t, stop) := ApplySetInput(s, c);
            && t == s.(frames := t.frames, active := t.active, elapsed := t.elapsed) && !stop.Cancel?
            && t.elapsed == (if s.active || !t.active then s.elapsed else 0)
            && (s.active || stop.Yield? ==> t.active)
  {
    hide GameButtons, Scale;
  }

  lemma InputFrames(s: State, c: Command)
    requires Wf(s) && c.SetInput?
    ensures var t := ApplySetInput(s, c).0;
            t.sp == s.sp && t.frames == s.frames[s.sp := Top(s).(held := Top(t).held, ttl := Top(t).ttl)]
  {
    hide GameButtons, Scale;
    if Scale(Top(s).fps, c.duration).Some? {
      var t := ApplySetInput(s, c).0;
      var f := Top(s).(held := Top(t).held, ttl := Top(t).ttl);
      assert t.frames == s.frames[s.sp := f];
    }
  }

  lemma ApplyKeepsStack(s: State, c: Command)
    requires Wf(s) && !c.PushChild? && !c.RequestAbort?
    ensures SameStack(s, Apply(s, c).0)
    ensures !Apply(s, c).1.Cancel?
    ensures Apply(s, c).1.Yield? ==> Apply(s, c).0.active
  {
    hide Push, ApplySetInput, ApplyAwait, ApplyBeginFrameAdvance, ApplyStep, HasRoom, RequestAbortAll, SetTop;
    match c
    case SetInput(_, _, _, _, _, _, _) => InputWrites(s, c);
    case SetGyro(g) => TopKeepsStack(s, Top(s).(held := Top(s).held.(input := Top(s).held.input.(gyro := g))));
    case BlockOnDebugPause(v) => TopKeepsStack(s, Top(s).(blockDebug := v));
    case BlockOnLoadingPause(v) => TopKeepsStack(s, Top(s).(blockLoading := v));
    case Await(_, _, _) => AwaitKeepsStack(s, c);
    case BeginFrameAdvance => AdvanceKeepsStack(s, 0);
    case StepFrameAdvance(d) => AdvanceKeepsStack(s, d);
    case EndFrameAdvance =>
  }

  lemma TopKeepsStack(s: State, f: Frame)
    requires Wf(s) && f.mod == Top(s).mod && f.ctx == Top(s).ctx
    ensures SameStack(s, SetTop(s, f))
  {
  }

  lemma AwaitKeepsStack(s: State, c: Command)
    requires Wf(s) && c.Await?
    ensures SameStack(s, ApplyAwait(s, c)) && ApplyAwait(s, c).active
  {
  }

  lemma AdvanceKeepsStack(s: State, duration: nat)
    requires Wf(s)
    ensures SameStack(s, ApplyBeginFrameAdvance(s)) && SameStack(s, ApplyStep(s, duration))
  {
    hide Scale, Add32;
  }

  lemma PushKeepsStack(s: State, own: nat, c: Command)
    requires Running(s, own) && c.PushChild? && own + 1 < DEPTH
    ensures var t := Apply(s, c).0;
            && t.discards == s.discards && t.active == s.active
            && if t.abortReq then Apply(s, c).1.Cancel? && AllButCalm(t, own)
               else Apply(s, c).1.Yield? && SameBelow(s, t, own + 1) && Pushed(s, own, t)
  {
  }

  /** An abort request leaves the running context to notice it when its call returns. */
  predicate AllButCalm(t: State, own: nat) {
    Wf(t) && t.abortReq && !t.pending && forall i :: 0 <= i < DEPTH && i != own ==> t.frames[i].ctx != Active
  }

  lemma EndPost(s: State, own: nat, t: State, o: Outcome, c: Ctx)
    requires Running(s, own) && SameStack(s, t)
    requires (o.Completed? && c == Finished) || (o.Failed? && c == Exception) ||
             (o.Yielded? && c == Suspended && t.active)
    ensures RunPost(s, own, o, SetCtx(t, own, c))
  {
  }

  lemma PushPost(s: State, own: nat, t: State)
    requires Running(s, own) && SameBelow(s, t, own + 1) && Pushed(s, own, t)
    requires t.discards == s.discards && t.active == s.active && !t.abortReq
    ensures RunPost(s, own, Yielded, SetCtx(t, own, Suspended))
  {
  }

  lemma CancelPost(s: State, own: nat, t: State)
    requires Running(s, own) && AllButCalm(t, own) && t.discards == s.discards
    ensures RunPost(s, own, Cancelled, SetCtx(t, own, Aborted))
  {
  }

  lemma RunPostTrans(s: State, own: nat, s1: State, o: Outcome, t: State)
    requires Running(s, own) && SameStack(s, s1) && RunPost(s1, own, o, t)
    ensures RunPost(s, own, o, t)
  {
  }

  lemma {:induction false} RunKeepsStack(s: State, own: nat, run: Run)
    requires Running(s, own) && (own + 1 == DEPTH ==> forall c <- run.commands :: !c.PushChild?)
    ensures var r := RunCommands(s, own, run); RunPost(s, own, r.0, r.1)
    decreases |run.commands|
  {
    if run.commands == [] {
      EndPost(s, own, s, if run.ending == Returns then Completed else Failed,
              if run.ending == Returns then Finished else Exception);
    } else {
      var c := run.commands[0];
      var (s1, stop) := Apply(s, c);
      if c.PushChild? {
        PushKeepsStack(s, own, c);
        if s1.abortReq { CancelPost(s, own, s1); } else { PushPost(s, own, s1); }
      } else if c.RequestAbort? {
        CancelPost(s, own, s1);
      } else {
        ApplyKeepsStack(s, c);
        var rest := run.(commands := run.commands[1..]);
        if stop.Continue? {
          RunKeepsStack(s1, own, rest);
          var r := RunCommands(s1, own, rest);
          RunPostTrans(s, own, s1, r.0, r.1);
        } else {
          EndPost(s, own, s1, Yielded, Suspended);
        }
      }
    }
  }

  // ----- one tick -----

  predicate SameControl(a: State, b: State) {
    && Wf(a) && Wf(b) && a.sp == b.sp && a.pending == b.pending && a.abortReq == b.abortReq
    && a.discards == b.discards && a.active == b.active
    && forall i :: 0 <= i < DEPTH ==> a.frames[i].mod == b.frames[i].mod && a.frames[i].ctx == b.frames[i].ctx
  }

  lemma CheckPausesKeeps(s: State, env: Env)
    requires Wf(s)
    ensures var f := CheckPauses(s, env).1;
            Top(s) == f.(awaitRequest := Top(s).awaitRequest, awaitTarget := Top(s).awaitTarget)
  {
  }

  lemma CheckBlockedKeeps(s: State, env: Env)
    requires Wf(s)
    ensures SameControl(s, CheckBlocked(s, env).1) && SameHeld(s, CheckBlocked(s, env).1)
  {
    CheckPausesKeeps(s, env);
  }

  predicate SameHeld(a: State, b: State) {
    Wf(a) && Wf(b) && forall i :: 0 <= i < DEPTH ==> a.frames[i].held == b.frames[i].held
  }

  lemma GateKeepsFrames(s: State, blockDebug: bool, delta: nat)
    ensures var t := FrameAdvanceGate(s, blockDebug, delta).0;
            && t.frames == s.frames && t.sp == s.sp && t.elapsed == s.elapsed && t.pending == s.pending
            && t.active == s.active && t.abortReq == s.abortReq && t.discards == s.discards
    ensures !s.frameAdvance ==> FrameAdvanceGate(s, blockDebug, delta).1 == Gate(true, true)
  {
  }

  lemma ConsumeKeeps(s: State, delta: nat)
    requires Wf(s)
    ensures SameControl(s, Consume(s, delta).1) && SameHeld(s, Consume(s, delta).1)
  {
    hide FrameAdvanceGate;
    GateKeepsFrames(s, s.frames[ChargedFrame(s)].blockDebug, delta);
  }

  /** Admitting a script moves clocks and finished awaits only, and starts its context. */
  lemma AdmitKeeps(s: State, delta: nat, env: Env)
    requires Shape(s) && !s.abortReq && Occupied(s)
    ensures var (resume, t) := Admit(s, delta, env);
            && SameHeld(s, t) && t.active == s.active && t.discards == s.discards
            && (forall i :: 0 <= i < DEPTH ==> t.frames[i].mod == s.frames[i].mod)
            && if resume then Running(t, s.sp) else SameControl(s, t)
  {
    var (blocked, s1) := CheckBlocked(s, env);
    CheckBlockedKeeps(s, env);
    if !blocked {
      var (exhausted, s2) := Consume(s1, delta);
      ConsumeKeeps(s1, delta);
      hide Consume, CheckBlocked;
      if exhausted || s2.pending { StartsRunning(s, s2); }
    }
  }

  lemma StartsRunning(s: State, t: State)
    requires Shape(s) && !s.abortReq && Occupied(s) && SameControl(s, t) && SameHeld(s, t)
    ensures var u := SetCtx(t.(pending := false), s.sp, Active);
            && Running(u, s.sp) && SameHeld(s, u) && u.active == s.active && u.discards == s.discards
            && forall i :: 0 <= i < DEPTH ==> u.frames[i].mod == s.frames[i].mod
  {
  }

  /**
   All a pop does: the finished frame is emptied, a parent without time left takes its input, and its module may be
   freed.
   */
  lemma PopIs(s: State)
    requires Wf(s) && s.sp > 0
    ensures var t := Pop(s);
            var gone := Unprepare(Top(s)).(mod := None);
            var parent := s.frames[s.sp - 1];
            t == s.(frames := s.frames[s.sp := gone]
                                      [s.sp - 1 := if parent.ttl == 0 then parent.(held := gone.held) else parent],
                    sp := s.sp - 1, discards := t.discards)
  {
    hide SharedBelow;
    DiscardTopIs(SetTop(s, Unprepare(Top(s))));
    hide DiscardTop;
  }

  lemma PopFrames(s: State)
    requires Wf(s) && s.sp > 0
    ensures var t := Pop(s);
            && t == s.(frames := t.frames, sp := s.sp - 1, discards := t.discards) && |t.frames| == DEPTH
            && t.frames[s.sp].mod.None?
            && t.frames[s.sp - 1] == s.frames[s.sp - 1].(held := t.frames[s.sp - 1].held)
            && forall i :: 0 <= i < DEPTH && i != s.sp && i != s.sp - 1 ==> t.frames[i] == s.frames[i]
  {
    PopIs(s);
    hide Pop, Unprepare;
  }

  lemma DiscardTopIs(s: State)
    requires Wf(s)
    ensures DiscardTop(s) == SetTop(s, Top(s).(mod := None)).(discards := DiscardTop(s).discards)
  {
    hide SharedBelow;
    assert s.frames[s.sp := Top(s)] == s.frames;
  }

  lemma PopKeeps(s: State, t: State)
    requires Wf(s) && s.sp > 0 && !s.abortReq && !s.pending && s.frames[s.sp].mod.Some? &&
             s.frames[s.sp].ctx == Finished
    requires forall i :: 0 <= i < s.sp ==> Ready(s.frames[i])
    requires forall i :: s.sp < i < DEPTH ==> Free(s.frames[i])
    requires t == Pop(s)
    ensures Shape(t) && Occupied(t) && !t.abortReq && !t.pending && t.active == s.active && t.sp == s.sp - 1
  {
    PopIs(s);
    hide Pop;
  }

  /** How a tick leaves the stack: aborting, emptied, or with a script waiting on top. */
  predicate CalcPost(s: State, done: bool, t: State) {
    if t.abortReq then done && Calm(t) && !t.pending
    else
      && Shape(t)
      && (done ==> !Occupied(t))
      && (!done ==> Occupied(t) && (s.active ==> t.active))
  }

  lemma WaitingPost(s: State, t: State)
    requires Shape(s) && !s.abortReq && Occupied(s) && SameControl(s, t)
    ensures CalcPost(s, false, t)
  {
  }

  /** Every way a run can end other than returning to a parent script. */
  lemma StoppedPost(s: State, own: nat, o: Outcome, t: State)
    requires Running(s, own) && RunPost(s, own, o, t) && !o.Completed?
    ensures CalcPost(s, !o.Yielded?, if o.Failed? then RequestAbortAll(t) else t)
  {
  }

  lemma EmptiedPost(s: State, t: State)
    requires Running(s, 0) && RunPost(s, 0, Completed, t)
    ensures CalcPost(s, true, DiscardTop(SetTop(t, Unprepare(Top(t)))))
  {
  }

  lemma CompletedBelow(s: State, own: nat, t: State)
    requires Running(s, own) && own > 0 && RunPost(s, own, Completed, t)
    ensures forall i :: 0 <= i < own ==> Ready(t.frames[i])
    ensures t.frames[own].mod.Some?
  {
  }

  /** A script that has finished on top of another hands over to one that can be resumed. */
  lemma PopLands(s: State, own: nat, t: State)
    requires Running(s, own) && own > 0 && RunPost(s, own, Completed, t)
    ensures var p := Pop(t);
            t.sp == own && Shape(p) && Occupied(p) && !p.abortReq && !p.pending && p.active == t.active &&
                p.sp == own - 1
  {
    CompletedBelow(s, own, t);
    PopKeeps(t, Pop(t));
  }

  lemma {:induction false} CalcCtxKeeps(s: State, delta: nat, env: Env, runs: seq<Run>)
    requires Shape(s) && !s.abortReq && Occupied(s) && WfRuns(runs)
    ensures var r := CalcCtx(s, delta, env, runs); CalcPost(s, r.0, r.1)
    decreases s.sp
  {
    AdmitKeeps(s, delta, env);
    var (resume, s1) := Admit(s, delta, env);
    if !resume {
      WaitingPost(s, s1);
    } else {
      RunKeepsStack(s1, s.sp, runs[s.sp]);
      var (outcome, s2) := RunCommands(s1, s.sp, runs[s.sp]);
      if !outcome.Completed? {
        StoppedPost(s1, s.sp, outcome, s2);
      } else if s.sp == 0 {
        EmptiedPost(s1, s2);
      } else {
        CompletedBelow(s1, s.sp, s2);
        PopKeeps(s2, Pop(s2));
        CalcCtxKeeps(Pop(s2), 0, env, runs);
      }
    }
  }

  // ----- whole runs -----

  /** Between ticks: either the stack is in order or an abort is waiting to clear it. */
  predicate Sound(s: State) {
    Calm(s) && (s.abortReq || Healthy(s))
  }

  lemma ProcessAbortClears(s: State)
    requires Calm(s) && s.abortReq
    ensures var t := ProcessAbort(s);
            && Wf(t) && !t.abortReq && !t.active && t.sp == 0 && t.pending == s.pending
            && (forall i :: 0 <= i < DEPTH ==> Free(t.frames[i]))
  {
  }

  lemma CalcPostIsSound(s: State, done: bool, t: State)
    requires CalcPost(s, done, t)
    ensures Sound(if done then t.(active := false) else t) && (t.abortReq ==> !t.pending)
  {
  }

  lemma TickKeepsSound(s: State, delta: nat, env: Env, runs: seq<Run>)
    requires Sound(s) && WfRuns(runs)
    ensures Sound(Tick(s, delta, env, runs))
    ensures Healthy(s) ==> !Doomed(Tick(s, delta, env, runs))
  {
    if s.abortReq {
      ProcessAbortClears(s);
    } else if s.active || s.pending {
      CalcCtxKeeps(s, delta, env, runs);
      var (done, t) := CalcCtx(s, delta, env, runs);
      CalcPostIsSound(s, done, t);
    }
  }

  lemma AbortAllIsSound(s: State)
    requires Calm(s)
    ensures Sound(RequestAbortAll(s))
  {
  }

  lemma SlotIsCalm(s: State, slot: nat, f: Frame)
    requires Calm(s) && slot < DEPTH && f.ctx != Active
    ensures Calm(s.(frames := s.frames[slot := f]))
  {
  }

  lemma PushKeepsSound(s: State, m: ModuleId, blockDebug: bool, hasEntry: bool)
    requires Sound(s) && HasRoom(s)
    ensures Sound(Push(s, m, blockDebug, hasEntry))
  {
    var (slot, f) := PushSlot(s);
    var f1 := f.(mod := Some(m), blockDebug := blockDebug);
    if f.mod.Some? {
      SlotIsCalm(s, slot, f);
      AbortAllIsSound(s.(frames := s.frames[slot := f]));
    } else if !hasEntry {
      SlotIsCalm(s, slot, f1);
      AbortAllIsSound(s.(frames := s.frames[slot := f1]));
    } else {
      SlotIsCalm(s, slot, Prepare(f1));
      if !s.abortReq { HealthyPush(s, slot, Prepare(f1)); }
    }
  }

  lemma HealthyPush(s: State, slot: nat, f: Frame)
    requires Healthy(s) && slot < DEPTH && Ready(f) && slot == if Occupied(s) then s.sp + 1 else s.sp
    ensures Healthy(s.(frames := s.frames[slot := f], sp := slot, pending := true))
  {
  }

  lemma StepKeepsSound(s: State, op: Op)
    requires Sound(s) && Enabled(s, op)
    ensures Sound(Step(s, op))
  {
    match op
    case DoPush(m, b, e) => PushKeepsSound(s, m, b, e);
    case DoFailedPush => AbortAllIsSound(s);
    case DoTick(d, env, runs) => TickKeepsSound(s, d, env, runs);
    case DoDebugPause(_) =>
  }

  lemma {:induction false} RunOpsKeepsSound(s: State, ops: seq<Op>)
    requires Sound(s) && Fits(s, ops)
    ensures Sound(RunOps(s, ops))
    decreases |ops|
  {
    if ops != [] {
      StepKeepsSound(s, ops[0]);
      RunOpsKeepsSound(Step(s, ops[0]), ops[1..]);
    }
  }

  /** Every reachable state is in order or waiting to abort. */
  lemma ReachableIsSound(ops: seq<Op>)
    requires Fits(INIT, ops)
    ensures Sound(RunOps(INIT, ops))
  {
    RunOpsKeepsSound(INIT, ops);
  }

  /** Processing an abort repairs the scheduler exactly when no push was left pending. */
  lemma AbortRecoversIff(s: State, delta: nat, env: Env, runs: seq<Run>)
    requires Sound(s) && s.abortReq && WfRuns(runs)
    ensures Healthy(Tick(s, delta, env, runs)) <==> !s.pending
    ensures Doomed(Tick(s, delta, env, runs)) <==> s.pending
  {
    ProcessAbortClears(s);
  }

  /**
   Every way into the unrecoverable state: a push that fails behind a pending one, before or after it has a module,
   or one that succeeds behind an abort.
   */
  lemma DoomedEntryIff(s: State, op: Op)
    requires Sound(s) && !Doomed(s) && Enabled(s, op)
    ensures Doomed(Step(s, op)) <==>
            || (op.DoFailedPush? && s.pending)
            || (op.DoPush? && if s.abortReq then op.hasEntry && PushSlot(s).1.mod.None? else s.pending && !op.hasEntry)
  {
    StepKeepsSound(s, op);
    match op
    case DoPush(m, b, e) =>
    case DoFailedPush =>
    case DoTick(d, env, runs) =>
      if s.abortReq { AbortRecoversIff(s, d, env, runs); } else { TickKeepsSound(s, d, env, runs); }
    case DoDebugPause(_) =>
  }

  /** A doomed scheduler never runs a script again: no tick depends on what the scripts would do, or on the game. */
  lemma DoomedTick(s: State, delta: nat, env: Env, runs: seq<Run>, delta': nat, env': Env, runs': seq<Run>)
    requires Doomed(s) && WfRuns(runs) && WfRuns(runs')
    ensures Tick(s, delta, env, runs) == Tick(s, delta', env', runs')
    ensures Doomed(Tick(s, delta, env, runs)) && !Tick(s, delta, env, runs).active
  {
    ProcessAbortClears(s);
  }

  lemma DoomedStep(s: State, op: Op)
    requires Doomed(s) && Enabled(s, op)
    ensures Doomed(Step(s, op))
  {
    match op
    case DoPush(m, b, e) => PushKeepsSound(s, m, b, e);
    case DoFailedPush => AbortAllIsSound(s);
    case DoTick(d, env, runs) => DoomedTick(s, d, env, runs, d, env, runs);
    case DoDebugPause(_) =>
  }

  lemma {:induction false} DoomedForever(s: State, ops: seq<Op>)
    requires Doomed(s) && Fits(s, ops)
    ensures Doomed(RunOps(s, ops))
    decreases |ops|
  {
    if ops != [] {
      DoomedStep(s, ops[0]);
      DoomedForever(Step(s, ops[0]), ops[1..]);
    }
  }

  /**
   The unrecoverable state is two requests away: a script is queued, and a second one fails, to build or for want of
   an entry point.
   */
  lemma DoomedIsReachable(second: Op)
    requires second in {DoFailedPush, DoPush(2, true, false)}
    ensures var ops := [DoPush(1, true, true), second];
            Fits(INIT, ops) && Doomed(RunOps(INIT, ops))
  {
    var ops := [DoPush(1, true, true), second];
    var s1 := Step(INIT, ops[0]);
    assert Occupied(s1) && s1.pending && s1.sp == 0 && Calm(s1);
    assert ops[1..] == [second] && [second][1..] == [];
    var s2 := Step(s1, second);
    DoomedBehindPush(s1, second);
    assert Fits(s2, []) && RunOps(s2, []) == s2;
    assert Fits(s1, [second]) && RunOps(s1, [second]) == s2;
    assert Fits(INIT, ops) && RunOps(INIT, ops) == RunOps(s1, [second]);
  }

  lemma DoomedBehindPush(s: State, op: Op)
    requires Calm(s) && !s.abortReq && s.pending && Occupied(s) && s.sp + 1 < DEPTH && s.frames[s.sp + 1].ctx != Active
    requires op.DoFailedPush? || (op.DoPush? && !op.hasEntry)
    ensures Doomed(Step(s, op))
  {
  }

  // ----- runs without failures -----

  /** No script throws, asks for an abort, or names a missing entry point. */
  predicate Benign(run: Run) {
    run.ending == Returns && forall c <- run.commands :: !c.RequestAbort? && (c.PushChild? ==> c.hasEntry)
  }

  lemma {:induction false} BenignRun(s: State, own: nat, run: Run)
    requires Running(s, own) && Benign(run) && (own + 1 == DEPTH ==> forall c <- run.commands :: !c.PushChild?)
    ensures var o := RunCommands(s, own, run).0; o.Completed? || o.Yielded?
    decreases |run.commands|
  {
    if run.commands != [] {
      var c := run.commands[0];
      if c.PushChild? {
        PushKeepsStack(s, own, c);
      } else {
        ApplyKeepsStack(s, c);
        if Apply(s, c).1.Continue? { BenignRun(Apply(s, c).0, own, run.(commands := run.commands[1..])); }
      }
    }
  }

  lemma {:induction false} BenignCalc(s: State, delta: nat, env: Env, runs: seq<Run>)
    requires Shape(s) && !s.abortReq && Occupied(s) && WfRuns(runs) && forall run <- runs :: Benign(run)
    ensures !CalcCtx(s, delta, env, runs).1.abortReq
    decreases s.sp
  {
    AdmitKeeps(s, delta, env);
    var (resume, s1) := Admit(s, delta, env);
    if resume {
      BenignRun(s1, s.sp, runs[s.sp]);
      RunKeepsStack(s1, s.sp, runs[s.sp]);
      var (outcome, s2) := RunCommands(s1, s.sp, runs[s.sp]);
      if outcome.Completed? && s.sp > 0 {
        CompletedBelow(s1, s.sp, s2);
        PopKeeps(s2, Pop(s2));
        BenignCalc(Pop(s2), 0, env, runs);
      }
    }
  }

  /** The scheduler never aborts of its own accord: every pop lands on a script that can be resumed. */
  lemma BenignTickIsHealthy(s: State, delta: nat, env: Env, runs: seq<Run>)
    requires Healthy(s) && WfRuns(runs) && forall run <- runs :: Benign(run)
    ensures Healthy(Tick(s, delta, env, runs))
  {
    if s.active || s.pending {
      CalcCtxKeeps(s, delta, env, runs);
      BenignCalc(s, delta, env, runs);
    }
  }
}
