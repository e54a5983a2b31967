/** The scheduler as the mod keeps it: globals and a fixed stack of frames, updated in place. */
module SchedulerImpl {
  import opened Basics
  import opened Schedule
  import opened ScheduleInvariants
  import opened ScheduleInput
  import opened ScheduleAwait

  class Scheduler {
    const moduleStack: array<Frame>
    var moduleStackIndex: nat
    var elapsedPlayback60: nat
    var bypassDebugPause60: nat
    var isPlaybackActive: bool
    var isPlaybackBeginPending: bool
    var isAbortReq: bool
    var isFrameAdvance: bool
    var isDebugPause: bool
    ghost var discards: seq<ModuleId>
    ghost var stepped: nat
    ghost var counted: nat

    ghost predicate Valid()
      reads this, moduleStack
    {
      moduleStack.Length == DEPTH && moduleStackIndex < DEPTH
    }

    ghost function View(): (s: State)
      reads this, moduleStack
      ensures Valid() ==> Wf(s)
    {
      State(moduleStack[..], moduleStackIndex, elapsedPlayback60, bypassDebugPause60, isPlaybackActive,
            isPlaybackBeginPending, isAbortReq, isFrameAdvance, isDebugPause, discards, stepped, counted)
    }

    constructor ()
      ensures Valid() && fresh(moduleStack) && View() == INIT
    {
      moduleStack := new Frame[DEPTH](_ => UNUSED);
      moduleStackIndex, elapsedPlayback60, bypassDebugPause60 := 0, 0, 0;
      isPlaybackActive, isPlaybackBeginPending, isAbortReq := false, false, false;
      isFrameAdvance, isDebugPause := false, false;
      discards, stepped, counted := [], 0, 0;
      new;
      assert moduleStack[..] == INIT.frames;
    }

    /** Overwrites one frame. */
    method Store(i: nat, f: Frame)
      requires Valid() && i < DEPTH
      modifies moduleStack
      ensures Valid() && View() == old(View()).(frames := old(View()).frames[i := f])
    {
      moduleStack[i] := f;
      assert moduleStack[..] == old(moduleStack[..])[i := f];
    }

    method AbortStackReq()
      requires Valid()
      modifies this`isAbortReq, moduleStack
      ensures Valid() && View() == RequestAbortAll(old(View()))
    {
      isAbortReq := true;
      for i := 0 to DEPTH
        modifies moduleStack
        invariant forall j :: 0 <= j < i ==> moduleStack[j] == AbortCtx(old(moduleStack[j]))
        invariant forall j :: i <= j < DEPTH ==> moduleStack[j] == old(moduleStack[j])
      {
        moduleStack[i] := AbortCtx(moduleStack[i]);
      }
      assert moduleStack[..] == RequestAbortAll(old(View())).frames;
    }

    /** Clears every context and frees every module, if an abort was asked for. */
    method AbortStackImpl()
      requires Valid()
      modifies this, moduleStack
      ensures Valid() && View() == ProcessAbort(old(View()))
    {
      hide OwnModule, ClearFrame;
      if !isAbortReq { return; }
      isAbortReq := false;
      ghost var was := moduleStack[..];
      for i := 0 to DEPTH
        modifies this`discards, moduleStack
        invariant forall j :: 0 <= j < i ==> moduleStack[j] == ClearFrame(was[j])
        invariant forall j :: i <= j < DEPTH ==> moduleStack[j] == was[j]
        invariant discards == old(discards) + Modules(was[..i])
      {
        ModulesSnoc(was, i);
        discards := discards + OwnModule(moduleStack[i]);
        moduleStack[i] := ClearFrame(moduleStack[i]);
      }
      assert was[..DEPTH] == was;
      assert moduleStack[..] == ProcessAbort(old(View())).frames;
      moduleStackIndex := 0;
      isPlaybackActive := false;
    }

    method IsBlockedFromScheduling(env: Env) returns (blocked: bool)
      requires Valid()
      modifies moduleStack
      ensures Valid() && (blocked, View()) == CheckBlocked(old(View()), env)
    {
      hide CheckAwaits;
      blocked := false;
      if isPlaybackBeginPending { return; }
      var f := moduleStack[moduleStackIndex];
      if isDebugPause && f.blockDebug {
        if f.awaitRequest == DEBUG_PAUSE && f.awaitVal { f := f.(awaitRequest := 0); }
        if !(isFrameAdvance && bypassDebugPause60 > 0) {
          Store(moduleStackIndex, f);
          return true;
        }
      }
      if env.loadingPause && f.blockLoading {
        if f.awaitRequest == LOADING_PAUSE && f.awaitVal { f := f.(awaitRequest := 0); }
        Store(moduleStackIndex, f);
        return true;
      }
      blocked, f := CalcAwaits(env, f);
      Store(moduleStackIndex, f);
    }

    /** Whether a frame still waits for a pause to come or go, and the frame with the waits that are over cleared. */
    method CalcAwaits(env: Env, sp: Frame) returns (blocked: bool, f: Frame)
      ensures (blocked, f) == CheckAwaits(View(), env, sp)
      ensures blocked <==> Unmet(View(), env, sp, false) || Unmet(View(), env, sp, true)
    {
      blocked, f := false, sp;
      if f.awaitRequest != 0 {
        var isPause := if f.awaitRequest == DEBUG_PAUSE then isDebugPause
                       else if f.awaitRequest == LOADING_PAUSE then env.loadingPause
                       else f.awaitRequest in env.requests;
        blocked := f.awaitVal != isPause;
        if !blocked { f := f.(awaitRequest := 0); }
      }
      if !blocked && f.awaitTarget != 0 {
        blocked := f.awaitVal != (f.awaitTarget in env.targets);
        if !blocked { f := f.(awaitTarget := 0); }
      }
    }

    /** Holds or releases DebugPause while frames are being stepped. */
    method CalcFrameAdvance(blockDebug: bool, delta: nat) returns (gate: Gate)
      requires Valid()
      modifies this`isDebugPause, this`bypassDebugPause60, this`counted
      ensures Valid() && (View(), gate) == FrameAdvanceGate(old(View()), blockDebug, delta)
      ensures View().frames == old(View()).frames && View().elapsed == old(View()).elapsed
    {
      if !isFrameAdvance { return Gate(true, true); }
      if !isDebugPause && bypassDebugPause60 == 0 {
        isDebugPause := true;
        return Gate(true, true);
      } else if isDebugPause && bypassDebugPause60 == 0 {
        return Gate(false, true);
      } else if !blockDebug {
        return Gate(true, false);
      } else if isDebugPause {
        isDebugPause := false;
        return Gate(false, true);
      }
      counted := counted + Min(bypassDebugPause60, delta);
      bypassDebugPause60 := bypassDebugPause60 - Min(bypassDebugPause60, delta);
      if bypassDebugPause60 == 0 { isDebugPause := true; }
      return Gate(true, true);
    }

    /** The frame whose input was showing: not the top one if that is still waiting for its first run. */
    method FindCharged() returns (charged: nat)
      requires Valid()
      ensures charged < DEPTH && charged == ChargedFrame(View())
    {
      charged := moduleStackIndex;
      if isPlaybackBeginPending && moduleStackIndex > 0 && moduleStack[moduleStackIndex - 1].ttl > 0 {
        charged := moduleStackIndex - 1;
      }
    }

    /** Deducts a tick's time from one frame's input, and adds it to the clock. */
    method DeductFrametime(charged: nat, gate: Gate, delta: nat) returns (exhausted: bool)
      requires Valid() && charged < DEPTH
      modifies this`elapsedPlayback60, moduleStack
      ensures Valid() && (exhausted, View()) == DeductFrom(old(View()), charged, gate, delta)
    {
      var f := moduleStack[charged];
      if gate.counts {
        f := f.(ttl := if f.ttl >= delta then f.ttl - delta else 0);
        if gate.timed { elapsedPlayback60 := Add32(elapsedPlayback60, delta); }
      }
      Store(charged, f);
      exhausted := f.ttl == 0;
    }

    /** Takes a tick's time from the input that was showing, subject to frame advance. */
    method CalcConsumeFrametimeQueryIsInputExhausted(delta: nat) returns (exhausted: bool)
      requires Valid()
      modifies this, moduleStack
      ensures Valid() && (exhausted, View()) == Consume(old(View()), delta)
    {
      hide FrameAdvanceGate, DeductFrom, ChargedFrame;
      var charged := FindCharged();
      var gate := CalcFrameAdvance(moduleStack[charged].blockDebug, delta);
      exhausted := DeductFrametime(charged, gate, delta);
    }

    /** Whether a frame under the top one uses the module; the scan stops one frame short. */
    method IsSharedBelow(m: ModuleId) returns (shared: bool)
      requires Valid()
      ensures shared == SharedBelow(View(), m)
    {
      var i := 0;
      while i < moduleStackIndex - 1
        invariant 0 <= i && (i == 0 || i <= moduleStackIndex - 1)
        invariant forall j :: 0 <= j < i ==> moduleStack[j].mod != Some(m)
      {
        if moduleStack[i].mod == Some(m) {
          assert View().frames[i].mod == Some(m);
          return true;
        }
        i := i + 1;
      }
      return false;
    }

    /** Frees the top module unless the scan below finds another frame using it. */
    method TryDiscardLastModuleForPop()
      requires Valid()
      modifies this`discards, moduleStack
      ensures Valid() && View() == DiscardTop(old(View()))
    {
      hide SharedBelow;
      var last := moduleStack[moduleStackIndex].mod;
      if last.None? { return; }
      Store(moduleStackIndex, moduleStack[moduleStackIndex].(mod := None));
      var shared := IsSharedBelow(last.value);
      if !shared { discards := discards + [last.value]; }
    }

    method PushExecModuleEntryPoint(mod: ModuleId, blockDebug: bool, hasEntry: bool)
      requires Valid() && HasRoom(View())
      modifies this, moduleStack
      ensures Valid() && View() == Push(old(View()), mod, blockDebug, hasEntry)
    {
      var slot := moduleStackIndex;
      var f := ResetFrame(moduleStack[slot]);
      if moduleStack[moduleStackIndex].mod.Some? {
        slot := moduleStackIndex + 1;
        f := ResetFrame(moduleStack[slot]).(held := moduleStack[moduleStackIndex].held);
      }
      if f.mod.Some? {
        Store(slot, f);
        AbortStackReq();
        return;
      }
      f := f.(mod := Some(mod), blockDebug := blockDebug);
      if !hasEntry {
        Store(slot, f);
        AbortStackReq();
        return;
      }
      Store(slot, Prepare(f));
      moduleStackIndex := slot;
      isPlaybackBeginPending := true;
    }

    /** Schedules an input for the running script; true when the script is to be suspended. */
    method SetCurrentInput(c: Command) returns (suspend: bool)
      requires Valid() && c.SetInput?
      modifies this, moduleStack
      ensures Valid() && (View(), if suspend then Yield else Continue) == ApplySetInput(old(View()), c)
      ensures old(Top(View()).fps) != FpsUnset ==>
                && Plays(Top(View()), c, old(Top(View()).held.input.gyro))
                && Top(View()).ttl == Time60(old(Top(View()).fps), c.duration) && (suspend <==> Top(View()).ttl > 0)
    {
      hide GameButtons, Scale, Plays, Time60;
      if moduleStack[moduleStackIndex].fps != FpsUnset { InputPlays(View(), c); }
      var f := moduleStack[moduleStackIndex];
      var ttl := Scale(f.fps, c.duration);
      if ttl.None? {
        if c.mode != TasOnly { Store(moduleStackIndex, f.(held := f.held.(mode := c.mode))); }
        return false;
      }
      var input := if c.mode == Vanilla then Input({}, 0, 0, 0, 0, f.held.input.gyro)
                   else Input(GameButtons(c.buttons, c.lx, c.ly, c.rx, c.ry), c.lx, c.ly, c.rx, c.ry,
                       f.held.input.gyro);
      Store(moduleStackIndex, f.(held := Held(input, c.mode), ttl := ttl.value));
      if !isPlaybackActive { elapsedPlayback60 := 0; }
      isPlaybackActive := true;
      suspend := ttl.value > 0;
      assert (View(), if suspend then Yield else Continue) == ApplySetInput(old(View()), c);
      hide ApplySetInput;
    }

    method BeginFrameAdvance()
      modifies this
      ensures old(Valid()) ==> Valid()
      ensures View() == ApplyBeginFrameAdvance(old(View()))
    {
      if !isFrameAdvance {
        isFrameAdvance := true;
        bypassDebugPause60 := 0;
        stepped, counted := 0, 0;
      }
      if !isDebugPause { isDebugPause := true; }
    }

    method StepFrameAdvance(duration: nat)
      requires Valid()
      modifies this
      ensures Valid() && View() == ApplyStep(old(View()), duration)
    {
      var scaled := Scale(moduleStack[moduleStackIndex].fps, duration);
      var duration60 := if scaled.Some? then scaled.value else 0;
      if !isFrameAdvance { BeginFrameAdvance(); }
      bypassDebugPause60 := Add32(bypassDebugPause60, duration60);
      stepped := stepped + duration60;
    }

    /** Serves one call made by the running script. */
    method Serve(c: Command) returns (stop: Stop)
      requires Valid() && (c.PushChild? ==> HasRoom(View()))
      modifies this, moduleStack
      ensures Valid() && (View(), stop) == Apply(old(View()), c)
    {
      hide ApplySetInput, ApplyStep, Push, RequestAbortAll;
      stop := Continue;
      var f := moduleStack[moduleStackIndex];
      match c
      case SetInput(_, _, _, _, _, _, _) =>
        var suspend := SetCurrentInput(c);
        stop := if suspend then Yield else Continue;
      case SetGyro(g) => Store(moduleStackIndex, f.(held := f.held.(input := f.held.input.(gyro := g))));
      case Await(onTarget, val, hash) =>
        f := f.(awaitVal := val, awaitBegin := elapsedPlayback60);
        Store(moduleStackIndex, if onTarget then f.(awaitTarget := hash) else f.(awaitRequest := hash));
        isPlaybackActive := true;
        stop := Yield;
      case BlockOnDebugPause(v) => Store(moduleStackIndex, f.(blockDebug := v));
      case BlockOnLoadingPause(v) => Store(moduleStackIndex, f.(blockLoading := v));
      case BeginFrameAdvance => BeginFrameAdvance();
      case StepFrameAdvance(d) => StepFrameAdvance(d);
      case EndFrameAdvance =>
        isDebugPause := false;
        bypassDebugPause60 := 0;
        isFrameAdvance := false;
      case PushChild(m, b, e) =>
        PushExecModuleEntryPoint(m, b, e);
        stop := if isAbortReq then Cancel else Yield;
      case RequestAbort =>
        AbortStackReq();
        stop := Cancel;
    }

    /** Runs the top script until it returns, throws, or a call stops it. */
    method Execute(run: Run) returns (outcome: Outcome)
      requires Valid() && (moduleStackIndex + 1 == DEPTH ==> forall c <- run.commands :: !c.PushChild?)
      modifies this, moduleStack
      ensures Valid()
      ensures (outcome, View()) ==
              RunCommands(SetCtx(old(View()), old(moduleStackIndex), Active), old(moduleStackIndex), run)
    {
      hide Apply;
      var own := moduleStackIndex;
      Store(own, moduleStack[own].(ctx := Active));
      ghost var start := View();
      var left := run;
      while left.commands != []
        invariant Valid() && moduleStackIndex == own
        invariant own + 1 == DEPTH ==> forall c <- left.commands :: !c.PushChild?
        invariant RunCommands(start, own, run) == RunCommands(View(), own, left)
        decreases |left.commands|
      {
        var stop := Serve(left.commands[0]);
        if stop.Yield? {
          Store(own, moduleStack[own].(ctx := Suspended));
          return Yielded;
        } else if stop.Cancel? {
          Store(own, moduleStack[own].(ctx := Aborted));
          return Cancelled;
        }
        left := left.(commands := left.commands[1..]);
      }
      Store(own, moduleStack[own].(ctx := if left.ending == Returns then Finished else Exception));
      outcome := if left.ending == Returns then Completed else Failed;
    }

    method HandDown()
      requires Valid() && moduleStackIndex > 0
      modifies this`moduleStackIndex, moduleStack
      ensures Valid() && View() == LeaveFrame(old(View())) && moduleStackIndex == old(moduleStackIndex) - 1
    {
      var parent := moduleStack[moduleStackIndex - 1];
      if parent.ttl == 0 {
        parent := parent.(held := moduleStack[moduleStackIndex].held);
      }
      Store(moduleStackIndex - 1, parent);
      moduleStackIndex := moduleStackIndex - 1;
    }

    /** The finished top script's context and module go, and its parent takes over. */
    method PopFrame()
      requires Valid() && moduleStackIndex > 0
      modifies this, moduleStack
      ensures Valid() && View() == Pop(old(View())) && moduleStackIndex == old(moduleStackIndex) - 1
    {
      hide DiscardTop, Unprepare, LeaveFrame;
      Store(moduleStackIndex, Unprepare(moduleStack[moduleStackIndex]));
      TryDiscardLastModuleForPop();
      HandDown();
    }

    /** One pass over the stack: decides, runs, and goes back to decide again after each pop. */
    method CalcStack(deltaFrame60: nat, env: Env, runs: seq<Run>) returns (done: bool)
      requires Valid() && WfRuns(runs)
      modifies this, moduleStack
      ensures Valid() && (done, View()) == CalcCtx(old(View()), deltaFrame60, env, runs)
    {
      hide RunCommands, CheckBlocked, Consume, Pop, DiscardTop, RequestAbortAll, Unprepare;
      var delta := deltaFrame60;
      while true
        invariant Valid()
        invariant CalcCtx(old(View()), deltaFrame60, env, runs) == CalcCtx(View(), delta, env, runs)
        decreases moduleStackIndex
      {
        ghost var s := View();
        var sp := moduleStack[moduleStackIndex];
        if isAbortReq || sp.mod.None? || !Runnable(sp.ctx) {
          AbortStackReq();
          return true;
        }
        var blocked := IsBlockedFromScheduling(env);
        if blocked { return false; }
        var exhausted := CalcConsumeFrametimeQueryIsInputExhausted(delta);
        if !exhausted && !isPlaybackBeginPending { return false; }
        ghost var delta0 := delta;
        delta := 0;
        isPlaybackBeginPending := false;
        assert (true, SetCtx(View(), s.sp, Active)) == Admit(s, delta0, env);
        var outcome := Execute(runs[moduleStackIndex]);
        match outcome {
          case Yielded => return false;
          case Cancelled => return true;
          case Failed =>
            AbortStackReq();
            return true;
          case Completed =>
            if moduleStackIndex == 0 {
              Store(0, Unprepare(moduleStack[0]));
              TryDiscardLastModuleForPop();
              return true;
            }
            PopFrame();
        }
      }
    }

    /** What the game's frame hook calls. */
    method Calc(deltaFrame60: nat, env: Env, runs: seq<Run>)
      requires Valid() && WfRuns(runs)
      modifies this, moduleStack
      ensures Valid() && View() == Tick(old(View()), deltaFrame60, env, runs)
    {
      hide CalcCtx;
      AbortStackImpl();
      if !isPlaybackActive && !isPlaybackBeginPending { return; }
      var done := CalcStack(deltaFrame60, env, runs);
      if done { isPlaybackActive := false; }
    }
  }

  lemma {:induction false} ModulesSnoc(frames: seq<Frame>, n: nat)
    requires n < |frames|
    ensures Modules(frames[..n + 1]) == Modules(frames[..n]) + OwnModule(frames[n])
    decreases n
  {
    if n == 0 {
      assert frames[..1][1..] == [];
    } else {
      assert frames[..n + 1][1..] == frames[1..][..n] && frames[..n][1..] == frames[1..][..n - 1];
      ModulesSnoc(frames[1..], n - 1);
    }
  }
}
