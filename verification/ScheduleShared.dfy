/** Scripts that share a module: when it is freed once, too early, or twice. */
module ScheduleShared {
  import opened Basics
  import opened Schedule
  import opened ScheduleInvariants
  import opened ScheduleLedger

  // ----- aborts -----

  lemma ModulesCons(frames: seq<Frame>, m: ModuleId)
    requires frames != []
    ensures multiset(Modules(frames))[m] == (if frames[0].mod == Some(m) then 1 else 0) +
             multiset(Modules(frames[1..]))[m]
  {
    assert multiset(Modules(frames)) == multiset(OwnModule(frames[0])) + multiset(Modules(frames[1..]));
  }

  lemma HeldSomewhere(frames: seq<Frame>, m: ModuleId)
    requires multiset(Modules(frames))[m] >= 1
    ensures frames != []
  {
  }

  lemma {:induction false} FindHolder(frames: seq<Frame>, m: ModuleId) returns (i: nat)
    requires multiset(Modules(frames))[m] >= 1
    ensures i < |frames| && frames[i].mod == Some(m)
    decreases |frames|
  {
    hide Modules, OwnModule;
    HeldSomewhere(frames, m);
    ModulesCons(frames, m);
    if frames[0].mod == Some(m) {
      i := 0;
    } else {
      i := FindHolder(frames[1..], m);
      i := i + 1;
    }
  }

  lemma {:induction false} FindHolders(frames: seq<Frame>, m: ModuleId) returns (i: nat, j: nat)
    requires multiset(Modules(frames))[m] >= 2
    ensures i < j < |frames| && frames[i].mod == Some(m) && frames[j].mod == Some(m)
    decreases |frames|
  {
    hide Modules, OwnModule;
    HeldSomewhere(frames, m);
    ModulesCons(frames, m);
    var rest := frames[1..];
    if frames[0].mod == Some(m) {
      var k := FindHolder(rest, m);
      assert frames[k + 1] == rest[k];
      i, j := 0, k + 1;
    } else {
      var k, l := FindHolders(rest, m);
      assert frames[k + 1] == rest[k] && frames[l + 1] == rest[l];
      i, j := k + 1, l + 1;
    }
  }

  lemma HasHolder(frames: seq<Frame>, i: nat, m: ModuleId)
    requires i < |frames| && frames[i].mod == Some(m)
    ensures multiset(Modules(frames))[m] >= 1
  {
    ModulesHas(frames, i);
  }

  lemma {:induction false} TwoHolders(frames: seq<Frame>, i: nat, j: nat, m: ModuleId)
    requires i < j < |frames| && frames[i].mod == Some(m) && frames[j].mod == Some(m)
    ensures multiset(Modules(frames))[m] >= 2
    decreases |frames|
  {
    hide Modules, OwnModule;
    var rest := frames[1..];
    assert rest[j - 1] == frames[j];
    if i == 0 {
      HasHolder(rest, j - 1, m);
    } else {
      assert rest[i - 1] == frames[i];
      TwoHolders(rest, i - 1, j - 1, m);
    }
    ModulesCons(frames, m);
  }

  /**
   Processing an abort frees a module once for every frame that holds it: more than once exactly when two frames do.
   */
  lemma AbortFreesTwiceIff(s: State, m: ModuleId)
    requires Wf(s) && s.abortReq && m !in s.discards
    ensures multiset(ProcessAbort(s).discards)[m] >= 2 <==>
            exists i, j :: 0 <= i < j < DEPTH && s.frames[i].mod == Some(m) && s.frames[j].mod == Some(m)
  {
    assert multiset(ProcessAbort(s).discards) == multiset(s.discards) + multiset(Modules(s.frames));
    if multiset(Modules(s.frames))[m] >= 2 {
      var i, j := FindHolders(s.frames, m);
    }
    if i, j :| 0 <= i < j < DEPTH && s.frames[i].mod == Some(m) && s.frames[j].mod == Some(m) {
      TwoHolders(s.frames, i, j, m);
    }
  }

  // ----- pops -----

  /** Frames that share a module are at least two apart. */
  predicate Apart(s: State) {
    && Wf(s)
    && (forall i :: 0 <= i < DEPTH - 1 && s.frames[i].mod.Some? ==> s.frames[i].mod != s.frames[i + 1].mod)
    && forall i :: s.sp + 1 < i < DEPTH ==> s.frames[i].mod.None?
  }

  predicate NoneDangles(s: State) {
    Wf(s) && forall i :: 0 <= i < DEPTH && s.frames[i].mod.Some? ==> s.frames[i].mod.value !in s.discards
  }

  predicate FreedOnce(s: State) {
    forall i, j :: 0 <= i < j < |s.discards| ==> s.discards[i] != s.discards[j]
  }

  /** The module may be pushed on frame i: it has not been freed, and neither that frame nor one above it uses it. */
  predicate MayPush(s: State, i: nat, m: ModuleId) {
    m !in s.discards && forall j :: i <= j < |s.frames| ==> s.frames[j].mod != Some(m)
  }

  predicate MayPushAll(s: State, runs: seq<Run>)
    requires Wf(s) && |runs| == DEPTH
  {
    forall i :: 0 <= i <= s.sp ==> MayRun(s, i, runs[i])
  }

  predicate MayRun(s: State, i: nat, run: Run) {
    forall c <- run.commands :: c.PushChild? ==> MayPush(s, i, c.mod)
  }

  /** The frame under the one a push would write, if there is one. */
  function Beneath(s: State): nat
    requires Wf(s) && HasRoom(s)
  {
    var slot := PushSlot(s).0; if slot == 0 then 0 else slot - 1
  }

  predicate MayDo(s: State, op: Op)
    requires Enabled(s, op)
  {
    match op
    case DoPush(m, _, _) => MayPush(s, Beneath(s), m)
    case DoFailedPush => true
    case DoTick(_, _, runs) => MayPushAll(s, runs)
    case DoDebugPause(_) => true
  }

  /** Only the frame above the running one can have got a module, one that its script pushes. */
  predicate Gains(s: State, t: State, own: nat, run: Run) {
    && Wf(s) && Wf(t) && own < DEPTH && own <= t.sp && t.discards == s.discards
    && (forall i :: 0 <= i < DEPTH && i != own + 1 ==> t.frames[i].mod == s.frames[i].mod)
    && (own + 1 < DEPTH ==>
          || t.frames[own + 1].mod == s.frames[own + 1].mod
          || exists c <- run.commands :: c.PushChild? && t.frames[own + 1].mod == Some(c.mod))
  }

  lemma AbortSameMods(s: State)
    requires Wf(s)
    ensures var t := RequestAbortAll(s);
            && Wf(t) && t.sp == s.sp && t.discards == s.discards
            && forall i :: 0 <= i < DEPTH ==> t.frames[i].mod == s.frames[i].mod
  {
  }

  lemma PushGains(s: State, m: ModuleId, blockDebug: bool, hasEntry: bool)
    requires Wf(s) && HasRoom(s)
    ensures var t := Push(s, m, blockDebug, hasEntry); var slot := PushSlot(s).0;
            && Wf(t) && t.discards == s.discards && s.sp <= t.sp <= slot <= s.sp + 1 && slot < DEPTH
            && (forall i :: 0 <= i < DEPTH && i != slot ==> t.frames[i].mod == s.frames[i].mod)
            && (t.frames[slot].mod == s.frames[slot].mod || (s.frames[slot].mod.None? && t.frames[slot].mod == Some(m)))
  {
    hide RequestAbortAll;
    var (slot, f) := PushSlot(s);
    AbortSameMods(s.(frames := s.frames[slot := f]));
    AbortSameMods(s.(frames := s.frames[slot := f.(mod := Some(m), blockDebug := blockDebug)]));
  }

  lemma {:induction false} RunGains(s: State, own: nat, run: Run)
    requires Running(s, own) && (own + 1 == DEPTH ==> forall c <- run.commands :: !c.PushChild?)
    ensures Gains(s, RunCommands(s, own, run).1, own, run)
    decreases |run.commands|
  {
    hide Push, ApplySetInput, ApplyAwait, ApplyStep, Gains, RequestAbortAll;
    if run.commands == [] {
      GainsEnds(s, s, own, run, if run.ending == Returns then Finished else Exception);
    } else {
      var c := run.commands[0];
      var rest := run.(commands := run.commands[1..]);
      var (s1, stop) := Apply(s, c);
      if c.PushChild? {
        PushGains(s, c.mod, c.blockDebug, c.hasEntry);
        assert c in run.commands;
        GainsEnds(s, s1, own, run, if stop.Yield? then Suspended else Aborted);
      } else if c.RequestAbort? {
        AbortSameMods(s);
        GainsEnds(s, s1, own, run, Aborted);
      } else {
        ApplyKeepsStack(s, c);
        if stop.Continue? {
          RunGains(s1, own, rest);
          GainsMore(s, s1, own, run, RunCommands(s1, own, rest).1);
        } else {
          GainsEnds(s, s1, own, run, Suspended);
        }
      }
    }
  }

  lemma GainsEnds(s: State, t: State, own: nat, run: Run, c: Ctx)
    requires Wf(s) && Wf(t) && own < DEPTH && own <= t.sp && t.discards == s.discards
    requires forall i :: 0 <= i < DEPTH && i != own + 1 ==> t.frames[i].mod == s.frames[i].mod
    requires own + 1 < DEPTH ==>
               || t.frames[own + 1].mod == s.frames[own + 1].mod
               || exists c <- run.commands :: c.PushChild? && t.frames[own + 1].mod == Some(c.mod)
    ensures Gains(s, SetCtx(t, own, c), own, run)
  {
  }

  lemma GainsMore(s: State, s1: State, own: nat, run: Run, t: State)
    requires run.commands != [] && s.sp == own && SameStack(s, s1) &&
             Gains(s1, t, own, run.(commands := run.commands[1..]))
    ensures Gains(s, t, own, run)
  {
    assert forall d <- run.commands[1..] :: d in run.commands;
  }

  /** Sharing stays harmless: far enough apart, and nothing freed is in use; what is freed is new. */
  predicate Harmless(s: State, t: State) {
    Apart(t) && NoneDangles(t) && (FreedOnce(s) ==> FreedOnce(t))
  }

  lemma GainsHarmless(s: State, t: State, own: nat, run: Run)
    requires Apart(s) && NoneDangles(s) && Gains(s, t, own, run) && MayRun(s, own, run)
    requires s.sp == own && own <= t.sp && forall i :: own < i < DEPTH ==> s.frames[i].mod.None?
    ensures Harmless(s, t)
  {
  }

  lemma PopHarmless(s: State)
    requires Apart(s) && NoneDangles(s) && s.sp > 0 && Top(s).mod.Some?
    requires forall i :: s.sp < i < DEPTH ==> s.frames[i].mod.None?
    ensures Harmless(s, Pop(s))
    ensures forall m :: m in Pop(s).discards ==> m in s.discards || Some(m) == Top(s).mod
  {
    PopIs(s);
    PopFrees(s);
    hide Pop, Unprepare;
    var m := Top(s).mod.value;
    assert s.frames[s.sp - 1].mod.Some? ==> s.frames[s.sp - 1].mod != s.frames[s.sp].mod;
  }

  lemma StillMayPush(s: State, p: State, runs: seq<Run>)
    requires Wf(s) && Wf(p) && s.sp > 0 && p.sp == s.sp - 1 && |runs| == DEPTH && MayPushAll(s, runs)
    requires forall m :: m in p.discards ==> m in s.discards || Some(m) == Top(s).mod
    requires forall i :: 0 <= i < DEPTH ==> p.frames[i].mod.Some? ==> p.frames[i].mod == s.frames[i].mod
    ensures MayPushAll(p, runs)
  {
  }

  lemma HarmlessTrans(s: State, t: State, u: State)
    requires Harmless(s, t) && Harmless(t, u)
    ensures Harmless(s, u)
  {
  }

  /** Only contexts, times and flags have changed. */
  lemma SameModsHarmless(s: State, t: State)
    requires Apart(s) && NoneDangles(s) && Wf(t) && t.sp >= s.sp && t.discards == s.discards
    requires forall i :: 0 <= i < DEPTH ==> t.frames[i].mod == s.frames[i].mod
    ensures Harmless(s, t)
  {
  }

  lemma EmptiedHarmless(s: State, t: State)
    requires Apart(s) && NoneDangles(s) && s.sp == 0 && Top(s).mod.Some?
    requires forall i :: 0 < i < DEPTH ==> s.frames[i].mod.None?
    requires t == DiscardTop(SetTop(s, Unprepare(Top(s))))
    ensures Harmless(s, t)
  {
    DiscardTopIs(SetTop(s, Unprepare(Top(s))));
    assert t.discards == s.discards + [Top(s).mod.value];
    hide DiscardTop, Unprepare;
  }

  lemma {:induction false} CalcCtxHarmless(s: State, delta: nat, env: Env, runs: seq<Run>)
    requires Shape(s) && !s.abortReq && Occupied(s) && WfRuns(runs) && Apart(s) && NoneDangles(s) && MayPushAll(s, runs)
    ensures Harmless(s, CalcCtx(s, delta, env, runs).1)
    decreases s.sp
  {
    hide Admit, RunCommands, Pop, DiscardTop, Unprepare, RequestAbortAll, Apart, NoneDangles, Harmless, Gains,
        MayPushAll, MayRun;
    AdmitKeeps(s, delta, env);
    var (resume, s1) := Admit(s, delta, env);
    SameModsHarmless(s, s1);
    assert Apart(s1) && NoneDangles(s1) by { HarmlessHolds(s, s1); }
    if resume {
      var run := runs[s.sp];
      RunKeepsStack(s1, s.sp, run);
      RunGains(s1, s.sp, run);
      MayRunNow(s, s1, runs);
      var (outcome, s2) := RunCommands(s1, s.sp, run);
      RunEndsAbove(s1, s.sp);
      GainsAbove(s1, s2, s.sp, run);
      GainsHarmless(s1, s2, s.sp, run);
      HarmlessTrans(s, s1, s2);
      HarmlessHolds(s, s2);
      if outcome.Failed? {
        AbortSameMods(s2);
        SameModsHarmless(s2, RequestAbortAll(s2));
        HarmlessTrans(s, s2, RequestAbortAll(s2));
      } else if outcome.Completed? {
        FinishedTop(s1, s.sp, s2);
        if s.sp == 0 {
          var t := DiscardTop(SetTop(s2, Unprepare(Top(s2))));
          EmptiedHarmless(s2, t);
          HarmlessTrans(s, s2, t);
        } else {
          var p := Pop(s2);
          PopLands(s1, s.sp, s2);
          PopHarmless(s2);
          PopOnlyDrops(s2);
          GainsNothing(s1, s2, s.sp, run);
          HarmlessTrans(s, s2, p);
          HarmlessHolds(s, p);
          StillMayPush(s, p, runs);
          CalcCtxHarmless(p, 0, env, runs);
          HarmlessTrans(s, p, CalcCtx(p, 0, env, runs).1);
        }
      }
    }
  }

  lemma GainsAbove(s: State, t: State, own: nat, run: Run)
    requires Gains(s, t, own, run)
    ensures Wf(t) && own <= t.sp
  {
  }

  lemma HarmlessHolds(s: State, t: State)
    requires Harmless(s, t)
    ensures Apart(t) && NoneDangles(t)
  {
  }

  lemma MayRunNow(s: State, s1: State, runs: seq<Run>)
    requires Wf(s) && Wf(s1) && s1.discards == s.discards && |runs| == DEPTH && MayPushAll(s, runs)
    requires forall i :: 0 <= i < DEPTH ==> s1.frames[i].mod == s.frames[i].mod
    ensures MayRun(s1, s.sp, runs[s.sp])
  {
  }

  lemma RunEndsAbove(s: State, own: nat)
    requires Running(s, own)
    ensures forall i :: own < i < DEPTH ==> s.frames[i].mod.None?
  {
  }

  lemma FinishedTop(s: State, own: nat, t: State)
    requires Running(s, own) && RunPost(s, own, Completed, t)
    ensures t.sp == own && Top(t).mod.Some? && forall i :: own < i < DEPTH ==> t.frames[i].mod.None?
  {
  }

  lemma PopOnlyDrops(s: State)
    requires Wf(s) && s.sp > 0
    ensures forall i :: 0 <= i < DEPTH ==> Pop(s).frames[i].mod.Some? ==> Pop(s).frames[i].mod == s.frames[i].mod
  {
    PopIs(s);
    hide Pop;
  }

  /** A script that finished has pushed nothing. */
  lemma GainsNothing(s: State, t: State, own: nat, run: Run)
    requires Gains(s, t, own, run) && forall i :: own < i < DEPTH ==> t.frames[i].mod.None? && s.frames[i].mod.None?
    ensures forall i :: 0 <= i < DEPTH ==> t.frames[i].mod == s.frames[i].mod
  {
  }

  lemma PushHarmless(s: State, m: ModuleId, blockDebug: bool, hasEntry: bool)
    requires Apart(s) && NoneDangles(s) && HasRoom(s) && MayPush(s, Beneath(s), m)
    ensures Harmless(s, Push(s, m, blockDebug, hasEntry))
  {
    PushGains(s, m, blockDebug, hasEntry);
    hide Push, PushSlot, HasRoom;
    SlotHarmless(s, Push(s, m, blockDebug, hasEntry), PushSlot(s).0, m);
  }

  lemma SlotHarmless(s: State, t: State, slot: nat, m: ModuleId)
    requires Apart(s) && NoneDangles(s) && Wf(t) && t.discards == s.discards
    requires s.sp <= t.sp <= slot <= s.sp + 1 && slot < DEPTH
    requires forall i :: 0 <= i < DEPTH && i != slot ==> t.frames[i].mod == s.frames[i].mod
    requires t.frames[slot].mod == s.frames[slot].mod || t.frames[slot].mod == Some(m)
    requires MayPush(s, if slot == 0 then 0 else slot - 1, m)
    ensures Harmless(s, t)
  {
  }

  lemma ClearedHarmless(s: State, delta: nat, env: Env, runs: seq<Run>)
    requires Sound(s) && s.abortReq && WfRuns(runs)
    ensures Apart(Tick(s, delta, env, runs)) && NoneDangles(Tick(s, delta, env, runs))
  {
    ProcessAbortClears(s);
  }

  lemma InactiveHarmless(s: State, t: State)
    requires Harmless(s, t)
    ensures Harmless(s, t.(active := false))
  {
  }

  lemma StepHarmless(s: State, op: Op)
    requires Sound(s) && Apart(s) && NoneDangles(s) && Enabled(s, op) && MayDo(s, op)
    ensures Apart(Step(s, op)) && NoneDangles(Step(s, op))
    ensures (op.DoTick? && s.abortReq) || Harmless(s, Step(s, op))
  {
    match op
    case DoPush(m, b, e) => PushHarmless(s, m, b, e);
    case DoFailedPush =>
      AbortSameMods(s);
      SameModsHarmless(s, Step(s, op));
    case DoTick(d, env, runs) => TickHarmless(s, d, env, runs);
    case DoDebugPause(_) => SameModsHarmless(s, Step(s, op));
  }

  lemma TickHarmless(s: State, delta: nat, env: Env, runs: seq<Run>)
    requires Sound(s) && Apart(s) && NoneDangles(s) && WfRuns(runs) && MayPushAll(s, runs)
    ensures Apart(Tick(s, delta, env, runs)) && NoneDangles(Tick(s, delta, env, runs))
    ensures s.abortReq || Harmless(s, Tick(s, delta, env, runs))
  {
    hide CalcCtx, Harmless, Apart, NoneDangles, MayPushAll, RequestAbortAll;
    if s.abortReq {
      ClearedHarmless(s, delta, env, runs);
    } else {
      if s.active || s.pending {
        CalcCtxHarmless(s, delta, env, runs);
        InactiveHarmless(s, CalcCtx(s, delta, env, runs).1);
      } else {
        SameModsHarmless(s, s);
      }
      HarmlessHolds(s, Tick(s, delta, env, runs));
    }
  }

  predicate MayDoAll(s: State, ops: seq<Op>)
    requires Fits(s, ops)
    decreases |ops|
  {
    ops == [] || (MayDo(s, ops[0]) && MayDoAll(Step(s, ops[0]), ops[1..]))
  }

  predicate NeverAborts(s: State, ops: seq<Op>)
    requires Fits(s, ops)
    decreases |ops|
  {
    !s.abortReq && (ops == [] || NeverAborts(Step(s, ops[0]), ops[1..]))
  }

  /**
   Over any run in which frames that share a module are at least two apart, no frame ever refers to a freed module;
   and if nothing aborts, so that frames are emptied by pops alone, none is freed twice.
   */
  lemma {:induction false} SharingApartIsSafe(s: State, ops: seq<Op>)
    requires Sound(s) && Apart(s) && NoneDangles(s) && Fits(s, ops) && MayDoAll(s, ops)
    ensures NoneDangles(RunOps(s, ops))
    ensures FreedOnce(s) && NeverAborts(s, ops) ==> FreedOnce(RunOps(s, ops))
    decreases |ops|
  {
    hide Step, Sound, Apart, NoneDangles, MayDo, FreedOnce;
    if ops != [] {
      var t := Step(s, ops[0]);
      StepHarmless(s, ops[0]);
      StepKeepsSound(s, ops[0]);
      SharingApartIsSafe(t, ops[1..]);
    }
  }

  lemma StartIsApart()
    ensures Sound(INIT) && Apart(INIT) && NoneDangles(INIT) && FreedOnce(INIT)
  {
  }

  // ----- the pop that frees too early -----

  /** The module is freed, and a script on the stack still uses it. */
  predicate Dangles(s: State, m: ModuleId) {
    Wf(s) && m in s.discards && exists i :: 0 <= i <= s.sp && s.frames[i].mod == Some(m)
  }

  const SAME_TWICE: seq<Op> := [DoPush(1, true, true), DoPush(1, true, true)]

  lemma SameTwice()
    ensures Fits(INIT, SAME_TWICE)
    ensures var s := RunOps(INIT, SAME_TWICE);
            && Healthy(s) && s.sp == 1 && s.pending && !s.abortReq && !s.debugPause && !s.frameAdvance
            && s.discards == [] && s.frames[0].mod == Some(1) && s.frames[1].mod == Some(1)
            && s.frames[0].ttl == 0 && s.frames[0].blockLoading
  {
    var op := DoPush(1, true, true);
    assert Enabled(INIT, op);
    var s1 := Step(INIT, op);
    StartIsApart();
    StepKeepsSound(INIT, op);
    assert s1.sp == 0 && Occupied(s1) && !s1.abortReq && Enabled(s1, op);
    var s2 := Step(s1, op);
    StepKeepsSound(s1, op);
    assert SAME_TWICE[1..] == [op] && [op][1..] == [];
    assert Fits(s2, []) && RunOps(s2, []) == s2;
    assert Fits(s1, [op]) && RunOps(s1, [op]) == s2;
  }

  /**
   Two pushes of one script, the second of which returns at once while the game loads: the first is left without its
   module.
   */
  lemma DanglingIsReachable(runs: seq<Run>, delta: nat)
    requires WfRuns(runs) && runs[1] == Run([], Returns)
    ensures Fits(INIT, SAME_TWICE) && Dangles(Tick(RunOps(INIT, SAME_TWICE), delta, Env(true, {}, {}), runs), 1)
  {
    SameTwice();
    var env := Env(true, {}, {});
    var s := RunOps(INIT, SAME_TWICE);
    hide RunOps, Fits, Admit, Pop, DiscardTop, RequestAbortAll, Unprepare;
    AdmitKeeps(s, delta, env);
    PendingAdmits(s, delta, env);
    var s1 := Admit(s, delta, env).1;
    var s2 := SetCtx(s1, 1, Finished);
    assert RunCommands(s1, 1, runs[1]) == (Completed, s2);
    RunKeepsStack(s1, 1, runs[1]);
    PopLands(s1, 1, s2);
    PopFrees(s2);
    PopIs(s2);
    var p := Pop(s2);
    assert p.discards == [1] && p.frames[0].mod == Some(1);
    LoadingBlocks(p, env);
    AdmitKeeps(p, 0, env);
    assert CalcCtx(p, 0, env, runs) == (false, Admit(p, 0, env).1);
    assert CalcCtx(s, delta, env, runs) == CalcCtx(p, 0, env, runs);
    var t := Tick(s, delta, env, runs);
    assert t.discards == [1] && t.frames[0].mod == Some(1);
  }

  lemma PendingAdmits(s: State, delta: nat, env: Env)
    requires Wf(s) && s.pending && !s.frameAdvance && s.sp == 1
    ensures Admit(s, delta, env).0 && Admit(s, delta, env).1.frames[0].blockLoading == s.frames[0].blockLoading
  {
  }

  lemma LoadingBlocks(s: State, env: Env)
    requires Wf(s) && !s.pending && env.loadingPause && Top(s).blockLoading
    ensures !Admit(s, 0, env).0
  {
  }
}
