/** Where script modules go: stored in a frame by a push, discarded by a pop or an abort. */
module ScheduleLedger {
  import opened Basics
  import opened Schedule
  import opened ScheduleInvariants

  /** Every module a frame holds or a discard has freed, with repetitions. */
  function Ledger(s: State): multiset<ModuleId> {
    multiset(Modules(s.frames)) + multiset(s.discards)
  }

  lemma SumBeside<T>(a: multiset<T>, b: multiset<T>, c: multiset<T>, d: multiset<T>, e: multiset<T>)
    requires b + c == d + e
    ensures a + b + c == a + d + e
  {
    assert a + b + c == a + (b + c);
    assert a + d + e == a + (d + e);
  }

  lemma CancelBoth<T>(a: multiset<T>, x: multiset<T>, b: multiset<T>, gain: multiset<T>)
    requires a + x == b + (x + gain)
    ensures a == b + gain
  {
    forall m ensures a[m] == (b + gain)[m] { assert (a + x)[m] == (b + (x + gain))[m]; }
  }

  lemma {:induction false} ModulesUpdate(frames: seq<Frame>, i: nat, f: Frame)
    requires i < |frames|
    ensures multiset(Modules(frames[i := f])) + multiset(OwnModule(frames[i])) == multiset(Modules(frames)) +
             multiset(OwnModule(f))
    decreases |frames|
  {
    var g := frames[i := f];
    assert multiset(Modules(frames)) == multiset(OwnModule(frames[0])) + multiset(Modules(frames[1..]));
    assert multiset(Modules(g)) == multiset(OwnModule(g[0])) + multiset(Modules(g[1..]));
    if i == 0 {
      assert g[1..] == frames[1..];
    } else {
      assert g[1..] == frames[1..][i - 1 := f];
      ModulesUpdate(frames[1..], i - 1, f);
      SumBeside(multiset(OwnModule(frames[0])), multiset(Modules(g[1..])), multiset(OwnModule(frames[i])),
                multiset(Modules(frames[1..])), multiset(OwnModule(f)));
    }
  }

  lemma {:induction false} ModulesSame(a: seq<Frame>, b: seq<Frame>)
    requires |a| == |b| && forall i :: 0 <= i < |a| ==> a[i].mod == b[i].mod
    ensures Modules(a) == Modules(b)
    decreases |a|
  {
    if a != [] { ModulesSame(a[1..], b[1..]); }
  }

  lemma {:induction false} ModulesHas(frames: seq<Frame>, i: nat)
    requires i < |frames| && frames[i].mod.Some?
    ensures frames[i].mod.value in multiset(Modules(frames))
    decreases |frames|
  {
    if i > 0 { ModulesHas(frames[1..], i - 1); }
  }

  lemma {:induction false} ModulesNone(frames: seq<Frame>)
    requires forall f <- frames :: f.mod.None?
    ensures Modules(frames) == []
    decreases |frames|
  {
    if frames != [] { ModulesNone(frames[1..]); }
  }

  /** No module is held twice, discarded twice, or both. */
  ghost predicate Once(s: State) {
    Wf(s) && forall m :: Ledger(s)[m] <= 1
  }

  lemma AbortKeepsLedger(s: State)
    requires Wf(s)
    ensures Ledger(RequestAbortAll(s)) == Ledger(s)
  {
    ModulesSame(s.frames, RequestAbortAll(s).frames);
  }

  /** Processing an abort discards each stored module, in stack order, and keeps none. */
  lemma ProcessAbortKeepsLedger(s: State)
    requires Wf(s)
    ensures Ledger(ProcessAbort(s)) == Ledger(s)
    ensures s.abortReq ==> multiset(ProcessAbort(s).discards) == Ledger(s)
  {
    if s.abortReq { ModulesNone(ProcessAbort(s).frames); }
  }

  /** The modules a push adds: its own, unless the slot it would use is taken. */
  function PushAdds(s: State, m: ModuleId): multiset<ModuleId>
    requires Wf(s) && HasRoom(s)
  {
    if PushSlot(s).1.mod.Some? then multiset{} else multiset{m}
  }

  lemma PushLedger(s: State, m: ModuleId, blockDebug: bool, hasEntry: bool)
    requires Wf(s) && HasRoom(s)
    ensures Ledger(Push(s, m, blockDebug, hasEntry)) == Ledger(s) + PushAdds(s, m)
  {
    var (slot, f) := PushSlot(s);
    var f1 := f.(mod := Some(m), blockDebug := blockDebug);
    if f.mod.Some? {
      SlotLedger(s, slot, f, multiset{});
      AbortKeepsLedger(s.(frames := s.frames[slot := f]));
    } else if !hasEntry {
      SlotLedger(s, slot, f1, multiset{m});
      AbortKeepsLedger(s.(frames := s.frames[slot := f1]));
    } else {
      SlotLedger(s, slot, Prepare(f1), multiset{m});
    }
  }

  lemma SlotLedger(s: State, slot: nat, f: Frame, gain: multiset<ModuleId>)
    requires Wf(s) && slot < DEPTH && multiset(OwnModule(f)) == multiset(OwnModule(s.frames[slot])) + gain
    ensures Ledger(s.(frames := s.frames[slot := f])) == Ledger(s) + gain
  {
    var t := s.(frames := s.frames[slot := f]);
    ModulesUpdate(s.frames, slot, f);
    CancelBoth(multiset(Modules(t.frames)), multiset(OwnModule(s.frames[slot])), multiset(Modules(s.frames)), gain);
  }

  lemma TakeModule(s: State, m: ModuleId)
    requires Wf(s) && Top(s).mod == Some(m)
    ensures multiset(Modules(s.frames)) == multiset(Modules(SetTop(s, Top(s).(mod := None)).frames)) + multiset{m}
  {
    ModulesUpdate(s.frames, s.sp, Top(s).(mod := None));
    assert OwnModule(Top(s)) == [m] && multiset([m]) == multiset{m};
    assert OwnModule(Top(s).(mod := None)) == [];
  }

  lemma SharedMeansTwice(s: State, m: ModuleId)
    requires Wf(s) && Top(s).mod == Some(m) && SharedBelow(s, m)
    ensures Ledger(s)[m] >= 2
  {
    var s1 := SetTop(s, Top(s).(mod := None));
    var i :| 0 <= i < s.sp - 1 && s.frames[i].mod == Some(m);
    TakeModule(s, m);
    assert s1.frames[i] == s.frames[i];
    ModulesHas(s1.frames, i);
  }

  /** While modules are distinct, a pop never finds its module in use and so always discards it. */
  lemma DiscardKeepsLedger(s: State)
    requires Once(s)
    ensures Ledger(DiscardTop(s)) == Ledger(s)
  {
    if Top(s).mod.Some? {
      var m := Top(s).mod.value;
      if SharedBelow(s, m) { SharedMeansTwice(s, m); assert false; }
      var s1 := SetTop(s, Top(s).(mod := None));
      assert forall i :: 0 <= i < s.sp ==> s1.frames[i] == s.frames[i];
      TakeModule(s, m);
      assert DiscardTop(s) == s1.(discards := s1.discards + [m]);
    }
  }

  lemma SetTopLedger(s: State, f: Frame)
    requires Wf(s) && f.mod == Top(s).mod
    ensures Ledger(SetTop(s, f)) == Ledger(s)
  {
    ModulesSame(s.frames, SetTop(s, f).frames);
  }

  lemma PopKeepsLedger(s: State)
    requires Once(s) && s.sp > 0
    ensures Ledger(Pop(s)) == Ledger(s)
  {
    hide Pop, DiscardTop;
    var s0 := SetTop(s, Unprepare(Top(s)));
    SetTopLedger(s, Unprepare(Top(s)));
    DiscardKeepsLedger(s0);
    PopModules(s);
    ModulesSame(DiscardTop(s0).frames, Pop(s).frames);
  }

  lemma PopModules(s: State)
    requires Wf(s) && s.sp > 0
    ensures var d := DiscardTop(SetTop(s, Unprepare(Top(s))));
            && Pop(s).discards == d.discards && |Pop(s).frames| == |d.frames|
            && forall i :: 0 <= i < |d.frames| ==> Pop(s).frames[i].mod == d.frames[i].mod
  {
    DiscardTopIs(SetTop(s, Unprepare(Top(s))));
    hide SharedBelow, DiscardTop, Unprepare;
  }

  lemma ApplyLedger(s: State, c: Command)
    requires Wf(s) && !c.PushChild?
    ensures Ledger(Apply(s, c).0) == Ledger(s)
  {
    if c.RequestAbort? {
      AbortKeepsLedger(s);
    } else {
      ApplyKeepsStack(s, c);
      ModulesSame(s.frames, Apply(s, c).0.frames);
    }
  }

  lemma SetCtxLedger(s: State, i: nat, c: Ctx)
    requires i < |s.frames|
    ensures Ledger(SetCtx(s, i, c)) == Ledger(s)
  {
    ModulesSame(s.frames, SetCtx(s, i, c).frames);
  }

  /** The ledger is unchanged, or has gained one module that the script asked to push. */
  ghost predicate Grows(a: State, b: State, run: Run) {
    Ledger(b) == Ledger(a) || exists c <- run.commands :: c.PushChild? && Ledger(b) == Ledger(a) + multiset{c.mod}
  }

  lemma {:induction false} RunLedger(s: State, own: nat, run: Run)
    requires Wf(s) && s.sp == own && (own + 1 == DEPTH ==> forall c <- run.commands :: !c.PushChild?)
    ensures var r := RunCommands(s, own, run);
            Grows(s, r.1, run) && (r.0.Completed? || r.0.Failed? ==> Ledger(r.1) == Ledger(s))
    decreases |run.commands|
  {
    hide Ledger, Push;
    if run.commands == [] {
      SetCtxLedger(s, own, if run.ending == Returns then Finished else Exception);
    } else {
      var c := run.commands[0];
      var rest := run.(commands := run.commands[1..]);
      var (s1, stop) := Apply(s, c);
      if c.PushChild? { PushLedger(s, c.mod, c.blockDebug, c.hasEntry); } else { ApplyLedger(s, c); }
      match stop
      case Continue => RunLedger(s1, own, rest);
      case Yield => SetCtxLedger(s1, own, Suspended);
      case Cancel => SetCtxLedger(s1, own, Aborted);
    }
  }

  // ----- whole runs -----

  /** Modules the step could push, by itself or through a script, are new to the ledger. */
  predicate FreshRuns(s: State, runs: seq<Run>) {
    forall run <- runs, c <- run.commands :: c.PushChild? ==> c.mod !in Ledger(s)
  }

  predicate FreshFor(s: State, op: Op) {
    match op
    case DoPush(m, _, _) => m !in Ledger(s)
    case DoFailedPush => true
    case DoTick(_, _, runs) => FreshRuns(s, runs)
    case DoDebugPause(_) => true
  }

  /** The next state still holds or has discarded everything, and nothing twice. */
  ghost predicate Accounts(s: State, t: State) {
    Once(t) && Ledger(s) <= Ledger(t)
  }

  lemma GrowsAccounts(s: State, t: State, run: Run)
    requires Once(s) && Wf(t) && Grows(s, t, run) && forall c <- run.commands :: c.PushChild? ==> c.mod !in Ledger(s)
    ensures Accounts(s, t)
  {
  }

  lemma AdmitLedger(s: State, delta: nat, env: Env)
    requires Shape(s) && !s.abortReq && Occupied(s)
    ensures Ledger(Admit(s, delta, env).1) == Ledger(s)
  {
    AdmitKeeps(s, delta, env);
    ModulesSame(s.frames, Admit(s, delta, env).1.frames);
  }

  lemma {:induction false} CalcCtxAccounts(s: State, delta: nat, env: Env, runs: seq<Run>)
    requires Shape(s) && !s.abortReq && Occupied(s) && WfRuns(runs) && Once(s) && FreshRuns(s, runs)
    ensures Accounts(s, CalcCtx(s, delta, env, runs).1)
    decreases s.sp
  {
    hide Admit, RunCommands, Pop, Ledger, DiscardTop, RequestAbortAll;
    AdmitKeeps(s, delta, env);
    AdmitLedger(s, delta, env);
    var (resume, s1) := Admit(s, delta, env);
    if resume {
      var run := runs[s.sp];
      RunKeepsStack(s1, s.sp, run);
      RunLedger(s1, s.sp, run);
      var (outcome, s2) := RunCommands(s1, s.sp, run);
      GrowsAccounts(s1, s2, run);
      match outcome
      case Yielded =>
      case Cancelled =>
      case Failed => AbortKeepsLedger(s2);
      case Completed =>
        if s.sp == 0 {
          SetTopLedger(s2, Unprepare(Top(s2)));
          DiscardKeepsLedger(SetTop(s2, Unprepare(Top(s2))));
        } else {
          CompletedBelow(s1, s.sp, s2);
          PopKeeps(s2, Pop(s2));
          PopKeepsLedger(s2);
          CalcCtxAccounts(Pop(s2), 0, env, runs);
        }
    }
  }

  lemma SameAccounts(s: State, t: State)
    requires Once(s) && Wf(t) && Ledger(t) == Ledger(s)
    ensures Accounts(s, t)
  {
  }

  lemma PushAccounts(s: State, m: ModuleId, blockDebug: bool, hasEntry: bool)
    requires Wf(s) && HasRoom(s) && Once(s) && m !in Ledger(s)
    ensures Accounts(s, Push(s, m, blockDebug, hasEntry))
  {
    hide Push, Ledger;
    PushLedger(s, m, blockDebug, hasEntry);
  }

  lemma TickAccounts(s: State, delta: nat, env: Env, runs: seq<Run>)
    requires Sound(s) && WfRuns(runs) && Once(s) && FreshRuns(s, runs)
    ensures Accounts(s, Tick(s, delta, env, runs))
  {
    hide CalcCtx, Ledger, Once, Accounts, RequestAbortAll, FreshRuns, Modules;
    if s.abortReq {
      TickAfterAbort(s, delta, env, runs);
      SameAccounts(s, Tick(s, delta, env, runs));
    } else if s.active || s.pending {
      CalcCtxAccounts(s, delta, env, runs);
      var (done, t) := CalcCtx(s, delta, env, runs);
      AccountsInactive(s, t);
    } else {
      SameAccounts(s, s);
    }
  }

  lemma AccountsInactive(s: State, t: State)
    requires Accounts(s, t)
    ensures Accounts(s, t.(active := false))
  {
  }

  lemma StepAccounts(s: State, op: Op)
    requires Sound(s) && Enabled(s, op) && Once(s) && FreshFor(s, op)
    ensures Accounts(s, Step(s, op))
  {
    hide Push, Tick, Ledger, Accounts;
    match op
    case DoPush(m, b, e) => PushAccounts(s, m, b, e);
    case DoFailedPush =>
      AbortKeepsLedger(s);
      SameAccounts(s, Step(s, op));
    case DoTick(d, env, runs) => TickAccounts(s, d, env, runs);
    case DoDebugPause(_) => SameFrames(s, Step(s, op));
  }

  lemma SameFrames(s: State, t: State)
    requires Once(s) && Wf(t) && t.frames == s.frames && t.discards == s.discards
    ensures Accounts(s, t)
  {
  }

  lemma TickAfterAbort(s: State, delta: nat, env: Env, runs: seq<Run>)
    requires Sound(s) && s.abortReq && WfRuns(runs)
    ensures Ledger(Tick(s, delta, env, runs)) == Ledger(s)
  {
    ProcessAbortClears(s);
    ProcessAbortKeepsLedger(s);
    AbortKeepsLedger(ProcessAbort(s));
  }

  predicate FreshAlong(s: State, ops: seq<Op>)
    requires Fits(s, ops)
    decreases |ops|
  {
    ops == [] || (FreshFor(s, ops[0]) && FreshAlong(Step(s, ops[0]), ops[1..]))
  }

  /**
   Over any run that pushes each module once, every module is at the end either in a frame or
   discarded exactly once, and no frame refers to a discarded module.
   */
  lemma {:induction false} EveryModuleOnce(s: State, ops: seq<Op>)
    requires Sound(s) && Once(s) && Fits(s, ops) && FreshAlong(s, ops)
    ensures var t := RunOps(s, ops);
            && Accounts(s, t)
            && forall i :: 0 <= i < DEPTH && t.frames[i].mod.Some? ==> t.frames[i].mod.value !in t.discards
    decreases |ops|
  {
    if ops == [] {
      forall i | 0 <= i < DEPTH && s.frames[i].mod.Some? ensures s.frames[i].mod.value !in s.discards {
        ModulesHas(s.frames, i);
        assert Ledger(s)[s.frames[i].mod.value] <= 1;
      }
    } else {
      StepKeepsSound(s, ops[0]);
      StepAccounts(s, ops[0]);
      EveryModuleOnce(Step(s, ops[0]), ops[1..]);
    }
  }

  /**
   When scripts share a module, popping one frees it under another exactly when the parent uses it
   and no frame further down does: the scan that looks for other users stops short of the parent.
   */
  lemma PopDanglesIff(s: State)
    requires Wf(s) && s.sp > 0 && Top(s).mod.Some?
    ensures var m := Top(s).mod.value; var t := Pop(s);
            (|t.discards| > |s.discards| && exists i :: 0 <= i < s.sp && t.frames[i].mod == Some(m)) <==>
            (s.frames[s.sp - 1].mod == Some(m) && forall i :: 0 <= i < s.sp - 1 ==> s.frames[i].mod != Some(m))
  {
    var m := Top(s).mod.value;
    PopMods(s);
    if s.frames[s.sp - 1].mod == Some(m) { assert Pop(s).frames[s.sp - 1].mod == Some(m); }
  }

  lemma PopMods(s: State)
    requires Wf(s) && s.sp > 0 && Top(s).mod.Some?
    ensures var t := Pop(s);
            && (forall i :: 0 <= i < s.sp ==> t.frames[i].mod == s.frames[i].mod)
            && (|t.discards| > |s.discards| <==> !exists i :: 0 <= i < s.sp - 1 && s.frames[i].mod == Top(s).mod)
  {
    PopIs(s);
    PopFrees(s);
    hide Pop, Unprepare;
  }

  /** A pop frees the module of the finished script unless the scan finds another user. */
  lemma PopFrees(s: State)
    requires Wf(s) && s.sp > 0 && Top(s).mod.Some?
    ensures var m := Top(s).mod.value;
            Pop(s).discards == if SharedBelow(s, m) then s.discards else s.discards + [m]
  {
    var m := Top(s).mod.value;
    var s1 := SetTop(SetTop(s, Unprepare(Top(s))), Unprepare(Top(s)).(mod := None));
    ScanSame(s, s1, m);
    hide SharedBelow;
    assert Top(SetTop(s, Unprepare(Top(s)))).mod == Some(m);
    assert Pop(s).discards == DiscardTop(SetTop(s, Unprepare(Top(s)))).discards;
    hide Pop;
  }

  lemma ScanSame(s: State, t: State, m: ModuleId)
    requires Wf(s) && Wf(t) && s.sp == t.sp && forall i :: 0 <= i < s.sp ==> t.frames[i] == s.frames[i]
    ensures SharedBelow(s, m) == SharedBelow(t, m)
  {
  }
}
