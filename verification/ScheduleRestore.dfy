/** An interrupted script over whole runs: whatever goes on above it, it gets back what it held. */
module ScheduleRestore {
  import opened Schedule
  import opened ScheduleInvariants
  import opened ScheduleTime

  /** While the operations last nothing aborts, and only frames above the n-th are resumed. */
  predicate StaysAbove(s: State, ops: seq<Op>, n: nat)
    requires Fits(s, ops)
    decreases |ops|
  {
    && n < s.sp && !s.abortReq
    && (ops == [] ||
        var t := Step(s, ops[0]); (ops[0].DoTick? ==> n < Resumed(t)) && StaysAbove(t, ops[1..], n))
  }

  /** The frame has just been interrupted: the script on top of it waits for its first run. */
  predicate JustInterrupted(s: State, n: nat) {
    s.pending && s.sp == n + 1
  }

  /** What can be left of a frame's time: only the tick that first runs the interrupting script may take from it. */
  function TimesLeft(s: State, ops: seq<Op>, n: nat): set<nat>
    requires n < |s.frames|
  {
    var ttl := s.frames[n].ttl;
    if !JustInterrupted(s, n) then {ttl} else {ttl} + set d | d in FirstTick(ops) :: Deduct(ttl, d)
  }

  /** The length of the first tick, if there is one. */
  function FirstTick(ops: seq<Op>): set<nat> {
    if ops == [] then {} else if ops[0].DoTick? then {ops[0].delta} else FirstTick(ops[1..])
  }

  lemma TickAbove(s: State, delta: nat, env: Env, runs: seq<Run>, n: nat)
    requires Healthy(s) && s.elapsed < U32 && WfRuns(runs) && n < s.sp
    ensures var t := Tick(s, delta, env, runs);
            !t.abortReq && n < Resumed(t) ==>
              && Healthy(t) && t.elapsed < U32 && !JustInterrupted(t, n)
              && t.frames[n] == s.frames[n].(ttl := t.frames[n].ttl)
              && t.frames[n].ttl in {s.frames[n].ttl,
                                     if JustInterrupted(s, n) then Deduct(s.frames[n].ttl, delta) else s.frames[n].ttl}
  {
    hide Tick, Admit;
    assert Calm(s);
    TickKeepsSound(s, delta, env, runs);
    if s.active || s.pending {
      TickChargesOnce(s, delta, env, runs);
      AdmitCharges(s, delta, env);
    } else {
      IdleTick(s, delta, env, runs);
    }
  }

  lemma IdleTick(s: State, delta: nat, env: Env, runs: seq<Run>)
    requires Wf(s) && !s.abortReq && !s.active && !s.pending && WfRuns(runs)
    ensures Tick(s, delta, env, runs) == s
  {
  }

  lemma StepAbove(s: State, op: Op, n: nat)
    requires Healthy(s) && s.elapsed < U32 && Enabled(s, op) && n < s.sp
    ensures var t := Step(s, op);
            !t.abortReq && n < t.sp && (op.DoTick? ==> n < Resumed(t)) ==>
              && Healthy(t) && t.elapsed < U32
              && (JustInterrupted(t, n) ==> JustInterrupted(s, n) && !op.DoTick?)
              && t.frames[n] == s.frames[n].(ttl := t.frames[n].ttl)
              && t.frames[n].ttl in TimesLeft(s, [op], n)
              && (!op.DoTick? ==> t.frames[n].ttl == s.frames[n].ttl)
  {
    hide Tick, Healthy;
    assert Calm(s) by { HealthyIsCalm(s); }
    StepKeepsSound(s, op);
    match op
    case DoPush(m, b, e) => PushAbove(s, m, b, e, n);
    case DoFailedPush =>
    case DoTick(d, env, runs) => TickAbove(s, d, env, runs, n);
    case DoDebugPause(_) =>
  }

  lemma HealthyIsCalm(s: State)
    requires Healthy(s)
    ensures Calm(s)
  {
  }

  lemma PushAbove(s: State, m: ModuleId, blockDebug: bool, hasEntry: bool, n: nat)
    requires Healthy(s) && HasRoom(s) && n < s.sp
    ensures var t := Push(s, m, blockDebug, hasEntry);
            !t.abortReq ==> t.frames[n] == s.frames[n] && t.elapsed == s.elapsed && !JustInterrupted(t, n)
  {
  }

  /**
   Over any run during which the stack stays above it, an interrupted script's frame keeps everything it held, and
   its remaining time too, apart from what the tick took in which the interrupting script first ran.
   */
  lemma {:induction false} InterruptedKeeps(s: State, ops: seq<Op>, n: nat)
    requires Healthy(s) && s.elapsed < U32 && Fits(s, ops) && StaysAbove(s, ops, n)
    ensures var t := RunOps(s, ops);
            && Healthy(t) && t.elapsed < U32 && n < t.sp
            && t.frames[n] == s.frames[n].(ttl := t.frames[n].ttl)
            && t.frames[n].ttl in TimesLeft(s, ops, n)
            && (JustInterrupted(t, n) ==>
                  JustInterrupted(s, n) && FirstTick(ops) == {} && t.frames[n].ttl == s.frames[n].ttl)
    decreases |ops|
  {
    hide Healthy, Step;
    if ops != [] {
      var t := Step(s, ops[0]);
      StepAbove(s, ops[0], n);
      assert !t.abortReq && n < t.sp;
      InterruptedKeeps(t, ops[1..], n);
    }
  }

  /** When the last script above it finishes, an interrupted script with time left is back with exactly what it held. */
  lemma RestoredOnReturn(s: State, ops: seq<Op>, last: Op, n: nat)
    requires Healthy(s) && s.elapsed < U32 && Fits(s, ops) && StaysAbove(s, ops, n)
    requires last.DoTick? && WfRuns(last.runs)
    requires Admit(RunOps(s, ops), last.delta, last.env).1.frames[n].ttl > 0
    ensures var t := RunOps(s, ops); var u := Step(t, last);
            u.sp == n && !u.abortReq && !u.pending && (t.active || t.pending) ==>
              Top(u).held == s.frames[n].held && Top(u).ttl in TimesLeft(s, ops + [last], n)
  {
    hide Tick, Admit, Healthy;
    var t := RunOps(s, ops);
    InterruptedKeeps(s, ops, n);
    if t.active || t.pending {
      TickChargesOnce(t, last.delta, last.env, last.runs);
      FirstTickOf(ops, last);
    }
  }

  lemma {:induction false} FirstTickOf(ops: seq<Op>, last: Op)
    requires last.DoTick?
    ensures FirstTick(ops + [last]) == if FirstTick(ops) == {} then {last.delta} else FirstTick(ops)
    decreases |ops|
  {
    if ops == [] {
      assert ops + [last] == [last];
    } else {
      assert (ops + [last])[1..] == ops[1..] + [last];
      FirstTickOf(ops[1..], last);
    }
  }
}
