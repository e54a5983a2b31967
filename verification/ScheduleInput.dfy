/** What the calls of a script write, one by one and over a whole run, and which input a tick leaves to the game. */
module ScheduleInput {
  import opened Basics
  import opened Schedule
  import opened ScheduleInvariants
  import opened ScheduleTime
  import opened ScheduleLiveness

  // ----- one call -----

  /** How many 60ths of a second a script frame lasts. */
  function Rate(fps: Fps): nat {
    match fps case FpsUnset => 0 case Fps60 => 1 case Fps30 => 2 case Fps20 => 3
  }

  /** A duration in 60ths, in the 32 bits the scheduler keeps. */
  function Time60(fps: Fps, duration: nat): nat {
    duration * Rate(fps) % U32
  }

  /**
   A stick pushed further than 16400 counts as a button in a place of its own, 16 to 19 for the left one and 20 to 23
   for the right: left, up, right, down. Every other button is the caller's.
   */
  ghost predicate Hydrated(got: set<nat>, asked: set<nat>, lx: int, ly: int, rx: int, ry: int) {
    && (16 in got <==> 16 in asked || lx < -16400) && (17 in got <==> 17 in asked || ly > 16400)
    && (18 in got <==> 18 in asked || lx > 16400) && (19 in got <==> 19 in asked || ly < -16400)
    && (20 in got <==> 20 in asked || rx < -16400) && (21 in got <==> 21 in asked || ry > 16400)
    && (22 in got <==> 22 in asked || rx > 16400) && (23 in got <==> 23 in asked || ry < -16400)
    && forall b: nat :: b < 16 || b > 23 ==> (b in got <==> b in asked)
  }

  lemma ButtonsAreHydrated(buttons: set<nat>, lx: int, ly: int, rx: int, ry: int)
    ensures Hydrated(GameButtons(buttons, lx, ly, rx, ry), buttons, lx, ly, rx, ry)
  {
  }

  /** The frame holds what the call asks for: each stick in its place, its buttons, its mode; a sleep holds nothing. */
  ghost predicate Plays(f: Frame, c: Command, gyro: Gyro)
    requires c.SetInput?
  {
    var input := f.held.input;
    && f.held.mode == c.mode && input.gyro == gyro
    && if c.mode == Vanilla then
         input.buttons == {} && input.lx == 0 && input.ly == 0 && input.rx == 0 && input.ry == 0
       else
         && input.lx == c.lx && input.ly == c.ly && input.rx == c.rx && input.ry == c.ry
         && Hydrated(input.buttons, c.buttons, c.lx, c.ly, c.rx, c.ry)
  }

  /** An input call holds exactly its input for exactly its time, and lets the script go on only if that is none. */
  lemma InputPlays(s: State, c: Command)
    requires Wf(s) && c.SetInput? && Top(s).fps != FpsUnset
    ensures var (t, stop) := ApplySetInput(s, c);
            && Plays(Top(t), c, Top(s).held.input.gyro) && Top(t).ttl == Time60(Top(s).fps, c.duration)
            && t.active && t.elapsed == (if s.active then s.elapsed else 0)
            && stop == if Top(t).ttl > 0 then Yield else Continue
  {
    hide GameButtons, Hydrated;
    ButtonsAreHydrated(c.buttons, c.lx, c.ly, c.rx, c.ry);
    ScaleIs(Top(s).fps, c.duration);
    hide Scale, Time60;
  }

  /** Without a rate an input call does nothing, except that one of the other modes still takes effect. */
  lemma UnscaledInput(s: State, c: Command)
    requires Wf(s) && c.SetInput? && Top(s).fps == FpsUnset
    ensures var (t, stop) := ApplySetInput(s, c);
            && stop == Continue && t.active == s.active && Top(t).ttl == Top(s).ttl
            && Top(t).held == Top(s).held.(mode := if c.mode == TasOnly then Top(s).held.mode else c.mode)
  {
  }

  lemma ScaleIs(fps: Fps, duration: nat)
    ensures Scale(fps, duration) == if fps == FpsUnset then None else Some(Time60(fps, duration))
  {
  }

  /** A stepped frame adds exactly its time to what frame advance lets through. */
  lemma StepAdds(s: State, duration: nat)
    requires Wf(s)
    ensures var t := ApplyStep(s, duration);
            && t.frameAdvance && t.frames == s.frames
            && t.bypass == ((if s.frameAdvance then s.bypass else 0) + Time60(Top(s).fps, duration)) % U32
            && t.debugPause == (s.debugPause || !s.frameAdvance)
  {
    ScaleIs(Top(s).fps, duration);
    hide Scale;
  }

  // ----- a whole run -----

  /** The call hands control back to the scheduler. */
  predicate Stops(fps: Fps, c: Command) {
    c.Await? || c.PushChild? || c.RequestAbort? || (c.SetInput? && Time60(fps, c.duration) > 0)
  }

  /** The calls a script makes before control goes back, the one that hands it back included. */
  function Made(fps: Fps, commands: seq<Command>): seq<Command> {
    if commands == [] || Stops(fps, commands[0]) then commands[..Min(1, |commands|)]
    else [commands[0]] + Made(fps, commands[1..])
  }

  // the last call of a kind decides
  function GyroAfter(gyro: Gyro, calls: seq<Command>): Gyro
    decreases |calls|
  {
    if calls == [] then gyro else GyroAfter(if calls[0].SetGyro? then calls[0].gyro else gyro, calls[1..])
  }

  function MindsDebug(v: bool, calls: seq<Command>): bool
    decreases |calls|
  {
    if calls == [] then v else MindsDebug(if calls[0].BlockOnDebugPause? then calls[0].v else v, calls[1..])
  }

  function MindsLoading(v: bool, calls: seq<Command>): bool
    decreases |calls|
  {
    if calls == [] then v else MindsLoading(if calls[0].BlockOnLoadingPause? then calls[0].v else v, calls[1..])
  }

  function LastInput(calls: seq<Command>): (c: Option<Command>)
    ensures c.Some? ==> c.value.SetInput?
  {
    if calls == [] then None
    else if LastInput(calls[1..]).Some? then LastInput(calls[1..])
    else if calls[0].SetInput? then Some(calls[0]) else None
  }

  function LastAwait(calls: seq<Command>): (c: Option<Command>)
    ensures c.Some? ==> c.value.Await?
  {
    if calls == [] then None
    else if LastAwait(calls[1..]).Some? then LastAwait(calls[1..])
    else if calls[0].Await? then Some(calls[0]) else None
  }

  /** The frame waits for the pause the call names, and whatever it waited for in the other way it still does. */
  predicate WaitsFor(f: Frame, g: Frame, c: Command)
    requires c.Await?
  {
    g.awaitVal == c.val &&
    if c.onTarget then g.awaitTarget == c.hash && g.awaitRequest == f.awaitRequest
    else g.awaitRequest == c.hash && g.awaitTarget == f.awaitTarget
  }

  /** From `f` to `g` a frame has changed as these calls ask. */
  ghost predicate WrittenBy(f: Frame, g: Frame, calls: seq<Command>) {
    && g.mod == f.mod && g.fps == f.fps
    && g.blockDebug == MindsDebug(f.blockDebug, calls) && g.blockLoading == MindsLoading(f.blockLoading, calls)
    && (match LastInput(calls)
        case None =>
          g.ttl == f.ttl && g.held == f.held.(input := f.held.input.(gyro := GyroAfter(f.held.input.gyro, calls)))
        case Some(c) =>
          g.ttl == Time60(f.fps, c.duration) && Plays(g, c, GyroAfter(f.held.input.gyro, calls)))
    && (match LastAwait(calls)
        case None => SameAwaits(f, g)
        case Some(c) => WaitsFor(f, g, c))
  }

  predicate SameAwaits(f: Frame, g: Frame) {
    g.awaitRequest == f.awaitRequest && g.awaitTarget == f.awaitTarget && g.awaitVal == f.awaitVal
  }

  lemma OneCall(c: Command)
    ensures LastInput([c]) == (if c.SetInput? then Some(c) else None)
    ensures LastAwait([c]) == (if c.Await? then Some(c) else None)
    ensures forall g :: GyroAfter(g, [c]) == if c.SetGyro? then c.gyro else g
    ensures forall v :: MindsDebug(v, [c]) == if c.BlockOnDebugPause? then c.v else v
    ensures forall v :: MindsLoading(v, [c]) == if c.BlockOnLoadingPause? then c.v else v
  {
    assert [c][1..] == [];
  }

  lemma CallWrites(s: State, c: Command)
    requires Wf(s) && Top(s).fps != FpsUnset && !c.PushChild? && !c.RequestAbort?
    ensures var (t, stop) := Apply(s, c);
            && t.sp == s.sp && WrittenBy(Top(s), Top(t), [c])
            && (stop.Yield? <==> Stops(Top(s).fps, c)) && !stop.Cancel?
            && (c.Await? ==> Top(t).awaitBegin == s.elapsed && t.active)
  {
    OneCall(c);
    hide Plays, Time60, LastInput, LastAwait, GyroAfter, MindsDebug, MindsLoading;
    if c.SetInput? {
      InputPlays(s, c);
      InputWrites(s, c);
      hide ApplySetInput;
    } else {
      CallChanges(s, c);
      hide Apply;
    }
  }

  /** A call that is not for an input, as it changes the top frame. */
  lemma CallChanges(s: State, c: Command)
    requires Wf(s) && !c.SetInput? && !c.PushChild? && !c.RequestAbort?
    ensures var (t, stop) := Apply(s, c); var (f, g) := (Top(s), Top(t));
            && t.sp == s.sp && stop == (if c.Await? then Yield else Continue)
            && g.mod == f.mod && g.fps == f.fps && g.ttl == f.ttl
            && g.blockDebug == (if c.BlockOnDebugPause? then c.v else f.blockDebug)
            && g.blockLoading == (if c.BlockOnLoadingPause? then c.v else f.blockLoading)
            && g.held == f.held.(input := f.held.input.(gyro := if c.SetGyro? then c.gyro else f.held.input.gyro))
            && (if c.Await? then WaitsFor(f, g, c) && g.awaitBegin == s.elapsed && t.active else SameAwaits(f, g))
  {
    hide ApplySetInput, ApplyAwait, ApplyStep, ApplyBeginFrameAdvance, SetTop, Push;
    match c
    case SetGyro(g) => TopSet(s, Top(s).(held := Top(s).held.(input := Top(s).held.input.(gyro := g))));
    case BlockOnDebugPause(v) => TopSet(s, Top(s).(blockDebug := v));
    case BlockOnLoadingPause(v) => TopSet(s, Top(s).(blockLoading := v));
    case Await(_, _, _) => AwaitChanges(s, c);
    case BeginFrameAdvance => AdvanceAside(s, 0);
    case StepFrameAdvance(d) => AdvanceAside(s, d);
    case EndFrameAdvance =>
  }

  lemma TopSet(s: State, f: Frame)
    requires Wf(s)
    ensures Wf(SetTop(s, f)) && SetTop(s, f).sp == s.sp && Top(SetTop(s, f)) == f
  {
  }

  lemma AwaitChanges(s: State, c: Command)
    requires Wf(s) && c.Await?
    ensures var t := ApplyAwait(s, c); var (f, g) := (Top(s), Top(t));
            && t.sp == s.sp && t.active && WaitsFor(f, g, c)
            && g == f.(awaitRequest := g.awaitRequest, awaitTarget := g.awaitTarget, awaitVal := c.val,
                       awaitBegin := s.elapsed)
  {
  }

  lemma AdvanceAside(s: State, duration: nat)
    requires Wf(s)
    ensures ApplyBeginFrameAdvance(s).frames == s.frames && ApplyBeginFrameAdvance(s).sp == s.sp
    ensures ApplyStep(s, duration).frames == s.frames && ApplyStep(s, duration).sp == s.sp
  {
  }

  lemma WrittenTrans(f: Frame, g: Frame, h: Frame, c: Command, calls: seq<Command>)
    requires WrittenBy(f, g, [c]) && WrittenBy(g, h, calls) && !c.Await?
    ensures WrittenBy(f, h, [c] + calls)
  {
    OneCall(c);
    hide Time60, Hydrated;
    assert ([c] + calls)[1..] == calls;
  }

  /** One call of the running script: what it writes to the script's frame, and whether the script goes on. */
  lemma StepWrites(s: State, own: nat, c: Command)
    requires Running(s, own) && Top(s).fps != FpsUnset && (c.PushChild? ==> own + 1 < DEPTH)
    ensures var (t, stop) := Apply(s, c);
            && (stop.Continue? <==> !Stops(Top(s).fps, c))
            && (stop.Continue? ==> Running(t, own))
            && (!stop.Cancel? ==> WrittenBy(s.frames[own], t.frames[own], [c]))
            && (c.SetInput? || c.Await? ==> !stop.Cancel? && !t.pending)
  {
    hide Push, RequestAbortAll, WrittenBy;
    if c.PushChild? {
      PushKeepsStack(s, own, c);
      PushWritesNothing(Top(s), c);
    } else if !c.RequestAbort? {
      ApplyKeepsStack(s, c);
      CallWrites(s, c);
    }
  }

  lemma PushWritesNothing(f: Frame, c: Command)
    requires c.PushChild?
    ensures WrittenBy(f, f, [c])
  {
    OneCall(c);
  }

  predicate StopsAtLast(fps: Fps, made: seq<Command>) {
    made != [] && Stops(fps, Last(made))
  }

  function Last(calls: seq<Command>): Command
    requires calls != []
  {
    calls[|calls| - 1]
  }

  /** After a run the script's frame is as the calls it made left it, and it stopped where the first of them stops. */
  lemma {:induction false} RunWrites(s: State, own: nat, run: Run)
    requires Running(s, own) && Top(s).fps != FpsUnset
    requires own + 1 == DEPTH ==> forall c <- run.commands :: !c.PushChild?
    ensures var (o, t) := RunCommands(s, own, run); var made := Made(Top(s).fps, run.commands);
            && (!o.Cancelled? ==> WrittenBy(s.frames[own], t.frames[own], made))
            && (o.Yielded? || o.Cancelled? <==> StopsAtLast(Top(s).fps, made))
            && (StopsAtLast(Top(s).fps, made) && (Last(made).SetInput? || Last(made).Await?) ==>
                  o.Yielded? && !t.pending)
            && (!StopsAtLast(Top(s).fps, made) ==> made == run.commands)
    decreases |run.commands|
  {
    hide Apply, WrittenBy, Stops;
    var f := s.frames[own];
    if run.commands == [] {
      NothingWritten(f);
    } else {
      var c := run.commands[0];
      var (s1, stop) := Apply(s, c);
      StepWrites(s, own, c);
      if stop.Continue? {
        var rest := run.(commands := run.commands[1..]);
        FpsStays(f, s1.frames[own], c);
        RunWrites(s1, own, rest);
        var made := Made(f.fps, rest.commands);
        assert run.commands == [c] + rest.commands;
        var (o, t) := RunCommands(s1, own, rest);
        if !o.Cancelled? {
          AwaitStops(f.fps, c);
          WrittenTrans(f, s1.frames[own], t.frames[own], c, made);
        }
      } else {
        assert Made(f.fps, run.commands) == [c];
        if !stop.Cancel? { CtxAside(f, s1.frames[own], c, if stop.Yield? then Suspended else Aborted); }
      }
    }
  }

  lemma AwaitStops(fps: Fps, c: Command)
    requires !Stops(fps, c)
    ensures !c.Await?
  {
  }

  lemma NothingWritten(f: Frame)
    ensures forall c :: WrittenBy(f, f.(ctx := c), [])
  {
  }

  lemma FpsStays(f: Frame, g: Frame, c: Command)
    requires WrittenBy(f, g, [c])
    ensures g.fps == f.fps
  {
  }

  lemma CtxAside(f: Frame, g: Frame, c: Command, ctx: Ctx)
    requires WrittenBy(f, g, [c])
    ensures WrittenBy(f, g.(ctx := ctx), [c])
  {
  }

  // ----- pushes -----

  /** A push starts a script with nothing left over, as the caller says about DebugPause, showing what was shown. */
  lemma PushWrites(s: State, m: ModuleId, blockDebug: bool, hasEntry: bool)
    requires Healthy(s) && HasRoom(s)
    ensures var t := Push(s, m, blockDebug, hasEntry);
            && (t.abortReq <==> !hasEntry)
            && (hasEntry ==>
                  && t == s.(frames := t.frames, sp := t.sp, pending := true)
                  && t.sp == (if Occupied(s) then s.sp + 1 else s.sp) < DEPTH
                  && |t.frames| == DEPTH && (forall i :: 0 <= i < DEPTH && i != t.sp ==> t.frames[i] == s.frames[i])
                  && Started(Top(t), m, blockDebug)
                  && Top(t).held == if Occupied(s) then Top(s).held else Top(s).held.(mode := Vanilla))
  {
  }

  /** How a frame starts out, apart from the input it shows: it minds loading, and counts its input at 30 a second. */
  predicate Started(f: Frame, m: ModuleId, blockDebug: bool) {
    f.mod == Some(m) && f.ctx == Prepared && f.blockDebug == blockDebug && f.blockLoading && AtRest(f) && f.fps == Fps30
  }

  // ----- a tick -----

  /** The tick resumes the script of frame k: the top one, or one uncovered by scripts that have finished. */
  predicate Resumes(s: State, delta: nat, env: Env, runs: seq<Run>, k: nat)
    requires Wf(s) && WfRuns(runs)
    decreases s.sp
  {
    IsValid(s) &&
    var (resume, s1) := Admit(s, delta, env);
    resume && k <= s.sp &&
    (k == s.sp ||
     var (outcome, s2) := RunCommands(s1, s.sp, runs[s.sp]);
     outcome.Completed? && Resumes(Pop(s2), 0, env, runs, k))
  }

  /** The gyro sample a script is resumed with, when those above it have finished in this tick. */
  function GyroAt(s: State, runs: seq<Run>, k: nat): Gyro
    requires Wf(s) && WfRuns(runs) && k <= s.sp
    decreases s.sp - k
  {
    if k == s.sp then Top(s).held.input.gyro else GyroAfter(GyroAt(s, runs, k + 1), runs[k + 1].commands)
  }

  /** A frame as it is resumed in a tick on `s`: with no time left and nothing awaited, unless it was just pushed. */
  predicate ResumedAs(s: State, runs: seq<Run>, k: nat, f: Frame)
    requires Wf(s) && WfRuns(runs) && k <= s.sp
  {
    var g := s.frames[k];
    && f.mod == g.mod && f.fps == g.fps && f.blockDebug == g.blockDebug && f.blockLoading == g.blockLoading
    && f.held.input.gyro == GyroAt(s, runs, k) && (k == s.sp ==> f.held == g.held)
    && (AtRest(f) || (k == s.sp && s.pending && !AtRest(g)))
  }

  /** The script hands control back with an input to be held or a pause to be awaited. */
  predicate Rests(fps: Fps, run: Run) {
    var made := Made(fps, run.commands);
    StopsAtLast(fps, made) && (Last(made).SetInput? || Last(made).Await?)
  }

  lemma {:induction false} GyroThrough(s: State, p: State, runs: seq<Run>, k: nat)
    requires Wf(s) && Wf(p) && WfRuns(runs) && p.sp + 1 == s.sp && k <= p.sp
    requires Top(p).held.input.gyro == GyroAfter(Top(s).held.input.gyro, runs[s.sp].commands)
    ensures GyroAt(s, runs, k) == GyroAt(p, runs, k)
    decreases p.sp - k
  {
    if k < p.sp { GyroThrough(s, p, runs, k + 1); }
  }

  /** The frame a pass admits, as its script is resumed. */
  lemma AdmitsAs(s: State, delta: nat, env: Env, runs: seq<Run>)
    requires Shape(s) && !s.abortReq && Occupied(s) && WfRuns(runs) && Admit(s, delta, env).0
    ensures var s1 := Admit(s, delta, env).1;
            Running(s1, s.sp) && ResumedAs(s, runs, s.sp, Top(s1))
            && forall i :: 0 <= i < DEPTH ==> s1.frames[i].fps == s.frames[i].fps
  {
    AdmitKeeps(s, delta, env);
    AdmitRests(s, delta, env);
    AdmitBlocks(s, delta, env);
    AdmitCharges(s, delta, env);
    hide Admit;
  }

  lemma AdmitBlocks(s: State, delta: nat, env: Env)
    requires Wf(s)
    ensures var (resume, t) := Admit(s, delta, env);
            && SameBlocks(s, t, DEPTH)
            && (resume && !s.pending ==> Top(t).awaitRequest == 0 && Top(t).awaitTarget == 0)
  {
    hide CheckBlocked, Consume, SameBlocks;
    CheckKeepsBlocks(s, env);
    var (blocked, s1) := CheckBlocked(s, env);
    ConsumeKeepsBlocks(s1, delta);
    var s2 := Consume(s1, delta).1;
    SameBlocksTrans(s, s1, s2, DEPTH);
    CtxKeepsBlocks(s2);
    SameBlocksTrans(s, s2, SetCtx(s2.(pending := false), s2.sp, Active), DEPTH);
  }

  lemma CheckKeepsBlocks(s: State, env: Env)
    requires Wf(s)
    ensures var (blocked, t) := CheckBlocked(s, env);
            && SameBlocks(s, t, DEPTH) && t.sp == s.sp
            && (!blocked && !s.pending ==> Top(t).awaitRequest == 0 && Top(t).awaitTarget == 0)
  {
    CheckPausesKeeps(s, env);
    NothingAwaited(s, env);
    hide CheckPauses;
  }

  lemma NothingAwaited(s: State, env: Env)
    requires Wf(s)
    ensures var (blocked, f) := CheckPauses(s, env); !blocked ==> f.awaitRequest == 0 && f.awaitTarget == 0
  {
  }

  lemma ConsumeKeepsBlocks(s: State, delta: nat)
    requires Wf(s)
    ensures var t := Consume(s, delta).1;
            && SameBlocks(s, t, DEPTH) && t.sp == s.sp
            && Top(t).awaitRequest == Top(s).awaitRequest && Top(t).awaitTarget == Top(s).awaitTarget
  {
    hide FrameAdvanceGate;
    GateKeepsFrames(s, s.frames[ChargedFrame(s)].blockDebug, delta);
  }

  /** What a tick that resumes frame k, whose script then rests, ends with: that script's calls, and no other's. */
  ghost predicate RestsOn(s: State, runs: seq<Run>, k: nat, t: State)
    requires Wf(s) && WfRuns(runs) && k <= s.sp
  {
    && Wf(t) && t.sp == k && !t.pending && !t.abortReq && t.active
    && exists f :: ResumedAs(s, runs, k, f) && WrittenBy(f, Top(t), Made(s.frames[k].fps, runs[k].commands))
  }

  lemma TopRests(s: State, delta: nat, env: Env, runs: seq<Run>)
    requires Shape(s) && !s.abortReq && Occupied(s) && WfRuns(runs) && Top(s).fps != FpsUnset
    requires Admit(s, delta, env).0 && Rests(Top(s).fps, runs[s.sp])
    ensures var (done, t) := CalcCtx(s, delta, env, runs); !done && RestsOn(s, runs, s.sp, t)
  {
    hide Admit, ResumedAs, WrittenBy, Made, RunCommands;
    AdmitsAs(s, delta, env, runs);
    var s1 := Admit(s, delta, env).1;
    RunWrites(s1, s.sp, runs[s.sp]);
    RunKeepsStack(s1, s.sp, runs[s.sp]);
    ResumedFps(s, runs, s.sp, Top(s1));
    var (o, s2) := RunCommands(s1, s.sp, runs[s.sp]);
    assert ResumedAs(s, runs, s.sp, Top(s1)) && WrittenBy(Top(s1), Top(s2), Made(Top(s).fps, runs[s.sp].commands));
    assert CalcCtx(s, delta, env, runs) == (false, s2);
  }

  lemma ResumedFps(s: State, runs: seq<Run>, k: nat, f: Frame)
    requires Wf(s) && WfRuns(runs) && k <= s.sp && ResumedAs(s, runs, k, f)
    ensures f.fps == s.frames[k].fps
  {
  }

  /** What a finished script leaves to the one under it, for what that one is resumed with. */
  lemma PopsTo(s: State, delta: nat, env: Env, runs: seq<Run>) returns (p: State)
    requires Shape(s) && !s.abortReq && Occupied(s) && WfRuns(runs) && Settled(s) && s.sp > 0
    requires Admit(s, delta, env).0
    requires RunCommands(Admit(s, delta, env).1, s.sp, runs[s.sp]).0.Completed?
    ensures p == Pop(RunCommands(Admit(s, delta, env).1, s.sp, runs[s.sp]).1)
    ensures CalcCtx(s, delta, env, runs) == CalcCtx(p, 0, env, runs)
    ensures Wf(p) && Shape(p) && !p.abortReq && !p.pending && Occupied(p) && Settled(p) && p.sp == s.sp - 1
    ensures SameBlocks(s, p, s.sp) && forall i :: 0 <= i < s.sp ==> p.frames[i].mod == s.frames[i].mod
    ensures Top(p).ttl == 0 ==> Top(p).held.input.gyro == GyroAfter(Top(s).held.input.gyro, runs[s.sp].commands)
  {
    hide Admit, RunCommands, Pop, WrittenBy, Made, SameBlocks, Settled, CalcCtx, Plays;
    var s1 := Admit(s, delta, env).1;
    AdmitsAs(s, delta, env, runs);
    AdmitBlocks(s, delta, env);
    AdmitSettles(s, delta, env);
    AdmitKeeps(s, delta, env);
    HasFps(s);
    RunWrites(s1, s.sp, runs[s.sp]);
    RunKeepsStack(s1, s.sp, runs[s.sp]);
    RunSettles(s1, s.sp, runs[s.sp]);
    var s2 := RunCommands(s1, s.sp, runs[s.sp]).1;
    p := Pop(s2);
    BlocksThrough(s, s1, s2);
    PopsSettled(s, s1, s2);
    CalcCtxContinues(s, delta, env, runs, s1, s2, p);
    PopBelow(s2);
    PopFrames(s2);
    WritesGyro(s1.frames[s.sp], s2.frames[s.sp], runs[s.sp].commands);
  }

  lemma HasFps(s: State)
    requires Settled(s) && Occupied(s)
    ensures Top(s).fps != FpsUnset
  {
  }

  lemma WritesGyro(f: Frame, g: Frame, calls: seq<Command>)
    requires WrittenBy(f, g, calls)
    ensures g.held.input.gyro == GyroAfter(f.held.input.gyro, calls)
  {
    hide Hydrated;
  }

  lemma {:induction false} CalcCtxWrites(s: State, delta: nat, env: Env, runs: seq<Run>, k: nat)
    requires Shape(s) && !s.abortReq && Occupied(s) && WfRuns(runs) && Settled(s) && Resumes(s, delta, env, runs, k)
    requires k <= s.sp && Rests(s.frames[k].fps, runs[k])
    ensures var (done, t) := CalcCtx(s, delta, env, runs); !done && RestsOn(s, runs, k, t)
    decreases s.sp
  {
    assert Wf(s);
    hide Admit, RunCommands, Pop, CalcCtx, Settled, Shape, RestsOn, Rests, SameBlocks;
    if k == s.sp {
      HasFps(s);
      TopRests(s, delta, env, runs);
    } else {
      var p := PopsTo(s, delta, env, runs);
      BlocksAt(s, p, k);
      CalcCtxWrites(p, 0, env, runs, k);
      ResumedIsSpent(p, env, runs, k);
      GyroThrough(s, p, runs, k);
      RestsThrough(s, p, runs, k, CalcCtx(p, 0, env, runs).1);
    }
  }

  lemma BlocksAt(s: State, p: State, k: nat)
    requires SameBlocks(s, p, s.sp) && k < s.sp < DEPTH
    ensures var (f, g) := (s.frames[k], p.frames[k]);
            f.fps == g.fps && f.blockDebug == g.blockDebug && f.blockLoading == g.blockLoading
  {
  }

  /** Nothing is charged below the first script of a tick, so what is resumed there has had no time left before. */
  lemma ResumedIsSpent(p: State, env: Env, runs: seq<Run>, k: nat)
    requires Wf(p) && WfRuns(runs) && !p.pending && Resumes(p, 0, env, runs, k)
    ensures Top(p).ttl == 0
  {
    hide Admit, RunCommands, Pop;
    AdmitCharges(p, 0, env);
  }

  lemma RestsThrough(s: State, p: State, runs: seq<Run>, k: nat, t: State)
    requires Wf(s) && Wf(p) && WfRuns(runs) && p.sp + 1 == s.sp && k <= p.sp && !p.pending && RestsOn(p, runs, k, t)
    requires SameBlocks(s, p, s.sp) && p.frames[k].mod == s.frames[k].mod && GyroAt(s, runs, k) == GyroAt(p, runs, k)
    ensures RestsOn(s, runs, k, t)
  {
    hide WrittenBy, Made, GyroAt;
    BlocksAt(s, p, k);
    var made := Made(s.frames[k].fps, runs[k].commands);
    var f :| ResumedAs(p, runs, k, f) && WrittenBy(f, Top(t), made);
    assert ResumedAs(s, runs, k, f);
  }

  /** In a tick the last script resumed decides: if it rests, its frame is on top as its calls have left it. */
  lemma TickWrites(s: State, delta: nat, env: Env, runs: seq<Run>, k: nat)
    requires Healthy(s) && Settled(s) && (s.active || s.pending) && WfRuns(runs) && Resumes(s, delta, env, runs, k)
    requires k <= s.sp && Rests(s.frames[k].fps, runs[k])
    ensures RestsOn(s, runs, k, Tick(s, delta, env, runs))
  {
    hide CalcCtx, RestsOn, Resumes, Rests;
    CalcCtxWrites(s, delta, env, runs, k);
  }

  /**
   The effective input after a tick: if the last script resumed rests on an input call, the game gets that call's
   sticks, buttons and mode, with the gyro sample last set, for that call's time.
   */
  lemma TickPlays(s: State, delta: nat, env: Env, runs: seq<Run>, k: nat)
    requires Healthy(s) && Settled(s) && (s.active || s.pending) && WfRuns(runs) && Resumes(s, delta, env, runs, k)
    requires k <= s.sp && Rests(s.frames[k].fps, runs[k]) && Last(Made(s.frames[k].fps, runs[k].commands)).SetInput?
    ensures var t := Tick(s, delta, env, runs); var made := Made(s.frames[k].fps, runs[k].commands);
            && t.sp == k && !t.pending && !t.abortReq && t.active
            && Plays(Top(t), Last(made), GyroAfter(GyroAt(s, runs, k), made))
            && Top(t).ttl == Time60(s.frames[k].fps, Last(made).duration) > 0
  {
    hide Tick, Made, Plays, GyroAt, Resumes;
    TickWrites(s, delta, env, runs, k);
    LastIsLast(Made(s.frames[k].fps, runs[k].commands));
  }

  lemma {:induction false} LastIsLast(calls: seq<Command>)
    requires calls != []
    ensures Last(calls).SetInput? ==> LastInput(calls) == Some(Last(calls))
    ensures Last(calls).Await? ==> LastAwait(calls) == Some(Last(calls))
    decreases |calls|
  {
    if |calls| > 1 { LastIsLast(calls[1..]); } else { assert calls[1..] == []; }
  }
}
