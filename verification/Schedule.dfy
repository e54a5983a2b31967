/**
 The TAS script scheduler as a pure state machine: a stack of script contexts, each with an
 input it holds for a number of 60ths of a second, driven by one tick per game frame.
 `Scheduler.dfy` holds the class whose methods update this state in place.
 */
module Schedule {
  import opened Basics

  const DEPTH: nat := 12
  const DEBUG_PAUSE: nat := 0x2d67e2da
  const LOADING_PAUSE: nat := 0x0eafe200
  const U32: nat := 0x1_0000_0000

  // the places of the buttons derived from the sticks
  const STICK_L_LEFT: nat := 16
  const STICK_L_UP: nat := 17
  const STICK_L_RIGHT: nat := 18
  const STICK_L_DOWN: nat := 19
  const STICK_R_LEFT: nat := 20
  const STICK_R_UP: nat := 21
  const STICK_R_RIGHT: nat := 22
  const STICK_R_DOWN: nat := 23

  /** Identifies a built script module; discarding it frees it. */
  type ModuleId = nat

  /** The state of a script context, as its library reports it. */
  datatype Ctx = Uninitialized | Prepared | Suspended | Active | Finished | Aborted | Exception

  datatype Fps = FpsUnset | Fps60 | Fps30 | Fps20

  datatype Mode = Vanilla | TasOnly | PassthroughOr | PassthroughXor

  /** Gyro samples are only ever copied whole, so any value type will do. */
  type Gyro = nat

  /** An input; its buttons are the places set in the game's button word. */
  datatype Input = Input(buttons: set<nat>, lx: int, ly: int, rx: int, ry: int, gyro: Gyro)

  /** What a stack frame hands to the game: an input and how it mixes with the player's. */
  datatype Held = Held(input: Input, mode: Mode)

  datatype Frame = Frame(
    mod: Option<ModuleId>, ctx: Ctx, held: Held, ttl: nat,
    awaitBegin: nat, awaitRequest: nat, awaitTarget: nat, awaitVal: bool,
    blockDebug: bool, blockLoading: bool, fps: Fps)

  /**
   The scheduler's globals. The last three fields only record history: the modules discarded so
   far, and how much frame-advance time this session asked for and counted down.
   */
  datatype State = State(
    frames: seq<Frame>, sp: nat, elapsed: nat, bypass: nat,
    active: bool, pending: bool, abortReq: bool, frameAdvance: bool, debugPause: bool,
    discards: seq<ModuleId>, stepped: nat, counted: nat)

  /** What the game reports during one tick, apart from the DebugPause request this code owns. */
  datatype Env = Env(loadingPause: bool, requests: set<nat>, targets: set<nat>)

  /** The calls a script can make back into the scheduler. */
  datatype Command =
    | SetInput(mode: Mode, duration: nat, buttons: set<nat>, lx: int, ly: int, rx: int, ry: int)
    | SetGyro(gyro: Gyro)
    | Await(onTarget: bool, val: bool, hash: nat)
    | BlockOnDebugPause(v: bool)
    | BlockOnLoadingPause(v: bool)
    | BeginFrameAdvance
    | StepFrameAdvance(duration: nat)
    | EndFrameAdvance
    | PushChild(mod: ModuleId, blockDebug: bool, hasEntry: bool)
    | RequestAbort

  datatype Ending = Returns | Throws

  /** What a script does when resumed: the calls it would make, and how it ends if none suspends it. */
  datatype Run = Run(commands: seq<Command>, ending: Ending)

  datatype Outcome = Completed | Yielded | Failed | Cancelled

  /** Whether the context stops when a call returns to it. */
  datatype Stop = Continue | Yield | Cancel

  predicate Wf(s: State) {
    |s.frames| == DEPTH && s.sp < DEPTH
  }

  function Top(s: State): Frame
    requires Wf(s)
  {
    s.frames[s.sp]
  }

  function SetTop(s: State, f: Frame): State
    requires Wf(s)
  {
    s.(frames := s.frames[s.sp := f])
  }

  function Add32(a: nat, b: nat): nat {
    (a + b) % U32
  }

  function Min(a: nat, b: nat): nat {
    if a < b then a else b
  }

  /** A duration in script frames as 60ths of a second; `None` for an unset rate. */
  function Scale(fps: Fps, duration: nat): Option<nat> {
    match fps
    case FpsUnset => None
    case Fps60 => Some(duration % U32)
    case Fps30 => Some(duration * 2 % U32)
    case Fps20 => Some(duration * 3 % U32)
  }

  // ----- validity and blocking -----

  predicate Runnable(c: Ctx) {
    c == Suspended || c == Prepared
  }

  predicate IsValid(s: State)
    requires Wf(s)
  {
    !s.abortReq && Top(s).mod.Some? && Runnable(Top(s).ctx)
  }

  predicate Requested(s: State, env: Env, hash: nat) {
    if hash == DEBUG_PAUSE then s.debugPause
    else if hash == LOADING_PAUSE then env.loadingPause
    else hash in env.requests
  }

  /** A script waiting for the very pause that blocks it stops waiting, but stays blocked. */
  function ClearAwait(f: Frame, hash: nat): Frame {
    if f.awaitRequest == hash && f.awaitVal then f.(awaitRequest := 0) else f
  }

  function CheckAwaits(s: State, env: Env, f: Frame): (bool, Frame) {
    if f.awaitRequest != 0 && f.awaitVal != Requested(s, env, f.awaitRequest) then (true, f)
    else
      var f1 := f.(awaitRequest := 0);
      if f1.awaitTarget != 0 && f1.awaitVal != (f1.awaitTarget in env.targets) then (true, f1)
      else (false, f1.(awaitTarget := 0))
  }

  function CheckLoading(s: State, env: Env, f: Frame): (bool, Frame) {
    if env.loadingPause && f.blockLoading then (true, ClearAwait(f, LOADING_PAUSE))
    else CheckAwaits(s, env, f)
  }

  /**
   Whether a pause or an await keeps the top script from being scheduled, and its frame with finished awaits
   cleared.
   */
  function CheckPauses(s: State, env: Env): (bool, Frame)
    requires Wf(s)
  {
    var f := Top(s);
    if s.debugPause && f.blockDebug then
      var f1 := ClearAwait(f, DEBUG_PAUSE);
      if s.frameAdvance && s.bypass > 0 then CheckLoading(s, env, f1) else (true, f1)
    else CheckLoading(s, env, f)
  }

  /** A pending script is never blocked: it has had no chance yet to say which pauses it minds. */
  function CheckBlocked(s: State, env: Env): (r: (bool, State))
    requires Wf(s)
    ensures Wf(r.1) && r.1.sp == s.sp
  {
    if s.pending then (false, s)
    else var (blocked, f) := CheckPauses(s, env); (blocked, SetTop(s, f))
  }

  // ----- frame time -----

  /**
   The frame that pays for the time that has just passed: the one a pending push interrupted, if it still had time.
   */
  function ChargedFrame(s: State): nat
    requires Wf(s)
  {
    if s.pending && s.sp > 0 && s.frames[s.sp - 1].ttl > 0 then s.sp - 1 else s.sp
  }

  /** How frame advance treats a tick: whether its time counts against the input, and against the run length. */
  datatype Gate = Gate(counts: bool, timed: bool)

  function FrameAdvanceGate(s: State, blockDebug: bool, delta: nat): (State, Gate) {
    if !s.frameAdvance then (s, Gate(true, true))
    else if !s.debugPause && s.bypass == 0 then (s.(debugPause := true), Gate(true, true))
    else if s.debugPause && s.bypass == 0 then (s, Gate(false, true))
    else if !blockDebug then (s, Gate(true, false))
    else if s.debugPause then (s.(debugPause := false), Gate(false, true))
    else
      var taken := Min(s.bypass, delta);
      (s.(bypass := s.bypass - taken, counted := s.counted + taken, debugPause := s.bypass == taken), Gate(true, true))
  }

  function Deduct(ttl: nat, delta: nat): nat {
    if ttl >= delta then ttl - delta else 0
  }

  function DeductFrom(s: State, charged: nat, gate: Gate, delta: nat): (bool, State)
    requires Wf(s) && charged < DEPTH
  {
    var f := s.frames[charged];
    var f1 := if gate.counts then f.(ttl := Deduct(f.ttl, delta)) else f;
    (f1.ttl == 0,
     s.(frames := s.frames[charged := f1],
        elapsed := if gate.counts && gate.timed then Add32(s.elapsed, delta) else s.elapsed))
  }

  /** Takes a tick's time from the charged frame; true when that leaves it none. */
  function Consume(s: State, delta: nat): (r: (bool, State))
    requires Wf(s)
    ensures Wf(r.1) && r.1.sp == s.sp
  {
    var c := ChargedFrame(s);
    var (s1, gate) := FrameAdvanceGate(s, s.frames[c].blockDebug, delta);
    DeductFrom(s1, c, gate, delta)
  }

  // ----- abort -----

  function AbortCtx(f: Frame): Frame {
    if f.ctx == Suspended then f.(ctx := Aborted) else f
  }

  function RequestAbortAll(s: State): State {
    s.(abortReq := true, frames := seq(|s.frames|, i requires 0 <= i < |s.frames| => AbortCtx(s.frames[i])))
  }

  function Unprepare(f: Frame): Frame {
    if f.ctx == Active || f.ctx == Suspended then f else f.(ctx := Uninitialized)
  }

  function ClearFrame(f: Frame): Frame {
    Unprepare(AbortCtx(f)).(mod := None)
  }

  function OwnModule(f: Frame): seq<ModuleId> {
    if f.mod.Some? then [f.mod.value] else []
  }

  /** The modules stored in frames, lowest frame first. */
  function Modules(frames: seq<Frame>): seq<ModuleId> {
    if frames == [] then [] else OwnModule(frames[0]) + Modules(frames[1..])
  }

  function ProcessAbort(s: State): State {
    if !s.abortReq then s
    else s.(
        frames := seq(|s.frames|, i requires 0 <= i < |s.frames| => ClearFrame(s.frames[i])),
        discards := s.discards + Modules(s.frames),
        sp := 0, active := false, abortReq := false)
  }

  // ----- push and pop -----

  function ResetFrame(f: Frame): Frame {
    f.(ttl := 0, awaitBegin := 0, awaitRequest := 0, awaitTarget := 0, blockDebug := true,
       blockLoading := true, awaitVal := false, fps := Fps30, held := f.held.(mode := Vanilla))
  }

  predicate Occupied(s: State)
    requires Wf(s)
  {
    Top(s).mod.Some?
  }

  /** The push itself does not check this: a thirteenth script would be written past the stack. */
  predicate HasRoom(s: State)
    requires Wf(s)
  {
    Occupied(s) ==> s.sp + 1 < DEPTH
  }

  function Prepare(f: Frame): Frame {
    if f.ctx == Active || f.ctx == Suspended then f else f.(ctx := Prepared)
  }

  /** The slot a push writes, wiped and inheriting the input of the script it interrupts. */
  function PushSlot(s: State): (int, Frame)
    requires Wf(s) && HasRoom(s)
  {
    if Occupied(s) then (s.sp + 1, ResetFrame(s.frames[s.sp + 1]).(held := Top(s).held))
    else (s.sp, ResetFrame(Top(s)))
  }

  function Push(s: State, mod: ModuleId, blockDebug: bool, hasEntry: bool): (r: State)
    requires Wf(s) && HasRoom(s)
    ensures Wf(r)
  {
    var (slot, f) := PushSlot(s);
    if f.mod.Some? then RequestAbortAll(s.(frames := s.frames[slot := f]))
    else
      var f1 := f.(mod := Some(mod), blockDebug := blockDebug);
      if !hasEntry then RequestAbortAll(s.(frames := s.frames[slot := f1]))
      else s.(frames := s.frames[slot := Prepare(f1)], sp := slot, pending := true)
  }

  /**
   Whether the scan that guards a discard finds the module in a lower frame; it stops one frame short of the parent.
   */
  predicate SharedBelow(s: State, m: ModuleId)
    requires Wf(s)
  {
    exists i :: 0 <= i < s.sp - 1 && s.frames[i].mod == Some(m)
  }

  function DiscardTop(s: State): State
    requires Wf(s)
  {
    if Top(s).mod.None? then s
    else
      var m := Top(s).mod.value;
      var s1 := SetTop(s, Top(s).(mod := None));
      if SharedBelow(s1, m) then s1 else s1.(discards := s1.discards + [m])
  }

  /** The stack goes down one frame; a parent with no time left takes over the input above it. */
  function LeaveFrame(s: State): State
    requires Wf(s) && s.sp > 0
  {
    var parent := s.frames[s.sp - 1];
    var parent1 := if parent.ttl == 0 then parent.(held := Top(s).held) else parent;
    s.(frames := s.frames[s.sp - 1 := parent1], sp := s.sp - 1)
  }

  /** A finished top script leaves the stack. */
  function Pop(s: State): State
    requires Wf(s) && s.sp > 0
  {
    LeaveFrame(DiscardTop(SetTop(s, Unprepare(Top(s)))))
  }

  // ----- the calls a script makes -----

  /** The buttons with the axis flags the game expects beside the raw sticks. */
  function GameButtons(buttons: set<nat>, lx: int, ly: int, rx: int, ry: int): set<nat> {
    buttons + (if lx > 16400 then {STICK_L_RIGHT} else {}) + (if lx < -16400 then {STICK_L_LEFT} else {}) +
    (if ly > 16400 then {STICK_L_UP} else {}) + (if ly < -16400 then {STICK_L_DOWN} else {}) +
    (if rx > 16400 then {STICK_R_RIGHT} else {}) + (if rx < -16400 then {STICK_R_LEFT} else {}) +
    (if ry > 16400 then {STICK_R_UP} else {}) + (if ry < -16400 then {STICK_R_DOWN} else {})
  }

  /** `SetInput` with mode `Vanilla` is the sleep call, which holds a neutral input. */
  function ApplySetInput(s: State, c: Command): (r: (State, Stop))
    requires Wf(s) && c.SetInput?
    ensures Wf(r.0) && r.0.sp == s.sp
  {
    var f := Top(s);
    match Scale(f.fps, c.duration)
    case None =>
      // the plain call returns early; its variants still set their mode
      (if c.mode == TasOnly then s else SetTop(s, f.(held := f.held.(mode := c.mode))), Continue)
    case Some(ttl) =>
      var input :=
        if c.mode == Vanilla then Input({}, 0, 0, 0, 0, f.held.input.gyro)
        else Input(GameButtons(c.buttons, c.lx, c.ly, c.rx, c.ry), c.lx, c.ly, c.rx, c.ry, f.held.input.gyro);
      (SetTop(s, f.(held := Held(input, c.mode), ttl := ttl))
       .(elapsed := if s.active then s.elapsed else 0, active := true),
       if ttl > 0 then Yield else Continue)
  }

  function ApplyBeginFrameAdvance(s: State): State {
    (if s.frameAdvance then s else s.(frameAdvance := true, bypass := 0, stepped := 0, counted := 0))
    .(debugPause := true)
  }

  function ApplyStep(s: State, duration: nat): State
    requires Wf(s)
  {
    var d := match Scale(Top(s).fps, duration) case None => 0 case Some(v) => v;
    var s1 := if s.frameAdvance then s else ApplyBeginFrameAdvance(s);
    s1.(bypass := Add32(s1.bypass, d), stepped := s1.stepped + d)
  }

  function ApplyAwait(s: State, c: Command): State
    requires Wf(s) && c.Await?
  {
    var f := Top(s).(awaitVal := c.val, awaitBegin := s.elapsed);
    SetTop(s, if c.onTarget then f.(awaitTarget := c.hash) else f.(awaitRequest := c.hash)).(active := true)
  }

  function Apply(s: State, c: Command): (r: (State, Stop))
    requires Wf(s) && (c.PushChild? ==> HasRoom(s))
    ensures Wf(r.0) && (r.1.Continue? ==> r.0.sp == s.sp)
  {
    match c
    case SetInput(_, _, _, _, _, _, _) => ApplySetInput(s, c)
    case SetGyro(g) => (SetTop(s, Top(s).(held := Top(s).held.(input := Top(s).held.input.(gyro := g)))), Continue)
    case Await(_, _, _) => (ApplyAwait(s, c), Yield)
    case BlockOnDebugPause(v) => (SetTop(s, Top(s).(blockDebug := v)), Continue)
    case BlockOnLoadingPause(v) => (SetTop(s, Top(s).(blockLoading := v)), Continue)
    case BeginFrameAdvance => (ApplyBeginFrameAdvance(s), Continue)
    case StepFrameAdvance(d) => (ApplyStep(s, d), Continue)
    case EndFrameAdvance => (s.(debugPause := false, bypass := 0, frameAdvance := false), Continue)
    case PushChild(m, b, e) =>
      var s1 := Push(s, m, b, e);
      (s1, if s1.abortReq then Cancel else Yield)
    case RequestAbort => (RequestAbortAll(s), Cancel)
  }

  function SetCtx(s: State, i: nat, c: Ctx): State
    requires i < |s.frames|
  {
    s.(frames := s.frames[i := s.frames[i].(ctx := c)])
  }

  /** The run of the script in frame `own`, up to the first call that stops it. */
  function RunCommands(s: State, own: nat, run: Run): (r: (Outcome, State))
    requires Wf(s) && s.sp == own && (own + 1 == DEPTH ==> forall c <- run.commands :: !c.PushChild?)
    ensures Wf(r.1) && (r.0.Completed? ==> r.1.sp == own)
    decreases |run.commands|
  {
    if run.commands == [] then
      if run.ending == Returns then (Completed, SetCtx(s, own, Finished)) else (Failed, SetCtx(s, own, Exception))
    else
      var (s1, stop) := Apply(s, run.commands[0]);
      match stop
      case Continue => RunCommands(s1, own, run.(commands := run.commands[1..]))
      case Yield => (Yielded, SetCtx(s1, own, Suspended))
      case Cancel => (Cancelled, SetCtx(s1, own, Aborted))
  }

  /** One oracle answer per stack index: what the script there does if this tick resumes it. */
  predicate WfRuns(runs: seq<Run>) {
    |runs| == DEPTH && forall c <- runs[DEPTH - 1].commands :: !c.PushChild?
  }

  // ----- one tick -----

  /**
   Accounts for the time of a tick and decides whether the top script is to run: it is not while
   it is blocked, nor while its input has time left, unless it waits for its first run.
   */
  function Admit(s: State, delta: nat, env: Env): (r: (bool, State))
    requires Wf(s)
    ensures Wf(r.1) && r.1.sp == s.sp
  {
    var (blocked, s1) := CheckBlocked(s, env);
    if blocked then (false, s1)
    else
      var (exhausted, s2) := Consume(s1, delta);
      if !exhausted && !s2.pending then (false, s2)
      else (true, SetCtx(s2.(pending := false), s.sp, Active))
  }

  /**
   Resumes the top script if its input has run out, and whatever finishing it uncovers. True when playback is over.
   */
  function CalcCtx(s: State, delta: nat, env: Env, runs: seq<Run>): (r: (bool, State))
    requires Wf(s) && WfRuns(runs)
    ensures Wf(r.1)
    decreases s.sp
  {
    if !IsValid(s) then (true, RequestAbortAll(s))
    else
      var (resume, s1) := Admit(s, delta, env);
      if !resume then (false, s1)
      else
        var (outcome, s2) := RunCommands(s1, s.sp, runs[s.sp]);
        match outcome
        case Yielded => (false, s2)
        case Cancelled => (true, s2)
        case Failed => (true, RequestAbortAll(s2))
        case Completed =>
          if s.sp == 0 then (true, DiscardTop(SetTop(s2, Unprepare(Top(s2)))))
          else CalcCtx(Pop(s2), 0, env, runs)
  }

  function Tick(s: State, delta: nat, env: Env, runs: seq<Run>): (r: State)
    requires Wf(s) && WfRuns(runs)
    ensures Wf(r)
  {
    var s1 := ProcessAbort(s);
    if !s1.active && !s1.pending then s1
    else
      var (done, s2) := CalcCtx(s1, delta, env, runs);
      if done then s2.(active := false) else s2
  }
}
