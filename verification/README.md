# Verified model of the TAS mod's core

This project models the parts of the mod that keep state or do exact arithmetic, and proves what they
promise over every input and every run.

- **The script scheduler** (`Schedule.dfy`, proofs in `Schedule*.dfy`, the in-place form in `Scheduler.dfy`):
  a stack of twelve suspended scripts, resumed once a frame when their input's time runs out, pushed on
  top of each other, popped when they finish, torn down together on an abort. `Schedule.dfy` is the state
  machine as a function; `Scheduler.dfy` is the code's own form, globals and an array updated in place,
  each method proved equal to the function. What a script does when it is resumed is a parameter: a list
  of calls it would make and how it ends; runs of the scheduler are made of pushes, pushes that fail before they
  have a module, ticks and pauses from outside. Suspending, aborting and finishing a context follow the script
  engine's own rules (a suspend or abort requested by a call takes effect when that call returns). The proofs:
  what holds between ticks (`ScheduleInvariants.dfy`), who pays for a tick's time and what input the game sees
  (`ScheduleTime.dfy`, pushes included), what an interrupted script gets back (`ScheduleRestore.dfy`), where modules go
  (`ScheduleLedger.dfy`) and what sharing one does (`ScheduleShared.dfy`), scripts left behind
  (`ScheduleLiveness.dfy`), what a script's calls write and what of it the game sees (`ScheduleInput.dfy`), pauses and
  awaits and which ticks count (`ScheduleAwait.dfy`), frame advance (`ScheduleAdvance.dfy`) and the drift of playback (`SchedulePlayback.dfy`).
- **The WebSocket side** (`WebSocketFrame.dfy`, `SendQueue.dfy`, `Receive.dfy`, `Handshake.dfy`): the byte
  ring that queues frames, their headers, the receive loop that unmasks client messages, and the accept key.
- **SHA-1 and base64** (`Sha1.dfy`, `Sha1Calc.dfy`, `Base64.dfy`) against FIPS 180-4 and RFC 4648.
- **The recorder and the transpiler** (`InputRuns.dfy`, `Recording.dfy`, `NxTasText.dfy`, `RecordText.dfy`,
  `Record.dfy`, `Transpile.dfy`, `CallText.dfy`, `RoundTrip.dfy`): sampled input to runs, runs to text, text back to
  runs, runs to a script, the script read back by a reader of its own, and the two ends joined.
- **The heap listing** (`HeapWalk.dfy`): a tree walk that uses only parent, child and sibling links.
- **The gamedata index** (`HashIndex.dfy`, `IndexFiling.dfy`, `Ingest.dfy`): entries by hash, their keys and types, and the
  member/owner relation.

`Basics.dfy` holds what several of these share. `dafny verify dfyconfig.toml` checks everything. Nothing here runs the mod.

## What does not hold

Where a property one would expect is false of the code, the code is kept and the exact condition is proved.

- An abort that is processed while a push is pending never ends: the scheduler aborts again on every tick,
  and no sequence of pushes, failed pushes, ticks and pauses leads out (`DoomedForever`). Two requests are enough to
  get there (`DoomedIsReachable`): a script is queued, and a second one does not build or has no entry point.
  `DoomedEntryIff` gives every way in.
- Popping a script frees a module its parent still uses exactly when no frame further down uses it
  (`PopDanglesIff`): the scan for other users stops one frame short. Queueing one script twice is enough
  (`DanglingIsReachable`). If frames that share a module are kept at least two apart it never happens, over whole
  runs (`SharingApartIsSafe`).
- An abort frees a module once for each frame that holds it, so more than once exactly when two do
  (`AbortFreesTwiceIff`).
- A script can be left on the stack with nothing to ever resume it: exactly when none has started playback, and the
  queued one, and any that finish after it, do nothing but begin, step or end frame advance until the tick comes to
  one that a pause blocks, DebugPause or the loading pause (`TickStallsIff`, `NeverStallsIff` for whole runs). DebugPause
  may be one that frame advance has set itself: the condition follows it, and the stepped time left, from script to
  script. A stalled script stays so through all ticks and pauses (`StalledStays`). Two queued scripts stall from the
  start (`StartIsSettled`) under either pause, or with none when the upper one begins frame advance
  (`StallIsReachable`); none ever does while nothing pauses the game and no script
  uses frame advance (`UnpausedNeverStalls`).
- During frame advance the game is paused or has time left to run, unless a request from outside lifts the pause while
  no step is due; `OpAdvances` says that nothing else does it. The balance of stepped time holds in any case
  (`StepTimeIsConserved`).
- An await also ends, without the script being resumed, when it is for the very pause that blocks the script; and one
  that comes true while another pause blocks the script does not end (`AwaitEndsExactly`, `RequestIsOver`).
- Of two lines of the gamedata sources that give one hash two keys the later one stays; `Indexed` says whose key every
  entry has.
- The transpiler counts a line before it compares it, so every run but the last plays one frame too long; the
  script plays its source exactly when the input never changes (`PlaysSourceIff`). The repository's own list
  of known bugs suspects "an extra frame for each input" when re-recording; `RecordingTranspiles` counts them.
- A recording that is one single run writes no lines at all (`EveryRunHasLinesIff`), and the last run's
  labels start one frame early (`LastRunRepeatsALabel`).
- The transpiler's last terminator lands nine places past its text. It misses a buffer of exactly the size the code is
  told, which is what its caller passes, if and only if some prefix of the calls due, behind the header, ends in the
  last eight places below the limit (`TerminatorMissesIff`); a well-formed source that does this, and fits its own
  buffer, exists (`TerminatorMissesBuffer`).
- The heap listing cuts its indentation inside its 65 characters exactly when the tree has at most sixteen levels below
  the root (`IndentFitsIff`).
- The server's frame header is not the shortest form for a payload of exactly 65535 bytes (`HeaderIsMinimalIff`).
- SHA-1 padding keeps only the low 32 bits of the message's bit count, so it is the standard's exactly for
  messages shorter than 2^29 bytes (`PaddingIsStandardIff`).
- The sender reads back the size of a frame exactly when that size needs at most 32 bits (`SizeOfFrameIff`).
- A client's messages are delivered exactly when each of them has at least eight bytes (`StreamIsDeliveredIff`); a
  shorter one that arrives alone is read and lost (`LoneMessageIff`).
- The names written for entries of the gamedata index tell them apart exactly when no known key is spelled like the
  hash of an entry without a key (`NamesDifferIff`); "0x5" as a key and an unknown hash 5 are the example
  (`NamesCanCollide`).
- The send queue skips one-character messages; `Wire` says which messages reach the socket.

## Model

| member | source | states |
|---|---|---|
| ScheduleInvariants.ReachableIsSound | src/program/script/schedule.cpp:216-289 | After any sequence of pushes (with room), failed pushes, ticks and pauses from the start, frames 0..top hold scripts that can be resumed or the stack is empty, every other frame is unused, and no context is left running; or an abort is waiting |
| ScheduleInvariants.TickKeepsSound | src/program/tas/Playback.cpp:15-31 | A tick keeps a scheduler in order, whatever its scripts do, unless it ends with an abort waiting |
| ScheduleInvariants.PushKeepsSound | src/program/script/schedule.cpp:369-439 | A deferred push with room keeps the scheduler in order or leaves an abort waiting, on any sound state |
| ScheduleInvariants.RunKeepsStack | src/program/script/schedule.cpp:240-285 | However a resumed script ends, frames under its own are untouched, and its own frame and the ones above are left as that ending requires |
| ScheduleInvariants.BenignTickIsHealthy | src/program/script/schedule.cpp:216-289 | The scheduler never aborts of its own accord: with scripts that neither throw nor abort, a healthy scheduler stays healthy through any tick |
| ScheduleInvariants.AbortRecoversIff | src/program/script/schedule.cpp:489-511 | Processing an abort restores a healthy, empty scheduler if and only if no push was pending |
| ScheduleInvariants.DoomedEntryIff | src/program/script/schedule.cpp:291-439 | The unrecoverable state is entered exactly by a push that fails behind a pending one, to be read, to build or for want of an entry point, or by a successful push behind a waiting abort |
| ScheduleInvariants.DoomedForever | src/program/script/schedule.cpp:489-511 | No sequence of pushes, failed pushes, ticks and pauses leads out of the unrecoverable state |
| ScheduleInvariants.DoomedIsReachable | src/program/script/schedule.cpp:326-439 | A queued script and a second request that fails, to build or for want of an entry point, reach the unrecoverable state from a fresh start |
| ScheduleTime.AdmitCharges | src/program/script/schedule.cpp:147-214 | One pass takes the whole delta or nothing from one frame, the one a pending push interrupted with time left or else the top one; no other time changes, and the clock moves by the delta or not at all |
| ScheduleTime.BelowUnchanged | src/program/script/schedule.cpp:216-289 | After that charge, however many scripts a tick pops, frames under the last one resumed keep everything, every frame popped had no time left, one popped to with time left keeps its time and input, and a running clock does not move again |
| ScheduleTime.TickChargesOnce | src/program/script/schedule.cpp:147-214 | Each tick's delta is taken from at most one frame, at most once, before any script runs; after it no pop charges anything, a frame popped to with time left included, and a script with time left is not resumed unless it waits for its first run |
| ScheduleTime.StopsAtTimeLeft | src/program/script/schedule.cpp:226-238 | A pass with no time to spend stops at a script that has time left, and leaves its time and its input as they were |
| ScheduleTime.QuietTick | src/program/tas/Playback.cpp:143-201 | If no script schedules input, a tick leaves the effective input (buttons, sticks, gyro, mode) unchanged, or, after popping to an interrupted script with time left, exactly what that script held |
| ScheduleTime.QuietStep | src/program/script/schedule.cpp:390-400 | The same for every operation on an occupied stack: a push hands on the input of the script it interrupts, so the game sees no gap |
| ScheduleRestore.InterruptedKeeps | src/program/script/schedule.cpp:390-400 | Over any run during which the stack stays above it, an interrupted frame keeps all it held, and its time apart from what the tick took in which the interrupting script first ran |
| ScheduleRestore.RestoredOnReturn | src/program/script/schedule.cpp:257-268 | When the last script above it finishes, an interrupted script with time left is back with exactly the input it held and at most that one tick taken from its time |
| ScheduleLedger.PushLedger | src/program/script/schedule.cpp:402-430 | A push stores its module exactly once, or not at all when its slot is taken |
| ScheduleLedger.DiscardKeepsLedger | src/program/script/schedule.cpp:461-478 | With distinct modules, a discard moves the module from its frame to the discarded ones |
| ScheduleLedger.ProcessAbortKeepsLedger | src/program/script/schedule.cpp:489-511 | Processing an abort discards every stored module once and keeps none |
| ScheduleLedger.EveryModuleOnce | src/program/script/schedule.cpp:461-511 | Over any run with distinct modules, each pushed module ends up stored in one frame or discarded once, and no frame refers to a discarded module |
| ScheduleLedger.PopDanglesIff | src/program/script/schedule.cpp:461-478 | A pop frees a module still in use below if and only if the parent uses it and no frame further down does |
| ScheduleShared.AbortFreesTwiceIff | src/program/script/schedule.cpp:489-511 | Processing an abort frees a module more than once if and only if two frames hold it |
| ScheduleShared.SharingApartIsSafe | src/program/script/schedule.cpp:461-511 | Over any run in which frames that share a module are at least two apart, aborts included, no frame refers to a freed module; and if nothing aborts no module is freed twice |
| ScheduleShared.DanglingIsReachable | src/program/script/schedule.cpp:461-478 | From the start: one script queued twice, the second run ending at once while the game loads, leaves the first on the stack with its module freed |
| ScheduleAdvance.TickAdvances | src/program/script/schedule.cpp:165-196 | During frame advance every tick keeps requested = counted down + remaining, and keeps the game paused or with bypass time left |
| ScheduleAdvance.StepTimeIsConserved | src/program/tas/Playback.cpp:233-271 | Over a whole frame-advance session, outside pauses included, all requested step time, below 2^32 in all, is counted down or still to run; the counter never underflows |
| ScheduleAdvance.OpAdvances | src/program/script/schedule.cpp:165-196 | One operation ends the state in which the game is paused or has time left to run if and only if it is a request from outside that lifts the pause while no step is due |
| ScheduleAdvance.StaysHeld | src/program/script/schedule.cpp:165-196 | Over any run without such a request, frame advance keeps the game paused or with time left to run |
| SchedulePlayback.ResumesWhenSpent | src/program/script/schedule.cpp:199-214 | A playing script is resumed on exactly the first tick whose delta reaches its remaining time |
| SchedulePlayback.DriftIsBounded | src/program/script/schedule.cpp:199-214 | From any playing state, with frames of any length up to a bound, the clock never falls behind the schedule and gains less than one frame for each input that ends |
| SchedulePlayback.PlaybackDrift | src/program/tas/Playback.cpp:143-185 | The same from a fresh push, over any inputs in any mode with any buttons and sticks, and any ticks |
| SchedulePlayback.EvenFramesDoNotDrift | src/program/tas/Playback.cpp:143-185 | With equal frames that divide every input, the clock keeps exactly to the schedule |
| ScheduleLiveness.CalcCtxStallsIff | src/program/script/schedule.cpp:216-289 | Before playback has begun, one pass leaves a script behind if and only if it comes, through scripts that do nothing but begin, step or end frame advance, to one that a pause blocks, with DebugPause and the stepped time as frame advance and those scripts have left them |
| ScheduleLiveness.TickStallsIff | src/program/script/schedule.cpp:71-115 | From any healthy state: a tick leaves a script no later tick looks at if and only if there was one, or the queued script, none having started playback, does nothing and the tick gets stuck at a blocked one under it |
| ScheduleLiveness.ReachableIsSettled | src/program/script/schedule.cpp:147-214 | What the stall results assume, that before playback has begun no script has time left and none waits for a pause, holds in every state reached |
| ScheduleLiveness.NeverStallsIff | src/program/script/schedule.cpp:216-289 | Over any run, frame advance included, no script is ever stalled if and only if none is at the start and no tick leaves one behind |
| ScheduleLiveness.UnpausedNeverStalls | src/program/script/schedule.cpp:216-289 | Over any run without frame advance in which nothing pauses the game, no script on the stack is ever stalled |
| ScheduleLiveness.StalledStays | src/program/script/schedule.cpp:216-225 | A stalled scheduler stays exactly as it is through any ticks and pauses, until something is pushed |
| ScheduleLiveness.StallIsReachable | src/program/script/schedule.cpp:71-196 | From the start: two queued scripts that do nothing and one tick under DebugPause, under the loading pause, or under neither when the upper script begins frame advance, stall |
| ScheduleInput.InputPlays | src/program/tas/Playback.cpp:149-201 | A scaled input call holds exactly its own: each stick in its place, its mode, its buttons with each axis button added if and only if the stick passes 16400 that way, the gyro as it was, all zeros for a sleep; for duration times rate; and it suspends if and only if that is more than nothing |
| ScheduleInput.UnscaledInput | src/program/tas/Playback.cpp:149-201 | Without a rate an input call changes at most the mode, and does not suspend |
| ScheduleInput.StepAdds | src/program/tas/Playback.cpp:245-263 | A step begins frame advance if it is off and adds exactly its scaled time, modulo 2^32 |
| ScheduleInput.RunWrites | src/program/tas/Playback.cpp:93-231 | After a run a script's frame is as the calls up to the first that stops it leave it: the last gyro sample, pause choices and input each win, an await sets only its own field |
| ScheduleInput.PushWrites | src/program/script/schedule.cpp:369-439 | A push fails if and only if it has no entry point; otherwise the new frame minds DebugPause as the caller says and loading always, has nothing left over, counts at 30 a second and shows what was shown |
| ScheduleInput.TickWrites | src/program/script/schedule.cpp:216-289 | When a tick ends with a script resting on an input or an await, that script is on top and its frame is exactly as its calls since it was resumed left it, however many scripts finished above it |
| ScheduleInput.TickPlays | src/program/script/schedule.cpp:240-285 | If the last script resumed in a tick rests on an input call, the game gets exactly that call's sticks, buttons and mode, with the last gyro sample set, for that call's time |
| ScheduleAwait.AwaitsEnd | src/program/script/schedule.cpp:28-69 | A look at the top script ends an awaited target if and only if nothing holds the script back, an awaited request also when it is for the pause that does, and changes nothing else |
| ScheduleAwait.ConsumesExactly | src/program/script/schedule.cpp:162-211 | In each case of frame advance: whether a tick is charged, to which frame, and whether the clock moves |
| ScheduleAwait.ResumesExactly | src/program/script/schedule.cpp:71-115 | The top script is resumed if and only if it was just pushed, or no pause it minds is on, no awaited request or target differs from what is awaited, and the tick uses up its time |
| ScheduleAwait.TickAwaits | src/program/tas/Playback.cpp:93-131 | A script that rests on an await then awaits exactly the pause, target or request, and the value the call names |
| ScheduleAwait.WaitsUntilAsAwaited | src/program/script/schedule.cpp:28-69 | Over any run, with scripts pushed above it too, a script that awaits a pause is not resumed before the first tick on which that pause is as awaited, and goes on waiting until then |
| ScheduleAwait.AwaitEndsExactly | src/program/script/schedule.cpp:71-115 | On top, a waiting script is resumed if and only if the pause is as awaited and none blocks it, with its await ended |
| ScheduleAwait.ReachableIsFresh | src/program/script/schedule.cpp:117-130 | Over any run, a script that waits for its first run has no time, input or await left over in its frame |
| SchedulerImpl.Scheduler.constructor | src/program/script/schedule.cpp:132-137 | The globals start in the model's initial state |
| SchedulerImpl.Scheduler.IsBlockedFromScheduling | src/program/script/schedule.cpp:71-115 | In place: blocked or not, with finished awaits cleared, as the state machine has it |
| SchedulerImpl.Scheduler.CalcAwaits | src/program/script/schedule.cpp:28-69 | An await on a request or target ends exactly when the pause is as awaited; the script is held back if and only if one of its awaits is not |
| SchedulerImpl.Scheduler.CalcFrameAdvance | src/program/script/schedule.cpp:165-196 | In place: how DebugPause and the bypass counter move in each case of frame advance |
| SchedulerImpl.Scheduler.CalcConsumeFrametimeQueryIsInputExhausted | src/program/script/schedule.cpp:147-214 | In place: which frame pays for a tick, and whether its input is used up |
| SchedulerImpl.Scheduler.IsSharedBelow | src/program/script/schedule.cpp:469-475 | The loop finds a frame using the module if and only if there is one among those it looks at |
| SchedulerImpl.Scheduler.TryDiscardLastModuleForPop | src/program/script/schedule.cpp:461-478 | In place: the top module leaves its frame and is freed unless the scan finds another user |
| SchedulerImpl.Scheduler.PushExecModuleEntryPoint | src/program/script/schedule.cpp:369-439 | In place: the whole new state after a deferred push, its failures included |
| SchedulerImpl.Scheduler.AbortStackReq | src/program/script/schedule.cpp:480-487 | In place: every suspended context is aborted and the request noted |
| SchedulerImpl.Scheduler.AbortStackImpl | src/program/script/schedule.cpp:489-511 | In place: the loop over the frames clears them all and frees their modules in stack order |
| SchedulerImpl.Scheduler.SetCurrentInput | src/program/tas/Playback.cpp:143-201 | In place: the frame then holds exactly the call's input for its scaled time, and the script is suspended if and only if that is more than nothing |
| SchedulerImpl.Scheduler.BeginFrameAdvance | src/program/tas/Playback.cpp:233-243 | In place: a new session starts from zero, a running one continues; the game is paused |
| SchedulerImpl.Scheduler.StepFrameAdvance | src/program/tas/Playback.cpp:245-263 | In place: the scaled step is added to the 32-bit bypass counter |
| SchedulerImpl.Scheduler.Serve | src/program/tas/Playback.cpp:93-271 | In place: what each call of a running script changes and whether it stops the script |
| SchedulerImpl.Scheduler.Execute | src/program/script/schedule.cpp:240-285 | In place: the calls of a resumed script are served until one stops it or it ends |
| SchedulerImpl.Scheduler.PopFrame | src/program/script/schedule.cpp:251-269 | In place: a finished script is released and its parent takes over, with its input if the parent has no time left |
| SchedulerImpl.Scheduler.CalcStack | src/program/script/schedule.cpp:216-289 | The loop over the stack refines the recursive tick; it ends because every further pass is one frame lower |
| SchedulerImpl.Scheduler.Calc | src/program/tas/Playback.cpp:15-31 | The frame hook as a whole refines one tick of the state machine |
| WebSocketFrame.SizeOfFrameIff | src/program/server/WebSocket.cpp:54-61 | The size read back from a written header is that of the frame if and only if the frame is shorter than 2^32 bytes |
| WebSocketFrame.FrameIsRfc | src/program/server/WebSocket.cpp:29-52 | A receiver following section 5.2 of RFC 6455 gets back the payload of every frame the server writes |
| WebSocketFrame.HeaderIsMinimalIff | src/program/server/WebSocket.cpp:16-27 | No shorter header makes a receiver following RFC 6455 accept the same payload, if and only if the payload is not 65535 bytes |
| SendQueueImpl.SendQueue.EnqueueText | src/program/server/WebSocket.cpp:93-125 | With room, an enqueue appends the text itself, or a single space if there is none, to the messages waiting, loses none, and never makes the queue look empty, wrapping included; what was sent and what waits stay exactly the texts passed in |
| SendQueueImpl.SendQueue.GetNextFrameForEnqueue | src/program/server/WebSocket.cpp:93-104 | The frame goes at the head or, after the rest of the buffer is zeroed, at the start; nothing before the head changes |
| SendQueueImpl.SendQueue.SendNext | src/program/server/WebSocket.cpp:127-193 | One round sends the oldest message and moves past it, or moves past the zeroed remainder without losing anything |
| SendQueueImpl.SendQueue.FlushSendQueueBlocking | src/program/server/WebSocket.cpp:178-193 | A flush ends with an empty queue and, after any interleaving of enqueues and flushes with room, has sent exactly the frames of the texts passed in that have two characters or more, in order and byte for byte, across wraps |
| SendQueueImpl.AppendsAtHead | src/program/server/WebSocket.cpp:106-125 | A frame written at the head, short of what still waits, keeps the ring whole with the message last, and head and tail apart |
| SendQueueImpl.AppendsAtStart | src/program/server/WebSocket.cpp:93-125 | The same for a frame that wraps: the zeroed rest of the buffer marks where the first part ends |
| SendQueueImpl.ChainSnoc | src/program/server/WebSocket.cpp:106-125 | Appending a frame behind a chain of aligned frames gives the chain with that message last |
| ReceiveImpl.MaskedTwice | src/program/server/WebSocket.cpp:285-289 | Masking twice with one key gives the payload back |
| ReceiveImpl.MaskedBits | src/program/server/WebSocket.cpp:285-289 | Each bit of a masked octet is set if and only if payload and key differ there, with the four octets of the key taken in turn |
| ReceiveImpl.HelloIsStandard | src/program/server/WebSocket.cpp:238-289 | The client frame modelled for "Hello" is the example of section 5.7 of RFC 6455, byte for byte |
| ReceiveImpl.ClientHeader | src/program/server/WebSocket.cpp:238-262 | The server finds the length, the mask and the payload where a client following sections 5.2 and 5.3 of RFC 6455 put them |
| ReceiveImpl.StreamIsDeliveredIff | src/program/server/WebSocket.cpp:233-293 | A sequence of masked client messages is delivered in order and unmasked, without a copy past the end of one, if and only if each has at least eight bytes |
| ReceiveImpl.LoneMessageIff | src/program/server/WebSocket.cpp:238-268 | A message alone on the wire is delivered if and only if it has at least eight bytes, and otherwise nothing is |
| ReceiveImpl.Connection.Unmask | src/program/server/WebSocket.cpp:285-289 | In place, back to front: the whole buffer is masked as section 5.3 says |
| ReceiveImpl.Connection.RecvPayload | src/program/server/WebSocket.cpp:264-283 | The payload is put together from what the header read already took and the rest of the wire |
| ReceiveImpl.Connection.RecvNoblockAndProc | src/program/server/WebSocket.cpp:233-293 | The loop hands on exactly the messages on the wire, in order, and stops at the first that is not there |
| HandshakeImpl.AcceptKey | src/program/server/WebSocket.cpp:395-410 | The accept key is base64 of the SHA-1 of the client's key and the fixed identifier, as section 4.2.2 of RFC 6455 asks, for every key the parser can return |
| Sha1Impl.MacroIsRound | src/lib/sha1.hpp:69-77 | One pass of the round macro is one round of FIPS 180-4 |
| Sha1Impl.FuncIsLogical | src/lib/sha1.hpp:79-107 | The three bit tricks used for the round functions are Ch, Parity and Maj |
| Sha1Impl.InnerHash | src/lib/sha1.hpp:59-116 | In place: expanding and compressing one block of the word buffer is the standard's hash step |
| Sha1Impl.LoadBlock | src/lib/sha1.hpp:146-160 | Sixteen words are loaded big-endian from the message |
| Sha1Impl.CalcTail | src/lib/sha1.hpp:163-177 | The last one or two blocks are the padded rest of the message, including when the length needs a block of its own |
| Sha1Impl.StoreHash | src/lib/sha1.hpp:179-183 | The five words are written out big-endian, back to front |
| Sha1Impl.Calc | src/lib/sha1.hpp:127-184 | The streaming code leaves the standard's digest of the message padded with the low 32 bits of its length |
| Sha1Impl.PaddingIsStandardIff | src/lib/sha1.hpp:163-177 | The padding is that of FIPS 180-4 section 5.1.1 if and only if the message is shorter than 2^29 bytes |
| Sha1Impl.CalcIsSha1 | src/lib/sha1.hpp:127-184 | For every message shorter than 2^29 bytes the result is its SHA-1 |
| Base64Impl.Rfc4648Length | src/lib/base64.hpp:66-112 | The encoding of n bytes has 4*ceil(n/3) characters |
| Base64Impl.StandardExamples | src/lib/base64.hpp:66-112 | Examples of section 10 of RFC 4648, and the last two digits of its alphabet |
| Base64Impl.Encode | src/lib/base64.hpp:66-112 | The three-character buffer loop computes RFC 4648 section 4, padding included |
| Base64Impl.Decode | src/lib/base64.hpp:131-174 | The four-character buffer loop decodes the accepted prefix, although missing sextets are filled with 255 |
| Base64Impl.RoundTrip | src/lib/base64.hpp:66-174 | Decoding an encoding gives the bytes back, for every byte string |
| HeapWalkImpl.HeapInfo | src/program/script/globals.cpp:144-190 | The walk by links alone lists the recursive preorder with the right depths, and ends |
| HeapWalkImpl.IndentFitsIff | src/program/script/globals.cpp:150-165 | Every write to the indentation text is inside its 65 characters if and only if the tree has at most sixteen levels below the root |
| HeapWalkImpl.WalkListsOnce | src/program/script/globals.cpp:144-190 | No heap of a well-linked tree is listed twice |
| InputRuns.RunsAreRuns | src/program/script/schedule.cpp:626-661 | Joining equal neighbours gives runs that expand to the same frames, with no two neighbours alike |
| InputRuns.RunsAreUnique | src/program/script/schedule.cpp:626-661 | A list of frames has only one division into runs |
| Recording.HistoryIsKept | src/program/tas/Record.cpp:61-81 | In every reachable recording state, completed runs and accumulator expand to the whole history of samples and their durations add up to the clock, even with a stale accumulator at the start |
| Recording.FinishLeavesNothing | src/program/tas/Record.cpp:104-117 | After the end the completed runs alone are the whole history and nothing is accumulated |
| Recording.RecordsRuns | src/program/tas/Record.cpp:17-81 | A finished recording is the one division of its history into runs of equal input |
| Recording.CompletedLate | src/program/tas/Record.cpp:25-81 | A run is completed when the first sample of the next is already on the clock |
| Recording.LabelRangeIff | src/program/tas/Record.cpp:162-168 | In unsigned arithmetic a run has a line per frame if and only if it has no frame or something was on the clock besides it; the labels are consecutive, otherwise there are none |
| Recording.LosesLessThanAFrame | src/program/tas/Record.cpp:123-168 | Every run completed by a change of input has exactly its whole frames as lines, so n runs lose at most n half-frames at 30 frames a second |
| Recording.LabelsCountUp | src/program/tas/Record.cpp:162-168 | With frames of equal length the labels of those runs are 0, 1, 2, ... without a gap |
| Recording.EveryRunHasLinesIff | src/program/tas/Record.cpp:162-168 | Every run of a finished recording gets its lines if and only if the input changed at least once; otherwise the file is empty |
| Recording.LastRunRepeatsALabel | src/program/tas/Record.cpp:104-168 | The labels of a whole file: counting up from zero through every change, then the last run once more from the label before |
| Recording.FileIsSamples | src/program/tas/Record.cpp:119-168 | With frames of equal length and at least one change of input, the file has one line per sample, in order |
| RecordText.PrintButtons | src/program/tas/Record.cpp:140-160 | The separator-first loop prints the held named buttons in order, or NONE |
| RecordText.LineFits | src/program/tas/Record.cpp:136-168 | Every line fits the 200 characters it is formatted into, so none is cut |
| RecordImpl.Recorder.EmitInput | src/program/tas/Record.cpp:207-216 | The text goes at the offset, nothing else in the file changes, and the offset moves to its end |
| RecordImpl.Recorder.EmitCompletedInput | src/program/tas/Record.cpp:119-168 | The loop appends exactly the lines of the completed run to the file, and the offset stays the file's length |
| RecordImpl.Recorder.CalcCompletedInput | src/program/tas/Record.cpp:70-81 | The accumulated run is completed and the current input takes its place with the remainder |
| RecordImpl.Recorder.Calc | src/program/tas/Record.cpp:25-68 | While recording, a frame adds one sample to the history, and the file still holds the completed runs; otherwise nothing changes |
| RecordImpl.Recorder.BeginDump | src/program/tas/Record.cpp:83-102 | A recording starts with an empty file and history, and whatever input was accumulated last |
| RecordImpl.Recorder.EndDump | src/program/tas/Record.cpp:104-117 | At the end the file holds the lines of every run of the recording |
| RecordImpl.Recorder.ToggleDump | src/program/tas/Record.hpp:107-113 | Toggling begins or ends a recording |
| NxTasText.ScanSigned | src/program/script/schedule.cpp:617-624 | A printed number reads back, whatever its sign |
| NxTasText.OnlyItsOwn | src/program/script/schedule.cpp:597-614 | No earlier test takes a later flag's text, despite KEY_L/KEY_LSTICK and KEY_R/KEY_RSTICK |
| NxTasText.ParseJoined | src/program/script/schedule.cpp:592-615 | Flags joined by semicolons read back as their bits, in any order |
| NxTasText.FlagsInPlace | subrepo/nnheaders/include/nn/hid.h:19-36 | Every flag stands for the button whose place in the game's button word has that name |
| TranspileImpl.ReadLine | src/program/script/schedule.cpp:582-624 | A well-formed line, with spaces wherever they are tolerated, reads as its flags and sticks, and reading stops at its end |
| TranspileImpl.ReadButtons | src/program/script/schedule.cpp:592-615 | The loop over the flag tests computes the flags on the line |
| TranspileImpl.CallsAreStretchedRuns | src/program/script/schedule.cpp:626-669 | The calls are the maximal runs in order, each but the last one frame too long |
| TranspileImpl.CallsDuration | src/program/script/schedule.cpp:626-669 | The script plays the number of lines plus the number of runs less one |
| TranspileImpl.PlaysSourceIff | src/program/script/schedule.cpp:626-669 | The script plays exactly the source's frames if and only if the input never changes |
| TranspileImpl.CountingAfterPlaysSource | src/program/script/schedule.cpp:627-634 | Counting a line after comparing it would play exactly the source's frames, for every source |
| TranspileImpl.AllFitIff | src/program/script/schedule.cpp:643-647 | Every call is written if and only if the whole text stays below the limit |
| TranspileImpl.ScriptFits | src/program/script/schedule.cpp:580-674 | The script is always shorter than the given size, and complete if and only if the complete one is |
| TranspileImpl.ValueTellsButtons | src/program/script/schedule.cpp:643 | The number printed for the buttons determines them |
| TranspileImpl.Transpile | src/program/script/schedule.cpp:559-674 | For every well-formed source the buffer ends up holding the header, the calls that fit (a prefix of those due) and the closing brace, terminated; the last terminator lands nine places past the text |
| CallText.ReadsCall | src/program/script/schedule.cpp:643 | Read by its own grammar, a written call is exactly its duration, its buttons as a number, and its left and right stick in that order |
| CallText.ReadsScript | src/program/script/schedule.cpp:559-674 | Read from header to closing brace, the script is exactly the calls that fit, in order |
| CallText.WholeScriptReads | src/program/script/schedule.cpp:559-674 | A script that is not cut off reads back as the maximal runs of its lines, each but the last one frame longer |
| CallText.ButtonIsSet | src/program/script/schedule.cpp:592-615 | Each of the sixteen places is set in the number a call passes if and only if that button is held |
| TranspileImpl.TerminatorMissesIff | src/program/script/schedule.cpp:643-674 | The last terminator lands outside a buffer of exactly the given size if and only if some prefix of the calls due, behind the header, ends in the last eight places below the limit |
| TranspileImpl.TerminatorMissesBuffer | src/program/script/schedule.cpp:668-674 | A well-formed source, short enough to be read into its buffer, has a script that fits the one its caller passes, header, calls and closing brace, while the last terminator does not |
| RoundTrip.PrintedButtons | src/program/tas/Record.cpp:140-160 | The flags printed are the held buttons masked to the low sixteen bits |
| RoundTrip.LineRoundTrip | src/program/tas/Record.cpp:136-168 | Parsing a recorded line gives the masked buttons and the same four stick values, for every input and label below 2^31 |
| RoundTrip.LabelReads | src/program/tas/Record.cpp:162-168 | The number a recorded line starts with is its label, as the signed number it is printed as |
| RoundTrip.SourceIsWellFormed | src/program/script/schedule.cpp:582-624 | A whole recorded file is a well-formed source whose frames are the recorded lines, masked |
| RoundTrip.RecordingTranspiles | src/program/script/schedule.cpp:559-674 | Recording, then transpiling: the script's calls are the stretched runs of the samples, one extra frame for every change of input |
| HashIndex.JoinSplit | frontend/assets/data/ingest_hashes.py:185-195 | Splitting a dotted key at its dots loses nothing |
| HashIndex.IngestLinksPrefixes | frontend/assets/data/ingest_hashes.py:180-201 | Ingesting a key keeps the index sound, forgets nothing, and adds exactly the links from each non-empty prefix up to a dot to the segment after it |
| HashIndex.IngestFiles | frontend/assets/data/ingest_hashes.py:180-201 | Ingesting a key makes exactly the entries of its segments and prefixes, and its own if it has a type; entries that were there keep their keys, new ones get the text they were made for; its type goes to it and its last segment, and every prefix is a Struct |
| HashIndex.LinkKeeps | frontend/assets/data/ingest_hashes.py:200-201 | Writing both directions of a link keeps members and owners inverse, and adds that link only |
| HashIndex.ReferencesResolve | frontend/assets/data/ingest_hashes.py:137-139 | In a sound index every referenced hash has an entry |
| IngestImpl.NamesTellApart | frontend/assets/data/ingest_hashes.py:204-208 | Where no two entries are written alike, the names written for an entry determine its members and owners |
| IngestImpl.NamesDifferIff | frontend/assets/data/ingest_hashes.py:204-208 | In a sound index no two entries are written alike if and only if no known key is spelled like the hash of an entry without one |
| IngestImpl.NamesCanCollide | frontend/assets/data/ingest_hashes.py:204-208 | A key that reads 0x5 and an unknown hash 5 are written alike |
| IngestImpl.HexReadsBack | frontend/assets/data/ingest_hashes.py:204-208 | A hash written out reads back as its value, in lower-case digits behind 0x |
| IndexFiling.OneMoreRow | frontend/assets/data/ingest_hashes.py:213-326 | One row more keeps what is said of the rows so far: entries, whose key each has, and types |
| IngestImpl.GameDataHashInfo.GetOrCreateEntry | frontend/assets/data/ingest_hashes.py:162-178 | Which entry a hash or key finds or makes, and when the assertions fail, in which case nothing changes |
| IngestImpl.GameDataHashInfo.SetKeyOf | frontend/assets/data/ingest_hashes.py:155-159 | A key is taken if and only if it hashes to the entry |
| IngestImpl.GameDataHashInfo.IngestDottedKeyOf | frontend/assets/data/ingest_hashes.py:181-201 | In place: the loop over the segments; fails only on an unknown type and then changes nothing |
| IngestImpl.GameDataHashInfo.NameEntry | frontend/assets/data/ingest_hashes.py:258-259 | Naming an entry gives it that key and no other entry another, and adds exactly the links of the dotted key |
| IngestImpl.GameDataHashInfo.IngestRow | frontend/assets/data/ingest_hashes.py:254-260 | A row keeps the index sound, even when it fails, and adds exactly the links of its key; when it succeeds its entry has its key, other keys are kept, and the entries and types added are exactly those it asks for |
| IngestImpl.GameDataHashInfo.IngestMember | frontend/assets/data/ingest_hashes.py:241-251 | An indented row adds the link to the open struct and those of its key, and no others; its entry has its key, and the entries and types added are exactly those it asks for |
| IngestImpl.GameDataHashInfo.IngestMrCheeze | frontend/assets/data/ingest_hashes.py:213-260 | Any sequence of lines keeps members and owners inverse and closed, wherever it fails; it succeeds if and only if every line is acceptable, and then the links, entries and types added are exactly those the lines stand for, and every entry has the key of the last line that gives it one, the key it had, or one a line spells |
| IngestImpl.GameDataHashInfo.IngestMcSpazzy | frontend/assets/data/ingest_hashes.py:263-291 | The same for the second source, whose keys have to match their hashes |
| IngestImpl.GameDataHashInfo.IngestMarc | frontend/assets/data/ingest_hashes.py:294-326 | The same for the third source, whose types have to be known |
| IngestImpl.GameDataHashInfo.MapNames | frontend/assets/data/ingest_hashes.py:203-208 | Looking up the hashes of an entry makes no entry and names each once |
| IngestImpl.GameDataHashInfo.OutputJsData | frontend/assets/data/ingest_hashes.py:329-347 | Writing everything out never inserts into the dictionary being iterated, and describes every entry |

## Left out

- EnqueueText: does not say what happens without room, because the code never checks for room and then overwrites waiting messages.
- PushExecModuleEntryPoint: does not say what a push on a full stack does, because the code never checks for room and then writes past its last frame.
- RecvNoblockAndProc: does not say what a message of fewer than eight bytes with more bytes behind it does, because the code then copies more than the message has room for.
- Transpile: is stated for well-formed sources, which the code asks for; what a failed number scan leaves behind is not modelled. The buffer has to have room for the stray terminator, which the code does not check (`TerminatorMissesIff`).
- How a script reacts to what its calls return: a tick takes each script's calls as given, for every possible list of calls.
- Immediate execution of a push from inside a running script, and the nested pass over the stack it starts.
- A thirteenth script: pushes are modelled with room on the stack, which the code does not check.
- Mixing a controller's input into the scripted one, the inclusive and exclusive passthrough modes beyond being held, and gyro values beyond being copied whole.
- Pauses are flags and sets of hashes; the game's reference counts, their names and the pause target bookkeeping are not part of this model.
- The recorder's script output formats and its logger output and mode lines; only the nx-TAS file is modelled.
- Recordings longer than 2^32 sixtieths of a second: the sums are stated below that; the arithmetic itself wraps as coded. A file offset beyond 2^32 is not modelled.
- Numbers beyond 32 bits in a source or a call's duration, which the code's formatting would wrap.
- The early returns while no client is connected, partial reads and writes of sockets, threads and the enqueue lock, and the HTTP request parsing around the accept key.
- Files, heaps and script compilation: a file is its text, a module an identifier; a script is read and built, has no entry point, or fails to be read or built, which is one operation whatever the cause.
- The heap listing's text; only the order and depth of its entries, and where their indentation is cut.
- The hash function of the gamedata index is any function; comments, parsing of the source lines into fields and the order of the output are not modelled.
- Drawing, hotkeys, watchers, colour conversion, symbol maps and the bindings into the game.
