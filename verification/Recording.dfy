/** What the recorder keeps of the inputs it samples, and how completed runs are laid out in frames. */
module Recording {
  import opened InputRuns

  const U32: nat := 0x1_0000_0000

  /** A completed run, and what the recording's clock said when it was completed. */
  datatype Span = Span(clock: nat, call: Call)

  /** The run being accumulated, the clock, and the runs completed so far; times are in 60ths of a second. */
  datatype Recorded = Recorded(acc: FrameInput, accumulated: nat, clock: nat, spans: seq<Span>)

  /** A recording starts with whatever input was accumulated last, but none of its time. */
  function Begin(stale: FrameInput): Recorded {
    Recorded(stale, 0, 0, [])
  }

  function Complete(r: Recorded, next: FrameInput, remainder: nat): Recorded {
    Recorded(next, remainder, r.clock,
             if r.accumulated == 0 then r.spans else r.spans + [Span(r.clock, Call(r.accumulated, r.acc))])
  }

  /** One sample: the input now, and the time since the last one. */
  function Sample(r: Recorded, now: Call): Recorded {
    var t := r.(clock := (r.clock + now.duration) % U32);
    if now.input == t.acc then t.(accumulated := (t.accumulated + now.duration) % U32)
    else Complete(t, now.input, now.duration)
  }

  function Record(stale: FrameInput, history: seq<Call>): Recorded {
    if history == [] then Begin(stale)
    else Sample(Record(stale, history[..|history| - 1]), history[|history| - 1])
  }

  /** Recording stops: what is accumulated is completed. */
  function Finish(r: Recorded, current: FrameInput): Recorded {
    Complete(r, current, 0)
  }

  function CallsOf(spans: seq<Span>): (calls: seq<Call>)
    ensures |calls| == |spans|
  {
    seq(|spans|, i requires 0 <= i < |spans| => spans[i].call)
  }

  /** The runs completed and, if it has any time, the one being accumulated. */
  function AllRuns(r: Recorded): seq<Call> {
    CallsOf(r.spans) + if r.accumulated == 0 then [] else [Call(r.accumulated, r.acc)]
  }

  // ----- nothing sampled is lost -----

  lemma {:induction false} ExpandSnoc(calls: seq<Call>, c: Call)
    ensures Expand(calls + [c]) == Expand(calls) + Repeat(c.input, c.duration)
    ensures Durations(calls + [c]) == Durations(calls) + c.duration
    decreases |calls|
  {
    if calls == [] {
      assert [c][1..] == [] && calls + [c] == [c];
    } else {
      assert (calls + [c])[1..] == calls[1..] + [c];
      ExpandSnoc(calls[1..], c);
    }
  }

  lemma CallsOfSnoc(spans: seq<Span>, s: Span)
    ensures CallsOf(spans + [s]) == CallsOf(spans) + [s.call]
  {
  }

  /** Completing moves the accumulated run to the end of the completed ones. */
  lemma CompletesRun(r: Recorded, next: FrameInput, remainder: nat)
    ensures CallsOf(Complete(r, next, remainder).spans) == AllRuns(r)
  {
    if r.accumulated > 0 { CallsOfSnoc(r.spans, Span(r.clock, Call(r.accumulated, r.acc))); }
  }

  lemma RepeatTwice(input: FrameInput, a: nat, b: nat)
    ensures Repeat(input, a) + Repeat(input, b) == Repeat(input, a + b)
  {
  }

  /** What a recording holds, in two ways: completed runs and accumulator, or all its runs. */
  lemma AllRunsExpand(r: Recorded)
    ensures Expand(AllRuns(r)) == Expand(CallsOf(r.spans)) + Repeat(r.acc, r.accumulated)
    ensures Durations(AllRuns(r)) == Durations(CallsOf(r.spans)) + r.accumulated
  {
    if r.accumulated == 0 {
      assert AllRuns(r) == CallsOf(r.spans);
    } else {
      ExpandSnoc(CallsOf(r.spans), Call(r.accumulated, r.acc));
    }
  }

  lemma SampleKeeps(r: Recorded, now: Call)
    requires Durations(AllRuns(r)) == r.clock && r.clock + now.duration < U32
    ensures Durations(AllRuns(Sample(r, now))) == Sample(r, now).clock == r.clock + now.duration
    ensures Expand(AllRuns(Sample(r, now))) == Expand(AllRuns(r)) + Repeat(now.input, now.duration)
  {
    hide Expand, Durations, AllRuns;
    var s := Sample(r, now);
    AllRunsExpand(r);
    AllRunsExpand(s);
    if now.input == r.acc {
      RepeatTwice(r.acc, r.accumulated, now.duration);
      assert Expand(AllRuns(r)) + Repeat(now.input, now.duration)
          == Expand(CallsOf(r.spans)) + (Repeat(r.acc, r.accumulated) + Repeat(r.acc, now.duration));
    } else {
      CompletesRun(r, now.input, now.duration);
      assert CallsOf(s.spans) == AllRuns(r);
    }
  }

  /**
   In every reachable state the completed runs and the accumulator are the whole history, however stale
   the accumulator was at the start, and the durations add up to the clock.
   */
  lemma {:induction false} HistoryIsKept(stale: FrameInput, history: seq<Call>)
    requires Durations(history) < U32
    ensures var r := Record(stale, history);
            && Expand(CallsOf(r.spans)) + Repeat(r.acc, r.accumulated) == Expand(history)
            && Durations(CallsOf(r.spans)) + r.accumulated == r.clock == Durations(history)
    decreases |history|
  {
    var r := Record(stale, history);
    AllRunsExpand(r);
    KeepsAll(stale, history);
  }

  lemma {:induction false} KeepsAll(stale: FrameInput, history: seq<Call>)
    requires Durations(history) < U32
    ensures var r := Record(stale, history);
            Expand(AllRuns(r)) == Expand(history) && Durations(AllRuns(r)) == r.clock == Durations(history)
    decreases |history|
  {
    hide Sample;
    if history == [] {
      AllRunsExpand(Begin(stale));
    } else {
      var before, now := history[..|history| - 1], history[|history| - 1];
      assert history == before + [now];
      ExpandSnoc(before, now);
      KeepsAll(stale, before);
      SampleKeeps(Record(stale, before), now);
    }
  }

  /** Once finished, the completed runs alone are the whole history and nothing is left over. */
  lemma FinishLeavesNothing(stale: FrameInput, history: seq<Call>, current: FrameInput)
    requires Durations(history) < U32
    ensures var f := Finish(Record(stale, history), current);
            f.accumulated == 0 && Expand(CallsOf(f.spans)) == Expand(history) && Durations(CallsOf(f.spans)) == f.clock
  {
    KeepsAll(stale, history);
    CompletesRun(Record(stale, history), current, 0);
  }

  /** Every sample took time, as the game's frames do. */
  predicate Ticking(history: seq<Call>, delta: nat) {
    forall i :: 0 <= i < |history| ==> history[i].duration >= delta
  }

  predicate Distinct(calls: seq<Call>) {
    && (forall i :: 0 <= i < |calls| ==> calls[i].duration > 0)
    && forall i :: 0 < i < |calls| ==> calls[i - 1].input != calls[i].input
  }

  lemma DistinctSnoc(calls: seq<Call>, c: Call)
    requires Distinct(calls) && c.duration > 0 && (calls != [] ==> calls[|calls| - 1].input != c.input)
    ensures Distinct(calls + [c])
  {
  }

  lemma SampleDistinct(r: Recorded, now: Call)
    requires Distinct(AllRuns(r)) && (r.accumulated == 0 ==> r.spans == [])
    requires now.duration > 0 && r.accumulated <= r.clock && r.clock + now.duration < U32
    ensures var s := Sample(r, now); Distinct(AllRuns(s)) && s.accumulated > 0
  {
    var s := Sample(r, now);
    var done := CallsOf(r.spans);
    if r.accumulated > 0 { assert AllRuns(r) == done + [Call(r.accumulated, r.acc)]; }
    if now.input == r.acc {
      assert AllRuns(s) == done + [Call(r.accumulated + now.duration, r.acc)];
      ButLastDistinct(r);
      DistinctSnoc(done, Call(r.accumulated + now.duration, r.acc));
    } else {
      CompletesRun(r, now.input, now.duration);
      assert AllRuns(s) == AllRuns(r) + [now];
      DistinctSnoc(AllRuns(r), now);
    }
  }

  lemma ButLastDistinct(r: Recorded)
    requires Distinct(AllRuns(r)) && (r.accumulated == 0 ==> r.spans == [])
    ensures var done := CallsOf(r.spans); Distinct(done) && (done != [] ==> done[|done| - 1].input != r.acc)
  {
    var done := CallsOf(r.spans);
    assert forall i :: 0 <= i < |done| ==> done[i] == AllRuns(r)[i];
    if r.accumulated > 0 { assert AllRuns(r)[|done|] == Call(r.accumulated, r.acc); }
  }

  lemma BeginsDistinct(stale: FrameInput)
    ensures Distinct(AllRuns(Begin(stale)))
  {
  }

  lemma {:induction false} RunsAreDistinct(stale: FrameInput, history: seq<Call>)
    requires Durations(history) < U32 && Ticking(history, 1)
    ensures var r := Record(stale, history);
            Distinct(AllRuns(r)) && (r.accumulated == 0 ==> r.spans == [])
    decreases |history|
  {
    hide AllRuns, Distinct, Sample, Expand;
    if history == [] {
      BeginsDistinct(stale);
    } else {
      var before, now := history[..|history| - 1], history[|history| - 1];
      assert history == before + [now];
      ExpandSnoc(before, now);
      RunsAreDistinct(stale, before);
      HistoryIsKept(stale, before);
      SampleDistinct(Record(stale, before), now);
    }
  }

  /** The finished recording is the one division of the history into runs. */
  lemma RecordsRuns(stale: FrameInput, history: seq<Call>, current: FrameInput)
    requires Durations(history) < U32 && Ticking(history, 1)
    ensures CallsOf(Finish(Record(stale, history), current).spans) == Runs(Expand(history))
  {
    hide Expand, Runs, Record, Durations;
    FinishLeavesNothing(stale, history, current);
    RunsAreDistinct(stale, history);
    CompletesRun(Record(stale, history), current, 0);
    RunsAreRuns(Expand(history));
    RunsAreUnique(CallsOf(Finish(Record(stale, history), current).spans), Runs(Expand(history)), Expand(history));
  }

  // ----- frame labels -----

  /** Consecutive numbers. */
  function Count(from: nat, n: nat): (s: seq<nat>)
    ensures |s| == n && forall i :: 0 <= i < n ==> s[i] == from + i
  {
    seq(n, i requires 0 <= i => from + i)
  }

  /** The labels of a run of so many frames that ends one frame before the stamp, in unsigned 32-bit arithmetic. */
  function LabelRange(stamp: nat, frames: nat): seq<nat> {
    var from := (stamp - frames - 1) % U32;
    var to := (stamp - 1) % U32;
    if from < to then Count(from, to - from) else []
  }

  /** A run gets a line for each of its frames, unless it is all there is: then it gets none. */
  lemma LabelRangeIff(stamp: nat, frames: nat)
    requires frames <= stamp < U32
    ensures |LabelRange(stamp, frames)| == frames <==> frames == 0 || frames < stamp
    ensures frames < stamp ==> LabelRange(stamp, frames) == Count(stamp - frames - 1, frames)
    ensures frames >= stamp ==> LabelRange(stamp, frames) == []
  {
  }

  function Labels(s: Span, scale: nat): seq<nat>
    requires 1 <= scale <= 3
  {
    LabelRange(s.clock / scale, s.call.duration / scale)
  }

  /** One line of the file: a frame's label and its input. */
  datatype Line = Line(frame: nat, input: FrameInput)

  /** The lines of one completed run. */
  function RunLines(s: Span, scale: nat): (lines: seq<Line>)
    requires 1 <= scale <= 3
    ensures |lines| == |Labels(s, scale)|
  {
    var labels := Labels(s, scale);
    seq(|labels|, i requires 0 <= i < |labels| => Line(labels[i], s.call.input))
  }

  /** The lines of all completed runs. */
  function FileLines(spans: seq<Span>, scale: nat): seq<Line>
    requires 1 <= scale <= 3
  {
    if spans == [] then [] else FileLines(spans[..|spans| - 1], scale) + RunLines(spans[|spans| - 1], scale)
  }

  // ----- when runs are completed -----

  /** Every run is completed at least so long after it ended. */
  predicate Late(spans: seq<Span>, delay: nat) {
    forall i :: 0 <= i < |spans| ==> Durations(CallsOf(spans[..i + 1])) + delay <= spans[i].clock < U32
  }

  /** Every run is completed exactly so long after it ended. */
  predicate Punctual(spans: seq<Span>, delay: nat) {
    forall i :: 0 <= i < |spans| ==> Durations(CallsOf(spans[..i + 1])) + delay == spans[i].clock < U32
  }

  /** Every sample took exactly so long. */
  predicate Steady(history: seq<Call>, delta: nat) {
    forall i :: 0 <= i < |history| ==> history[i].duration == delta
  }

  /** A run is completed when the first sample of the next one has been counted. */
  lemma {:induction false} CompletedLate(stale: FrameInput, history: seq<Call>, delta: nat)
    requires Durations(history) < U32 && Ticking(history, delta)
    ensures Late(Record(stale, history).spans, delta)
    ensures Steady(history, delta) ==> Punctual(Record(stale, history).spans, delta)
    decreases |history|
  {
    hide Expand, Late, Punctual, Sample;
    if history == [] {
      NoneLate(delta);
    } else {
      var before, now := history[..|history| - 1], history[|history| - 1];
      assert history == before + [now];
      ExpandSnoc(before, now);
      CompletedLate(stale, before, delta);
      HistoryIsKept(stale, before);
      SampleLate(Record(stale, before), now, delta);
    }
  }

  lemma NoneLate(delay: nat)
    ensures Late([], delay) && Punctual([], delay)
  {
  }

  lemma SampleLate(r: Recorded, now: Call, delta: nat)
    requires Durations(CallsOf(r.spans)) + r.accumulated == r.clock && now.duration >= delta &&
             r.clock + now.duration < U32
    ensures Late(r.spans, delta) ==> Late(Sample(r, now).spans, delta)
    ensures Punctual(r.spans, delta) && now.duration == delta ==> Punctual(Sample(r, now).spans, delta)
  {
    hide Late, Punctual, Durations;
    if now.input != r.acc && r.accumulated > 0 {
      SpanSnoc(r.spans, Span(r.clock + now.duration, Call(r.accumulated, r.acc)), delta);
    }
  }

  lemma SpanSnoc(spans: seq<Span>, s: Span, delay: nat)
    requires s.clock < U32
    ensures Late(spans, delay) && Durations(CallsOf(spans)) + s.call.duration + delay <= s.clock ==>
             Late(spans + [s], delay)
    ensures Punctual(spans, delay) && Durations(CallsOf(spans)) + s.call.duration + delay == s.clock ==>
             Punctual(spans + [s], delay)
  {
    hide Durations;
    var all := spans + [s];
    assert all[..|all|] == all;
    CallsOfSnoc(spans, s);
    ExpandSnoc(CallsOf(spans), s.call);
    forall i | 0 <= i < |spans| ensures all[..i + 1] == spans[..i + 1] && all[i] == spans[i] {
    }
  }

  // ----- how many lines each run gets -----

  /** A run completed a whole frame after its end has a line for each of its frames. */
  lemma LateRunLines(s: Span, start: nat, scale: nat)
    requires 1 <= scale <= 3 && start + s.call.duration + scale <= s.clock < U32
    ensures var frames := s.call.duration / scale;
            && frames < s.clock / scale
            && Labels(s, scale) == Count(s.clock / scale - frames - 1, frames)
  {
    LabelRangeIff(s.clock / scale, s.call.duration / scale);
  }

  /** Each run but the one cut short by the end emits exactly its whole frames, and loses less than a frame. */
  lemma {:induction false} LosesLessThanAFrame(spans: seq<Span>, scale: nat)
    requires 1 <= scale <= 3 && Late(spans, scale)
    ensures forall i :: 0 <= i < |spans| ==> |Labels(spans[i], scale)| == spans[i].call.duration / scale
    ensures scale * |FileLines(spans, scale)| <= Durations(CallsOf(spans)) <= scale * |FileLines(spans, scale)| +
             (scale - 1) * |spans|
    decreases |spans|
  {
    hide Late, Labels, Durations;
    if spans == [] {
      assert Durations(CallsOf([])) == 0 by { NoTime(); }
    } else {
      var before, s := spans[..|spans| - 1], spans[|spans| - 1];
      ButLastLate(spans, scale);
      LosesLessThanAFrame(before, scale);
      LateRunLines(s, Durations(CallsOf(before)), scale);
      assert |FileLines(spans, scale)| == |FileLines(before, scale)| + s.call.duration / scale;
      DivisionLoss(s.call.duration, |before|, scale);
      Distributes(scale, |FileLines(before, scale)|, s.call.duration / scale);
      forall i | 0 <= i < |spans| ensures |Labels(spans[i], scale)| == spans[i].call.duration / scale {
        if i < |before| { assert spans[i] == before[i]; }
      }
    }
  }

  lemma NoTime()
    ensures Durations(CallsOf([])) == 0
  {
  }

  lemma Distributes(a: nat, b: nat, c: nat)
    ensures a * (b + c) == a * b + a * c
  {
  }

  lemma DivisionLoss(d: nat, n: nat, scale: nat)
    requires 1 <= scale <= 3
    ensures scale * (d / scale) <= d <= scale * (d / scale) + (scale - 1)
    ensures (scale - 1) * (n + 1) == (scale - 1) * n + (scale - 1)
  {
  }

  lemma ButLastLate(spans: seq<Span>, delay: nat)
    requires spans != [] && Late(spans, delay)
    ensures var before, s := spans[..|spans| - 1], spans[|spans| - 1];
            && Late(before, delay)
            && Durations(CallsOf(spans)) == Durations(CallsOf(before)) + s.call.duration
            && Durations(CallsOf(spans)) + delay <= s.clock < U32
            && (Punctual(spans, delay) ==> Punctual(before, delay) && Durations(CallsOf(spans)) + delay == s.clock)
  {
    hide Durations;
    var n := |spans| - 1;
    assert spans == spans[..n] + [spans[n]] && spans[..n + 1] == spans;
    CallsOfSnoc(spans[..n], spans[n]);
    ExpandSnoc(CallsOf(spans[..n]), spans[n].call);
    forall i | 0 <= i < n ensures spans[..n][..i + 1] == spans[..i + 1] && spans[..n][i] == spans[i] {
    }
  }

  /** Every run takes at least so long, and the accumulator too once something is sampled. */
  predicate AtLeast(r: Recorded, delta: nat) {
    && (forall i :: 0 <= i < |r.spans| ==> r.spans[i].call.duration >= delta)
    && (r.accumulated == 0 || r.accumulated >= delta)
    && (r.accumulated == 0 ==> r.spans == [])
  }

  lemma SampleAtLeast(r: Recorded, now: Call, delta: nat)
    requires AtLeast(r, delta) && now.duration >= delta && r.accumulated + now.duration < U32
    ensures AtLeast(Sample(r, now), delta) || now.duration == 0
    ensures Sample(r, now).accumulated >= now.duration
  {
  }

  lemma {:induction false} RunsAtLeast(stale: FrameInput, history: seq<Call>, delta: nat)
    requires Durations(history) < U32 && Ticking(history, delta) && delta > 0
    ensures var r := Record(stale, history);
            AtLeast(r, delta) && (r.accumulated == 0 <==> history == [])
    decreases |history|
  {
    hide Sample;
    if history != [] {
      var before, now := history[..|history| - 1], history[|history| - 1];
      assert history == before + [now];
      ExpandSnoc(before, now);
      RunsAtLeast(stale, before, delta);
      HistoryIsKept(stale, before);
      SampleAtLeast(Record(stale, before), now, delta);
    }
  }

  /** The last run is completed with no sample of a next one on the clock: it ends where the clock stands. */
  lemma LastRun(stale: FrameInput, history: seq<Call>, current: FrameInput)
    requires Durations(history) < U32 && Ticking(history, 1) && history != []
    ensures var r := Record(stale, history);
            && Finish(r, current).spans == r.spans + [Span(r.clock, Call(r.accumulated, r.acc))]
            && r.clock == Durations(CallsOf(r.spans)) + r.accumulated < U32
  {
    HistoryIsKept(stale, history);
    RunsAtLeast(stale, history, 1);
  }

  /**
   The last run's lines: full, but numbered one frame early, when another run came before; none when it is the only
   one.
   */
  lemma LastRunLines(stale: FrameInput, history: seq<Call>, scale: nat)
    requires Durations(history) < U32 && 1 <= scale <= 3 && Ticking(history, scale) && history != []
    ensures var r := Record(stale, history);
            var last := Span(r.clock, Call(r.accumulated, r.acc));
            && r.clock < U32 && r.accumulated >= scale
            && (r.spans == [] ==> Labels(last, scale) == [])
            && (r.spans != [] ==> r.accumulated / scale < r.clock / scale
                                  && Labels(last, scale) == Count(r.clock / scale - r.accumulated / scale - 1,
                                       r.accumulated / scale))
  {
    hide Record, Expand;
    var r := Record(stale, history);
    HistoryIsKept(stale, history);
    RunsAtLeast(stale, history, scale);
    if r.spans == [] {
      NoTime();
      LabelRangeIff(r.clock / scale, r.accumulated / scale);
    } else {
      AtLeastFirst(r.spans);
      LateRunLines(Span(r.clock, Call(r.accumulated, r.acc)), Durations(CallsOf(r.spans)) - scale, scale);
    }
  }

  lemma AtLeastFirst(spans: seq<Span>)
    requires spans != []
    ensures Durations(CallsOf(spans)) >= spans[0].call.duration
  {
  }

  /** Every run of a finished recording gets its lines exactly when the input changed at least once. */
  lemma EveryRunHasLinesIff(stale: FrameInput, history: seq<Call>, current: FrameInput, scale: nat)
    requires Durations(history) < U32 && 1 <= scale <= 3 && Ticking(history, scale) && history != []
    ensures var spans := Finish(Record(stale, history), current).spans;
            && |spans| == |Runs(Expand(history))|
            && ((forall i :: 0 <= i < |spans| ==> |Labels(spans[i], scale)| == spans[i].call.duration / scale)
                <==> |Runs(Expand(history))| > 1)
            && (|Runs(Expand(history))| == 1 ==> FileLines(spans, scale) == [])
  {
    hide Record, Expand, Runs, Labels, Late, Durations;
    var r := Record(stale, history);
    var spans := Finish(r, current).spans;
    RecordsRuns(stale, history, current);
    LastRun(stale, history, current);
    LastRunLines(stale, history, scale);
    CompletedLate(stale, history, scale);
    LosesLessThanAFrame(r.spans, scale);
    var last := Span(r.clock, Call(r.accumulated, r.acc));
    assert spans == r.spans + [last];
    if r.spans == [] {
      assert |Labels(spans[0], scale)| != spans[0].call.duration / scale;
      assert FileLines([last][..0], scale) == [];
    }
  }

  // ----- frames of equal length -----

  function Inputs(history: seq<Call>): (inputs: seq<FrameInput>)
    ensures |inputs| == |history|
  {
    seq(|history|, i requires 0 <= i < |history| => history[i].input)
  }

  function LineInputs(lines: seq<Line>): (inputs: seq<FrameInput>)
    ensures |inputs| == |lines|
  {
    seq(|lines|, i requires 0 <= i < |lines| => lines[i].input)
  }

  function InFrames(calls: seq<Call>, scale: nat): (frames: seq<Call>)
    requires 1 <= scale <= 3
    ensures |frames| == |calls|
  {
    seq(|calls|, i requires 0 <= i < |calls| => Call(calls[i].duration / scale, calls[i].input))
  }

  lemma InFramesSnoc(calls: seq<Call>, c: Call, scale: nat)
    requires 1 <= scale <= 3
    ensures Expand(InFrames(calls + [c], scale)) == Expand(InFrames(calls, scale)) + Repeat(c.input, c.duration / scale)
  {
    assert InFrames(calls + [c], scale) == InFrames(calls, scale) + [Call(c.duration / scale, c.input)];
    ExpandSnoc(InFrames(calls, scale), Call(c.duration / scale, c.input));
  }

  lemma AllRunsInFrames(r: Recorded, scale: nat)
    requires 1 <= scale <= 3
    ensures Expand(InFrames(AllRuns(r), scale)) == Expand(InFrames(CallsOf(r.spans), scale)) +
             Repeat(r.acc, r.accumulated / scale)
  {
    if r.accumulated == 0 {
      assert AllRuns(r) == CallsOf(r.spans);
    } else {
      InFramesSnoc(CallsOf(r.spans), Call(r.accumulated, r.acc), scale);
    }
  }

  /** Every run takes a whole number of frames. */
  predicate Whole(r: Recorded, scale: nat)
    requires 1 <= scale <= 3
  {
    r.accumulated % scale == 0 && forall i :: 0 <= i < |r.spans| ==> r.spans[i].call.duration % scale == 0
  }

  lemma SampleInFrames(r: Recorded, now: Call, scale: nat)
    requires 1 <= scale <= 3 && now.duration == scale && Whole(r, scale) && r.accumulated + scale < U32
    ensures Expand(InFrames(AllRuns(Sample(r, now)), scale)) == Expand(InFrames(AllRuns(r), scale)) + [now.input]
    ensures Whole(Sample(r, now), scale)
  {
    hide Expand, InFrames, AllRuns;
    var s := Sample(r, now);
    AllRunsInFrames(r, scale);
    AllRunsInFrames(s, scale);
    assert Repeat(now.input, 1) == [now.input];
    OneFrameMore(r.accumulated, scale);
    if now.input == r.acc {
      RepeatTwice(r.acc, r.accumulated / scale, 1);
    } else {
      CompletesRun(r.(clock := (r.clock + now.duration) % U32), now.input, now.duration);
      assert CallsOf(s.spans) == AllRuns(r) by { ClockApart(r, (r.clock + now.duration) % U32); }
    }
  }

  lemma OneFrameMore(d: nat, scale: nat)
    requires 1 <= scale <= 3
    ensures scale / scale == 1 && (d + scale) / scale == d / scale + 1
    ensures (d + scale) % scale == d % scale
  {
  }

  lemma ClockApart(r: Recorded, clock: nat)
    ensures AllRuns(r.(clock := clock)) == AllRuns(r)
  {
  }

  /** With frames of equal length, the runs in frames are the samples one by one. */
  lemma {:induction false} FramesAreSamples(stale: FrameInput, history: seq<Call>, scale: nat)
    requires Durations(history) < U32 && 1 <= scale <= 3 && Steady(history, scale)
    ensures Expand(InFrames(AllRuns(Record(stale, history)), scale)) == Inputs(history)
    ensures Whole(Record(stale, history), scale)
    decreases |history|
  {
    hide Sample, InFrames;
    if history == [] {
      NoFrames(stale, scale);
    } else {
      var before, now := history[..|history| - 1], history[|history| - 1];
      assert history == before + [now];
      ExpandSnoc(before, now);
      FramesAreSamples(stale, before, scale);
      HistoryIsKept(stale, before);
      SampleInFrames(Record(stale, before), now, scale);
    }
  }

  lemma NoFrames(stale: FrameInput, scale: nat)
    requires 1 <= scale <= 3
    ensures Expand(InFrames(AllRuns(Begin(stale)), scale)) == []
    ensures Expand(InFrames(CallsOf([]), scale)) == []
  {
  }

  lemma NoLines(scale: nat)
    requires 1 <= scale <= 3
    ensures LineInputs(FileLines([], scale)) == Expand(InFrames(CallsOf([]), scale)) == []
  {
    assert InFrames(CallsOf([]), scale) == [];
  }

  lemma LinesAreFramesStep(before: seq<Span>, s: Span, scale: nat)
    requires 1 <= scale <= 3 && |Labels(s, scale)| == s.call.duration / scale
    requires LineInputs(FileLines(before, scale)) == Expand(InFrames(CallsOf(before), scale))
    ensures LineInputs(FileLines(before + [s], scale)) == Expand(InFrames(CallsOf(before + [s]), scale))
  {
    hide Labels, Expand, InFrames, CallsOf;
    CallsOfSnoc(before, s);
    InFramesSnoc(CallsOf(before), s.call, scale);
    assert (before + [s])[..|before|] == before;
    assert LineInputs(RunLines(s, scale)) == Repeat(s.call.input, s.call.duration / scale);
    assert FileLines(before + [s], scale) == FileLines(before, scale) + RunLines(s, scale);
  }

  lemma {:induction false} LinesAreFrames(spans: seq<Span>, scale: nat)
    requires 1 <= scale <= 3
    requires forall i :: 0 <= i < |spans| ==> |Labels(spans[i], scale)| == spans[i].call.duration / scale
    ensures LineInputs(FileLines(spans, scale)) == Expand(InFrames(CallsOf(spans), scale))
    decreases |spans|
  {
    hide Labels, Expand, LineInputs, InFrames, CallsOf, FileLines;
    if spans == [] {
      NoLines(scale);
    } else {
      var before, s := spans[..|spans| - 1], spans[|spans| - 1];
      assert spans == before + [s];
      LinesAreFrames(before, scale);
      LinesAreFramesStep(before, s, scale);
    }
  }

  /** With frames of equal length and at least one change of input, the file has one line for each sample, in order. */
  lemma FileIsSamples(stale: FrameInput, history: seq<Call>, current: FrameInput, scale: nat)
    requires Durations(history) < U32 && 1 <= scale <= 3 && Steady(history, scale) && |Runs(Expand(history))| > 1
    ensures LineInputs(FileLines(Finish(Record(stale, history), current).spans, scale)) == Inputs(history)
  {
    hide Record, Expand, InFrames, Labels, FileLines, Runs, Durations;
    var f := Finish(Record(stale, history), current);
    assert history != [] by { if history == [] { NoRuns(); } }
    EveryRunHasLinesIff(stale, history, current, scale);
    LinesAreFrames(f.spans, scale);
    CompletesRun(Record(stale, history), current, 0);
    FramesAreSamples(stale, history, scale);
  }

  lemma NoRuns()
    ensures Runs(Expand([])) == []
  {
  }

  /**
   With frames of equal length, the lines of the runs completed by a change of input count up from zero without a
   gap.
   */
  lemma {:induction false} LabelsCountUp(spans: seq<Span>, scale: nat)
    requires 1 <= scale <= 3 && Late(spans, scale) && Punctual(spans, scale)
    requires forall i :: 0 <= i < |spans| ==> spans[i].call.duration % scale == 0
    ensures Durations(CallsOf(spans)) == scale * |FileLines(spans, scale)|
    ensures forall i :: 0 <= i < |FileLines(spans, scale)| ==> FileLines(spans, scale)[i].frame == i
    decreases |spans|
  {
    hide Late, Punctual, Labels, Durations;
    if spans == [] {
      NoTime();
    } else {
      var before, s := spans[..|spans| - 1], spans[|spans| - 1];
      ButLastLate(spans, scale);
      LabelsCountUp(before, scale);
      LateRunLines(s, Durations(CallsOf(before)), scale);
      var n := |FileLines(before, scale)|;
      Quotients(n, s.call.duration, s.clock, scale);
      assert FileLines(spans, scale) == FileLines(before, scale) + RunLines(s, scale);
    }
  }

  lemma Quotients(n: nat, d: nat, clock: nat, scale: nat)
    requires 1 <= scale <= 3 && d % scale == 0 && clock == scale * n + d + scale
    ensures clock / scale == n + d / scale + 1
    ensures scale * n + d == scale * (n + d / scale)
  {
  }

  /**
   The labels of a whole file: counting up from zero through every change of input, then once back by one,
   so that the last run's first line repeats the label of the line before it.
   */
  lemma LastRunRepeatsALabel(stale: FrameInput, history: seq<Call>, current: FrameInput, scale: nat)
    requires Durations(history) < U32 && 1 <= scale <= 3 && Steady(history, scale) && |Runs(Expand(history))| > 1
    ensures var lines := FileLines(Finish(Record(stale, history), current).spans, scale);
            var n := |FileLines(Record(stale, history).spans, scale)|;
            && 0 < n < |lines| == |history|
            && (forall i :: 0 <= i < n ==> lines[i].frame == i)
            && (forall i :: n <= i < |lines| ==> lines[i].frame == i - 1)
  {
    hide Record, Expand, Labels, Runs, Durations, Late, Punctual, InFrames;
    var r := Record(stale, history);
    assert history != [] by { if history == [] { NoRuns(); } }
    FileIsSamples(stale, history, current, scale);
    EveryRunHasLinesIff(stale, history, current, scale);
    LastRun(stale, history, current);
    LastRunLines(stale, history, scale);
    FramesAreSamples(stale, history, scale);
    CompletedLate(stale, history, scale);
    LabelsCountUp(r.spans, scale);
    var last := Span(r.clock, Call(r.accumulated, r.acc));
    var n := |FileLines(r.spans, scale)|;
    assert (r.spans + [last])[..|r.spans|] == r.spans;
    assert FileLines(r.spans + [last], scale) == FileLines(r.spans, scale) + RunLines(last, scale);
    EndQuotients(n, r.accumulated, r.clock, scale);
    RunsAtLeast(stale, history, scale);
    AtLeastFirst(r.spans);
  }

  lemma EndQuotients(n: nat, d: nat, clock: nat, scale: nat)
    requires 1 <= scale <= 3 && d % scale == 0 && clock == scale * n + d
    ensures clock / scale == n + d / scale
    ensures d >= scale ==> d / scale > 0
    ensures scale * n > 0 ==> n > 0
  {
  }
}
