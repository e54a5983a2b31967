/** The recorder: samples the current input once a frame and writes each completed run to the file as nx-TAS lines. */
module RecordImpl {
  import opened InputRuns
  import opened NxTasText
  import opened Recording
  import opened RecordText

  const NO_INPUT: FrameInput := FrameInput({}, 0, 0, 0, 0)

  class Recorder {
    /** How many 60ths of a second make a frame. */
    const inputFPSMode: nat
    var currentInput: FrameInput
    var accumulatorInput: FrameInput
    var accumulatedInput60: nat
    var accumulatedRecord60: nat
    var isRecordActive: bool
    var file: string
    var useEmitLocalFileOffset: nat
    /** The accumulator when this recording began, what has been sampled since, and the runs completed since. */
    ghost var stale: FrameInput
    ghost var history: seq<Call>
    ghost var spans: seq<Span>

    ghost function View(): Recorded
      reads this
    {
      Recorded(accumulatorInput, accumulatedInput60, accumulatedRecord60, spans)
    }

    /** The file is the lines of the runs completed, and the offset is its end. */
    ghost predicate FileHoldsRuns()
      reads this
    {
      1 <= inputFPSMode <= 3 && useEmitLocalFileOffset == |file| && file == FileText(FileLines(spans, inputFPSMode))
    }

    /** The file holds the lines of the runs completed, and the recorder's state is what its history makes of it. */
    ghost predicate Valid()
      reads this
    {
      && FileHoldsRuns()
      && accumulatedRecord60 < U32
      && (if isRecordActive then View() == Record(stale, history) else accumulatedInput60 == 0)
    }

    constructor (inputFPSMode: nat)
      requires 1 <= inputFPSMode <= 3
      ensures Valid() && this.inputFPSMode == inputFPSMode && !isRecordActive && file == ""
    {
      this.inputFPSMode := inputFPSMode;
      currentInput, accumulatorInput, stale := NO_INPUT, NO_INPUT, NO_INPUT;
      accumulatedInput60, accumulatedRecord60 := 0, 0;
      isRecordActive := false;
      file, useEmitLocalFileOffset := "", 0;
      history, spans := [], [];
    }

    /** The controller's or the playback's input of this frame. */
    method ApplyCurrentInput(src: FrameInput)
      requires Valid()
      modifies this`currentInput
      ensures Valid() && currentInput == src
    {
      hide FileText, FileLines, Record;
      currentInput := src;
    }

    /** Writes at the offset, over or past what is there, and moves the offset on. */
    method EmitInput(line: string)
      requires useEmitLocalFileOffset <= |file|
      modifies this`file, this`useEmitLocalFileOffset
      ensures useEmitLocalFileOffset == old(useEmitLocalFileOffset) + |line| <= |file|
      ensures file[..old(useEmitLocalFileOffset)] == old(file[..useEmitLocalFileOffset])
      ensures file[old(useEmitLocalFileOffset)..useEmitLocalFileOffset] == line
      ensures |file| == if useEmitLocalFileOffset > old(|file|) then useEmitLocalFileOffset else old(|file|)
      ensures file[useEmitLocalFileOffset..] ==
              old(if useEmitLocalFileOffset + |line| <= |file| then file[useEmitLocalFileOffset + |line|..] else "")
    {
      var end := useEmitLocalFileOffset + |line|;
      var rest := if end <= |file| then file[end..] else "";
      file := file[..useEmitLocalFileOffset] + line + rest;
      useEmitLocalFileOffset := end;
    }

    method AppendLine(line: string)
      requires useEmitLocalFileOffset == |file|
      modifies this`file, this`useEmitLocalFileOffset
      ensures useEmitLocalFileOffset == |file| && file == old(file) + line
    {
      EmitInput(line);
      assert file[..] == file;
    }

    /** Writes one line for each frame of a completed run, labelled in unsigned 32-bit arithmetic. */
    method EmitCompletedInput(output: FrameInput, outputDuration60: nat)
      requires 1 <= inputFPSMode <= 3 && useEmitLocalFileOffset == |file|
      modifies this`file, this`useEmitLocalFileOffset
      ensures useEmitLocalFileOffset == |file|
      ensures file == old(file) + if outputDuration60 == 0 then ""
                                  else FileText(RunLines(Span(accumulatedRecord60, Call(outputDuration60, output)),
                                      inputFPSMode))
    {
      hide FileText, RunLines, ButtonsText, PrintUnsigned, Pair, PrintedBit, LabelRange;
      if outputDuration60 == 0 {
        return;
      }
      ghost var s := Span(accumulatedRecord60, Call(outputDuration60, output));
      ghost var lines := RunLines(s, inputFPSMode);
      var frames := outputDuration60 / inputFPSMode;
      var stamp := accumulatedRecord60 / inputFPSMode;
      var buttons := PrintButtons(output.buttons);
      var fr := (stamp - frames - 1) % U32;
      var end := (stamp - 1) % U32;
      ghost var k := 0;
      RunLinesAre(s, inputFPSMode);
      NoText();
      assert lines[..0] == [];
      while fr < end
        invariant k <= |lines| && (fr < end ==> fr + |lines| - k == end) && (fr >= end ==> k == |lines|)
        invariant fr < end ==> fr == (stamp - frames - 1) % U32 + k
        invariant useEmitLocalFileOffset == |file| && file == old(file) + FileText(lines[..k])
        modifies this`file, this`useEmitLocalFileOffset
        decreases end - fr
      {
        var input := buttons + " " + Pair(output.lx, output.ly) + " " + Pair(output.rx, output.ry);
        var line := PrintUnsigned(fr) + " " + input + "\n";
        assert lines[k] == Line(fr, output);
        FileTextSnoc(lines, k);
        AppendLine(line);
        fr, k := fr + 1, k + 1;
      }
      assert lines[..|lines|] == lines;
    }

    method CalcCompletedInput(remainderInit60: nat)
      requires FileHoldsRuns()
      modifies this`accumulatedInput60, this`accumulatorInput, this`file, this`useEmitLocalFileOffset, this`spans
      ensures FileHoldsRuns()
      ensures View() == Complete(old(View()), currentInput, remainderInit60)
    {
      hide FileText, FileLines, RunLines;
      var outputDuration60 := accumulatedInput60;
      var output := accumulatorInput;
      accumulatedInput60 := remainderInit60;
      accumulatorInput := currentInput;
      EmitCompletedInput(output, outputDuration60);
      if outputDuration60 > 0 {
        SpansText(spans, Span(accumulatedRecord60, Call(outputDuration60, output)), inputFPSMode);
        spans := spans + [Span(accumulatedRecord60, Call(outputDuration60, output))];
      }
    }

    /** One frame of the game. */
    method Calc(deltaFrame60: nat)
      requires Valid() && deltaFrame60 < U32
      modifies this
      ensures Valid() && isRecordActive == old(isRecordActive) && currentInput == old(currentInput)
      ensures if isRecordActive then stale == old(stale) && history == old(history) + [Call(deltaFrame60, currentInput)]
              else View() == old(View()) && file == old(file)
    {
      hide FileText, FileLines, Record, Complete;
      if !isRecordActive {
        return;
      }
      ghost var before := history;
      history := before + [Call(deltaFrame60, currentInput)];
      RecordStep(stale, before, Call(deltaFrame60, currentInput));
      accumulatedRecord60 := (accumulatedRecord60 + deltaFrame60) % U32;
      if currentInput == accumulatorInput {
        accumulatedInput60 := (accumulatedInput60 + deltaFrame60) % U32;
        return;
      }
      CalcCompletedInput(deltaFrame60);
    }

    /** Starts over with an empty file; the accumulated input stays what it was. */
    method BeginDump()
      requires Valid()
      modifies this
      ensures Valid() && isRecordActive && file == "" && currentInput == old(currentInput)
      ensures history == [] && stale == old(accumulatorInput)
    {
      hide FileText, FileLines;
      NoRunsText(inputFPSMode);
      accumulatedInput60 := 0;
      accumulatedRecord60 := 0;
      useEmitLocalFileOffset := 0;
      isRecordActive := true;
      file := "";
      EmitInput("");
      stale, history, spans := accumulatorInput, [], [];
    }

    /** Completes what is accumulated: the file then holds every run of the recording. */
    method EndDump()
      requires Valid()
      modifies this
      ensures Valid() && !isRecordActive
      ensures old(isRecordActive) ==> View() == Finish(Record(old(stale), old(history)), old(currentInput))
      ensures !old(isRecordActive) ==> file == old(file)
    {
      hide FileText, FileLines, Record;
      isRecordActive := false;
      CalcCompletedInput(0);
      EmitInput("");
    }

    method ToggleDump()
      requires Valid()
      modifies this
      ensures Valid() && isRecordActive == !old(isRecordActive)
      ensures isRecordActive ==> history == [] && stale == old(accumulatorInput)
      ensures old(isRecordActive) ==> View() == Finish(Record(old(stale), old(history)), old(currentInput))
    {
      if !isRecordActive {
        BeginDump();
      } else {
        EndDump();
      }
    }
  }

  lemma RecordStep(stale: FrameInput, before: seq<Call>, now: Call)
    ensures Record(stale, before + [now]) == Sample(Record(stale, before), now)
  {
    assert (before + [now])[..|before|] == before;
  }

  lemma NoRunsText(scale: nat)
    requires 1 <= scale <= 3
    ensures FileText(FileLines([], scale)) == ""
  {
  }

  lemma NoText()
    ensures FileText([]) == ""
  {
  }

  /** A run's lines are numbered from the first label to the last, if that order holds in unsigned arithmetic. */
  lemma RunLinesAre(s: Span, scale: nat)
    requires 1 <= scale <= 3
    ensures var (from, to) := ((s.clock / scale - s.call.duration / scale - 1) % U32, (s.clock / scale - 1) % U32);
            && |RunLines(s, scale)| == (if from < to then to - from else 0)
            && forall k :: 0 <= k < |RunLines(s, scale)| ==> RunLines(s, scale)[k] == Line(from + k, s.call.input)
  {
  }

  lemma FileTextSnoc(lines: seq<Line>, n: nat)
    requires n < |lines|
    ensures FileText(lines[..n + 1]) == FileText(lines[..n]) + LineText(lines[n])
  {
    hide LineText;
    assert lines[..n + 1] == lines[..n] + [lines[n]];
    FileTextConcat(lines[..n], [lines[n]]);
    assert [lines[n]][1..] == [];
    assert FileText([lines[n]]) == LineText(lines[n]) + "";
  }

  lemma SpansText(spans: seq<Span>, s: Span, scale: nat)
    requires 1 <= scale <= 3
    ensures FileText(FileLines(spans + [s], scale)) == FileText(FileLines(spans, scale)) + FileText(RunLines(s, scale))
  {
    assert (spans + [s])[..|spans|] == spans;
    FileTextConcat(FileLines(spans, scale), RunLines(s, scale));
  }
}
