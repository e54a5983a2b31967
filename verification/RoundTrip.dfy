/** Recorded text read back by the transpiler: line by line, file by file, and the script that comes out. */
module RoundTrip {
  import opened Basics
  import opened InputRuns
  import opened NxTasText
  import opened Recording
  import opened RecordText
  import T = TranspileImpl

  /** An input as a line can hold it: only the named buttons, and no others. */
  function Masked(input: FrameInput): FrameInput {
    input.(buttons := input.buttons * NAMED)
  }

  function MaskedAll(inputs: seq<FrameInput>): (masked: seq<FrameInput>)
    ensures |masked| == |inputs|
  {
    seq(|inputs|, i requires 0 <= i < |inputs| => Masked(inputs[i]))
  }

  /** Where in the printer's order a named bit comes. */
  function PrintPlace(b: nat): (k: nat)
    requires b < 16
    ensures k < 16 && PrintedBit(k) == b
  {
    if b < 4 then b else if b < 6 then b + 10 else b - 2
  }

  lemma {:induction false} PressedBits(buttons: set<nat>, k: nat, b: nat)
    requires k <= 16
    ensures b in BitsOf(Pressed(buttons, k)) <==> b in buttons && b < 16 && PrintPlace(b) >= k
    decreases 16 - k
  {
    hide FlagOf, Bit;
    if k < 16 {
      PressedBits(buttons, k + 1, b);
      var ks := Pressed(buttons, k);
      if PrintedBit(k) in buttons {
        BitsCons(ks);
        assert ks[1..] == Pressed(buttons, k + 1);
      }
    }
  }

  /** The flags printed are the named buttons held. */
  lemma PrintedButtons(buttons: set<nat>)
    ensures BitsOf(Pressed(buttons, 0)) == buttons * NAMED
  {
    hide BitsOf, Pressed, PrintPlace;
    forall b: nat ensures b in BitsOf(Pressed(buttons, 0)) <==> b in buttons * NAMED {
      PressedBits(buttons, 0, b);
    }
  }

  /** A recorded line as a line of the source it becomes; a line break before it ends the line above. */
  function AsSourceLine(line: Line, first: bool): T.SourceLine {
    T.SourceLine((if first then "" else "\n") + PrintUnsigned(line.frame) + " ", Pressed(line.input.buttons, 0),
                 " ", line.input.lx, line.input.ly, " ", line.input.rx, line.input.ry)
  }

  function AsSourceLines(lines: seq<Line>, first: bool): (source: seq<T.SourceLine>)
    ensures |source| == |lines|
  {
    if lines == [] then [] else [AsSourceLine(lines[0], first)] + AsSourceLines(lines[1..], false)
  }

  function AsSource(lines: seq<Line>, first: bool): T.Source {
    T.Source(AsSourceLines(lines, first), if lines == [] && first then "" else "\n")
  }

  /** Every label prints as a plain number. */
  predicate PlainLabels(lines: seq<Line>) {
    forall i :: 0 <= i < |lines| ==> lines[i].frame < 0x8000_0000
  }

  lemma {:induction false} DecimalIsDigits(n: nat)
    ensures forall i :: 0 <= i < |Decimal(n)| ==> IsDigit(Decimal(n)[i])
    decreases n
  {
    if n >= 10 { DecimalIsDigits(n / 10); }
  }

  lemma LineIsWellFormed(line: Line, first: bool)
    requires line.frame < 0x8000_0000
    ensures T.WfLine(AsSourceLine(line, first))
    ensures T.LineOf(AsSourceLine(line, first)) == Masked(line.input)
    ensures !first ==> AsSourceLine(line, first).lead[0] == '\n'
    ensures T.SourceLineText(AsSourceLine(line, first)) + "\n" == (if first then "" else "\n") + LineText(line)
  {
    hide BitsOf, Pressed, JoinFlags, Decimal;
    DecimalIsDigits(line.frame);
    PrintedButtons(line.input.buttons);
    var lead := AsSourceLine(line, first).lead;
    assert T.IsLead(lead);
    assert T.IsGaps(" ");
    LineLayout(AsSourceLine(line, first), line, first);
  }

  lemma LineLayout(l: T.SourceLine, line: Line, first: bool)
    requires l == AsSourceLine(line, first) && T.WfLine(l)
    ensures T.SourceLineText(l) + "\n" == (if first then "" else "\n") + LineText(line)
  {
    hide Pressed, JoinFlags, PrintUnsigned, Pair;
    var start := if first then "" else "\n";
    var flags := JoinFlags(l.flags);
    assert T.SourceLineText(l) == l.lead + (flags + T.SticksText(l));
    assert T.SourceLineText(l) + "\n" == start + (PrintUnsigned(line.frame) + " " + (flags + (T.SticksText(l) + "\n")));
    assert LineText(line) == PrintUnsigned(line.frame) + " " + (flags + (T.SticksText(l) + "\n"));
  }

  /** A recorded line, with anything after its line break, parses to the same sticks and the named buttons. */
  lemma LineRoundTrip(line: Line, rest: string)
    requires line.frame < 0x8000_0000
    ensures T.ParseLine(T.SkipLead(LineText(line) + rest)) == Some((Masked(line.input), "\n" + rest))
  {
    hide LineText, T.SourceLineText, T.ParseLine, T.SkipLead, Masked;
    var l := AsSourceLine(line, true);
    LineIsWellFormed(line, true);
    assert T.SourceLineText(l) + "\n" == LineText(line);
    assert LineText(line) + rest == T.SourceLineText(l) + ("\n" + rest);
    T.ReadLine(l, "\n" + rest);
  }

  lemma {:induction false} SourceIsWellFormed(lines: seq<Line>, first: bool)
    requires PlainLabels(lines)
    ensures T.WfSource(AsSource(lines, first))
    ensures T.Frames(AsSource(lines, first)) == MaskedAll(LineInputs(lines))
    ensures T.SourceText(AsSource(lines, first)) == (if first then "" else "\n") + FileText(lines)
    decreases |lines|
  {
    hide LineText, T.SourceLineText, T.LineOf, T.WfLine, Masked, AsSourceLine, T.WfSource, FileText, T.SourceText;
    if lines == [] {
      NoLinesWellFormed(first);
    } else {
      SourceIsWellFormed(lines[1..], false);
      SourceStep(lines, first);
    }
  }

  lemma NoLinesWellFormed(first: bool)
    ensures T.WfSource(AsSource([], first)) && T.Frames(AsSource([], first)) == []
    ensures T.SourceText(AsSource([], first)) == (if first then "" else "\n") + FileText([])
  {
  }

  lemma NextLead(lines: seq<Line>)
    ensures var source := AsSourceLines(lines, false);
            source != [] ==> source[0].lead != "" && source[0].lead[0] == '\n'
  {
  }

  lemma SourceStep(lines: seq<Line>, first: bool)
    requires PlainLabels(lines) && lines != [] && T.WfSource(AsSource(lines[1..], false))
    requires T.Frames(AsSource(lines[1..], false)) == MaskedAll(LineInputs(lines[1..]))
    requires T.SourceText(AsSource(lines[1..], false)) == "\n" + FileText(lines[1..])
    ensures T.WfSource(AsSource(lines, first))
    ensures T.Frames(AsSource(lines, first)) == MaskedAll(LineInputs(lines))
    ensures T.SourceText(AsSource(lines, first)) == (if first then "" else "\n") + FileText(lines)
  {
    hide LineText, T.SourceLineText, T.LineOf, T.WfLine, T.WfSource, T.SourceText, T.Frames, Masked, AsSourceLine,
        FileText, MaskedAll, LineInputs;
    var l, more := AsSourceLine(lines[0], first), AsSourceLines(lines[1..], false);
    LineIsWellFormed(lines[0], first);
    NextLead(lines[1..]);
    assert AsSource(lines[1..], false) == T.Source(more, "\n") && AsSource(lines, first) == T.Source([l] + more, "\n");
    WellFormedCons(l, more);
    MaskedCons(lines);
    TextCons(l, more, lines, first);
  }

  lemma MaskedCons(lines: seq<Line>)
    requires lines != []
    ensures MaskedAll(LineInputs(lines)) == [Masked(lines[0].input)] + MaskedAll(LineInputs(lines[1..]))
  {
    hide Masked;
  }

  lemma TextCons(l: T.SourceLine, more: seq<T.SourceLine>, lines: seq<Line>, first: bool)
    requires T.WfSource(T.Source([l] + more, "\n")) && T.WfSource(T.Source(more, "\n")) && T.WfLine(l) && lines != []
    requires T.SourceText(T.Source(more, "\n")) == "\n" + FileText(lines[1..])
    requires T.SourceLineText(l) + "\n" == (if first then "" else "\n") + LineText(lines[0])
    ensures T.SourceText(T.Source([l] + more, "\n")) == (if first then "" else "\n") + FileText(lines)
  {
    hide LineText, T.SourceLineText, T.WfLine, T.WfSource, T.SourceText, FileText;
    TextUnfolds(l, more);
    FileTextUnfolds(lines);
    Regroup(T.SourceLineText(l), if first then "" else "\n", LineText(lines[0]), FileText(lines[1..]));
  }

  lemma TextUnfolds(l: T.SourceLine, more: seq<T.SourceLine>)
    requires T.WfSource(T.Source([l] + more, "\n")) && T.WfSource(T.Source(more, "\n")) && T.WfLine(l)
    ensures T.SourceText(T.Source([l] + more, "\n")) == T.SourceLineText(l) + T.SourceText(T.Source(more, "\n"))
  {
    hide T.SourceLineText, T.WfLine, T.WfSource;
    assert ([l] + more)[1..] == more;
  }

  lemma FileTextUnfolds(lines: seq<Line>)
    requires lines != []
    ensures FileText(lines) == LineText(lines[0]) + FileText(lines[1..])
  {
    hide LineText;
  }

  lemma Regroup(a: string, start: string, b: string, end: string)
    requires a + "\n" == start + b
    ensures a + ("\n" + end) == start + (b + end)
  {
    assert a + ("\n" + end) == (a + "\n") + end;
    assert start + (b + end) == (start + b) + end;
  }

  lemma WellFormedCons(l: T.SourceLine, more: seq<T.SourceLine>)
    requires T.WfLine(l) && T.WfSource(T.Source(more, "\n"))
    requires more != [] ==> more[0].lead != "" && more[0].lead[0] == '\n'
    ensures T.WfSource(T.Source([l] + more, "\n"))
    ensures T.Frames(T.Source([l] + more, "\n")) == [T.LineOf(l)] + T.Frames(T.Source(more, "\n"))
  {
    hide T.WfLine, T.LineOf;
    assert ([l] + more)[1..] == more;
  }

  // ----- labels -----

  /** The number a recorded line starts with is its label, in the signed 32 bits it is printed with. */
  lemma LabelReads(line: Line, rest: string)
    requires line.frame < U32
    ensures ScanInt(LineText(line) + rest) ==
            Some((if line.frame < 0x8000_0000 then line.frame as int else line.frame as int - U32,
                  " " + InputText(line.input) + "\n" + rest))
  {
    var n := if line.frame < 0x8000_0000 then line.frame as int else line.frame as int - U32;
    var after := " " + InputText(line.input) + "\n" + rest;
    hide ScanInt, Signed, InputText;
    assert LineText(line) + rest == Signed(n) + after;
    ScanSigned(n, after);
  }

  // ----- recording, then transpiling -----

  /**
   A recording with frames of equal length in which the input changes is a well-formed source whose frames are the
   recorded samples, named buttons only; the script made of it plays one frame more for every change of input.
   */
  lemma RecordingTranspiles(stale: FrameInput, history: seq<Call>, current: FrameInput, scale: nat)
    requires 1 <= scale <= 3 && Steady(history, scale) && Durations(history) < 0x8000_0000 &&
             |Runs(Expand(history))| > 1
    ensures var lines := FileLines(Finish(Record(stale, history), current).spans, scale);
            var frames := MaskedAll(Inputs(history));
            && T.WfSource(AsSource(lines, true))
            && T.SourceText(AsSource(lines, true)) == FileText(lines)
            && T.Frames(AsSource(lines, true)) == frames
            && T.Calls(frames) == T.Stretched(Runs(frames))
            && Durations(T.Calls(frames)) == |history| + |Runs(frames)| - 1
  {
    hide T.WfSource, T.SourceText, T.Frames, Record, Expand, Runs, FileLines, Durations, T.Calls, T.Stretched;
    var lines := FileLines(Finish(Record(stale, history), current).spans, scale);
    var frames := MaskedAll(Inputs(history));
    LastRunRepeatsALabel(stale, history, current, scale);
    AtMostSamples(history, scale);
    FileIsSamples(stale, history, current, scale);
    assert PlainLabels(lines);
    SourceIsWellFormed(lines, true);
    assert "" + FileText(lines) == FileText(lines);
    T.CallsAreStretchedRuns(frames);
    T.CallsDuration(frames);
  }

  lemma {:induction false} AtMostSamples(history: seq<Call>, delta: nat)
    requires Steady(history, delta) && delta > 0
    ensures |history| <= Durations(history)
    decreases |history|
  {
    if history != [] { AtMostSamples(history[1..], delta); }
  }
}
