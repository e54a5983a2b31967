/** Recorded nx-TAS text turned into a script: frames are read line by line and equal ones joined into one call. */
module TranspileImpl {
  import opened Basics
  import opened InputRuns
  import opened NxTasText

  // ----- what the code emits -----

  /** The calls emitted for the rest of the lines, with the input accumulated so far. */
  function CallsFrom(acc: Option<Call>, lines: seq<FrameInput>): seq<Call>
    decreases |lines|
  {
    if lines == [] then if acc.None? then [] else [acc.value]
    else if acc.None? then CallsFrom(Some(Call(1, lines[0])), lines[1..])
    else
      var c := Call(acc.value.duration + 1, acc.value.input); // counted before the lines are compared
      if c.input != lines[0] then [c] + CallsFrom(Some(Call(1, lines[0])), lines[1..])
      else CallsFrom(Some(c), lines[1..])
  }

  function Calls(lines: seq<FrameInput>): seq<Call> {
    CallsFrom(None, lines)
  }

  /** Runs as the code stretches them: each but the last plays one frame too long. */
  function Stretched(runs: seq<Call>): (s: seq<Call>)
    ensures |s| == |runs|
  {
    if |runs| <= 1 then runs else [Call(runs[0].duration + 1, runs[0].input)] + Stretched(runs[1..])
  }

  lemma {:induction false} CallsJoin(c: Call, lines: seq<FrameInput>)
    ensures CallsFrom(Some(c), lines) == Stretched(Join(c, Runs(lines)))
    decreases |lines|
  {
    if lines == [] {
    } else {
      var rest := Runs(lines[1..]);
      if c.input == lines[0] {
        CallsJoin(Call(c.duration + 1, c.input), lines[1..]);
        assert Join(c, Join(Call(1, lines[0]), rest)) == Join(Call(c.duration + 1, c.input), rest);
      } else {
        CallsJoin(Call(1, lines[0]), lines[1..]);
        var r := Join(Call(1, lines[0]), rest);
        assert Join(c, r) == [c] + r && ([c] + r)[1..] == r;
      }
    }
  }

  /** The code emits the maximal runs, in order, each but the last one frame too long. */
  lemma CallsAreStretchedRuns(lines: seq<FrameInput>)
    ensures Calls(lines) == Stretched(Runs(lines))
  {
    if lines != [] { CallsJoin(Call(1, lines[0]), lines[1..]); }
  }

  lemma {:induction false} StretchedDurations(runs: seq<Call>)
    ensures Durations(Stretched(runs)) == Durations(runs) + if runs == [] then 0 else |runs| - 1
    decreases |runs|
  {
    if |runs| > 1 {
      StretchedDurations(runs[1..]);
      assert Stretched(runs)[1..] == Stretched(runs[1..]);
    }
  }

  /** The script plays one frame more than the source for every change of input. */
  lemma CallsDuration(lines: seq<FrameInput>)
    ensures Durations(Calls(lines)) == |lines| + if lines == [] then 0 else |Runs(lines)| - 1
  {
    CallsAreStretchedRuns(lines);
    StretchedDurations(Runs(lines));
    RunsAreRuns(lines);
    ExpandLength(Runs(lines));
  }

  /** The script plays back exactly the source's frames when the input never changes, and not otherwise. */
  lemma PlaysSourceIff(lines: seq<FrameInput>)
    ensures Expand(Calls(lines)) == lines <==> |Runs(lines)| <= 1
  {
    CallsDuration(lines);
    ExpandLength(Calls(lines));
    CallsAreStretchedRuns(lines);
    RunsAreRuns(lines);
  }

  /** What the code would emit if it compared the inputs before it counted the line. */
  function CountedAfter(acc: Option<Call>, lines: seq<FrameInput>): seq<Call>
    decreases |lines|
  {
    if lines == [] then if acc.None? then [] else [acc.value]
    else if acc.Some? && acc.value.input == lines[0] then
      CountedAfter(Some(Call(acc.value.duration + 1, acc.value.input)), lines[1..])
    else
      (if acc.None? then [] else [acc.value]) + CountedAfter(Some(Call(1, lines[0])), lines[1..])
  }

  lemma {:induction false} CountedAfterJoins(c: Call, lines: seq<FrameInput>)
    ensures CountedAfter(Some(c), lines) == Join(c, Runs(lines))
    decreases |lines|
  {
    if lines != [] {
      var rest := Runs(lines[1..]);
      if c.input == lines[0] {
        CountedAfterJoins(Call(c.duration + 1, c.input), lines[1..]);
        assert Join(c, Join(Call(1, lines[0]), rest)) == Join(Call(c.duration + 1, c.input), rest);
      } else {
        CountedAfterJoins(Call(1, lines[0]), lines[1..]);
      }
    }
  }

  /** Counting after comparing would play back exactly the source's frames, whatever they are. */
  lemma CountingAfterPlaysSource(lines: seq<FrameInput>)
    ensures CountedAfter(None, lines) == Runs(lines) && Expand(CountedAfter(None, lines)) == lines
  {
    RunsAreRuns(lines);
    if lines != [] {
      CountedAfterJoins(Call(1, lines[0]), lines[1..]);
      assert CountedAfter(None, lines) == [] + CountedAfter(Some(Call(1, lines[0])), lines[1..]);
    }
  }

  // ----- the text that is read -----

  /** A line as a well-formed source may lay it out: spaces and a frame number, flags, and two pairs. */
  datatype SourceLine = SourceLine(
    lead: string, flags: seq<nat>, gap1: string, lx: int, ly: int, gap2: string, rx: int, ry: int)

  datatype Source = Source(lines: seq<SourceLine>, tail: string)

  predicate IsLead(s: string) {
    forall i :: 0 <= i < |s| ==> IsSpace(s[i]) || IsDigit(s[i])
  }

  predicate IsGaps(s: string) {
    forall i :: 0 <= i < |s| ==> IsGap(s[i])
  }

  predicate WfLine(l: SourceLine) {
    IsLead(l.lead) && (forall i :: 0 <= i < |l.flags| ==> l.flags[i] < FLAGS) && IsGaps(l.gap1) && IsGaps(l.gap2) &&
        l.gap2 != ""
  }

  /** Lines, each after the first set off from the one before by a space or line break. */
  predicate WfSource(f: Source) {
    && (forall i :: 0 <= i < |f.lines| ==> WfLine(f.lines[i]))
    && (forall i :: 0 < i < |f.lines| ==> f.lines[i].lead != "" && IsSpace(f.lines[i].lead[0]))
    && IsLead(f.tail) && (f.tail == "" || IsSpace(f.tail[0]))
  }

  function SticksText(l: SourceLine): string {
    l.gap1 + (Pair(l.lx, l.ly) + (l.gap2 + Pair(l.rx, l.ry)))
  }

  function SourceLineText(l: SourceLine): string
    requires WfLine(l)
  {
    l.lead + (JoinFlags(l.flags) + SticksText(l))
  }

  function SourceText(f: Source): string
    requires WfSource(f)
    decreases |f.lines|
  {
    if f.lines == [] then f.tail else SourceLineText(f.lines[0]) + SourceText(f.(lines := f.lines[1..]))
  }

  function LineOf(l: SourceLine): FrameInput
    requires WfLine(l)
  {
    FrameInput(BitsOf(l.flags), l.lx, l.ly, l.rx, l.ry)
  }

  function LinesOf(ls: seq<SourceLine>): seq<FrameInput>
    requires forall i :: 0 <= i < |ls| ==> WfLine(ls[i])
  {
    if ls == [] then [] else [LineOf(ls[0])] + LinesOf(ls[1..])
  }

  // ----- reading one line -----

  function SkipLead(s: string): string {
    if s != "" && (IsSpace(s[0]) || IsDigit(s[0])) then SkipLead(s[1..]) else s
  }

  function SkipGaps(s: string): string {
    if s != "" && IsGap(s[0]) then SkipGaps(s[1..]) else s
  }

  /** The input on a line whose frame number has been skipped, and the text after it. */
  function ParseLine(s: string): Option<(FrameInput, string)> {
    var (buttons, t) := ParseFlags(s, 0, {});
    match ScanPair(SkipGaps(t))
    case None => None
    case Some((lx, ly, u)) =>
      match ScanPair(SkipGaps(u))
      case None => None
      case Some((rx, ry, v)) => Some((FrameInput(buttons, lx, ly, rx, ry), v))
  }

  lemma {:induction false} SkipsLead(lead: string, rest: string)
    requires IsLead(lead) && (rest == "" || !(IsSpace(rest[0]) || IsDigit(rest[0])))
    ensures SkipLead(lead + rest) == rest
    decreases |lead|
  {
    if lead == "" {
      assert lead + rest == rest;
    } else {
      assert (lead + rest)[1..] == lead[1..] + rest;
      SkipsLead(lead[1..], rest);
    }
  }

  lemma {:induction false} SkipsGaps(gap: string, rest: string)
    requires IsGaps(gap) && (rest == "" || !IsGap(rest[0]))
    ensures SkipGaps(gap + rest) == rest
    decreases |gap|
  {
    if gap == "" {
      assert gap + rest == rest;
    } else {
      assert (gap + rest)[1..] == gap[1..] + rest;
      SkipsGaps(gap[1..], rest);
    }
  }

  lemma PairStart(a: int, b: int)
    ensures Pair(a, b) != "" && (IsDigit(Pair(a, b)[0]) || Pair(a, b)[0] == '-')
  {
  }

  lemma FlagsStart(ks: seq<nat>)
    requires forall i :: 0 <= i < |ks| ==> ks[i] < FLAGS
    ensures JoinFlags(ks) != "" && JoinFlags(ks)[0] in {'K', 'N'}
  {
    if ks != [] { assert Name(ks[0])[0] == 'K'; }
  }

  /** Flags, or their absence, read back as the set of their bits. */
  lemma ReadFlags(ks: seq<nat>, rest: string)
    requires (forall i :: 0 <= i < |ks| ==> ks[i] < FLAGS) && EndsFlags(rest)
    ensures ParseFlags(JoinFlags(ks) + rest, 0, {}) == (BitsOf(ks), rest)
  {
    hide Name, Bit;
    if ks == [] {
      assert ("NONE" + rest)[4..] == rest && "NONE" <= "NONE" + rest;
      assert BitsOf(ks) == {};
    } else {
      ParseJoined(ks, rest, {});
      assert {} + BitsOf(ks) == BitsOf(ks);
    }
  }

  lemma ReadLine(l: SourceLine, rest: string)
    requires WfLine(l) && EndsNumber(rest)
    ensures SkipLead(SourceLineText(l) + rest) != ""
    ensures ParseLine(SkipLead(SourceLineText(l) + rest)) == Some((LineOf(l), rest))
    ensures LineOf(l) == FrameInput(BitsOf(l.flags), l.lx, l.ly, l.rx, l.ry)
  {
    hide ParseFlags, JoinFlags, Pair, ScanPair, SkipGaps, SkipLead, EndsFlags;
    var right := Pair(l.rx, l.ry) + rest;
    var afterLeft := l.gap2 + right;
    var left := Pair(l.lx, l.ly) + afterLeft;
    var sticks := l.gap1 + left;
    var body := JoinFlags(l.flags) + sticks;
    assert SourceLineText(l) + rest == l.lead + body;
    FlagsStart(l.flags);
    SkipsLead(l.lead, body);
    PairStart(l.lx, l.ly);
    PairStart(l.rx, l.ry);
    SticksEndFlags(l.gap1, left);
    ReadFlags(l.flags, sticks);
    SkipsGaps(l.gap1, left);
    ScanPrintedPair(l.lx, l.ly, afterLeft);
    SkipsGaps(l.gap2, right);
    ScanPrintedPair(l.rx, l.ry, rest);
  }

  lemma SticksEndFlags(gap: string, left: string)
    requires IsGaps(gap) && left != "" && (IsDigit(left[0]) || left[0] == '-')
    ensures EndsFlags(gap + left)
  {
  }

  // ----- the text that is written -----

  const HEADER: string := "void main() {\n"
  const CLOSE: string := "}\n"

  /** The buttons as the number the call passes. */
  function Value(buttons: set<nat>, below: nat): nat
    requires below <= 16
  {
    if below == 0 then 0
    else Value(buttons, below - 1) + if below - 1 in buttons then Pow2(below - 1) else 0
  }

  function Render(c: Call): (s: string)
    ensures s != ""
  {
    "input(" + (Decimal(c.duration) + (", " + (Decimal(Value(c.input.buttons, 16)) +
    (", " + (Signed(c.input.lx) + ("," + (Signed(c.input.ly) +
    (", " + (Signed(c.input.rx) + ("," + (Signed(c.input.ry) + ");\n")))))))))))
  }

  function RenderAll(calls: seq<Call>): string {
    if calls == [] then "" else Render(calls[0]) + RenderAll(calls[1..])
  }

  /** The calls written until one would reach the limit, n characters being there already. */
  function TakeFit(calls: seq<Call>, n: nat, limit: nat): (fit: seq<Call>)
    ensures fit <= calls
    ensures fit == [] || n + |RenderAll(fit)| < limit
  {
    if calls == [] || n + |Render(calls[0])| >= limit then []
    else
      var more := TakeFit(calls[1..], n + |Render(calls[0])|, limit);
      assert ([calls[0]] + more)[1..] == more;
      [calls[0]] + more
  }

  lemma {:induction false} RenderSnoc(done: seq<Call>, c: Call)
    ensures RenderAll(done + [c]) == RenderAll(done) + Render(c)
    decreases |done|
  {
    if done == [] {
      assert done + [c] == [c] && [c][1..] == [];
    } else {
      assert (done + [c])[1..] == done[1..] + [c];
      RenderSnoc(done[1..], c);
    }
  }

  /** Every call is written exactly when the whole text stays below the limit. */
  lemma {:induction false} AllFitIff(calls: seq<Call>, n: nat, limit: nat)
    requires n < limit
    ensures TakeFit(calls, n, limit) == calls <==> n + |RenderAll(calls)| < limit
    decreases |calls|
  {
    hide Render;
    if calls != [] {
      var c, more := calls[0], calls[1..];
      TakeFitStep(c, more, n, limit);
      assert calls == [c] + more;
      if n + |Render(c)| < limit {
        AllFitIff(more, n + |Render(c)|, limit);
        SameAfter(c, TakeFit(more, n + |Render(c)|, limit), more);
      }
    }
  }

  lemma SameAfter(c: Call, a: seq<Call>, b: seq<Call>)
    ensures [c] + a == [c] + b <==> a == b
  {
    assert ([c] + a)[1..] == a && ([c] + b)[1..] == b;
  }

  lemma TakeFitStep(c: Call, more: seq<Call>, n: nat, limit: nat)
    ensures var n' := n + |Render(c)|;
            TakeFit([c] + more, n, limit) == if n' < limit then [c] + TakeFit(more, n', limit) else []
  {
    hide Render;
    assert ([c] + more)[1..] == more;
  }

  lemma {:induction false} ValueBelow(buttons: set<nat>, below: nat)
    requires below <= 16
    ensures Value(buttons, below) < Pow2(below)
    decreases below
  {
    if below > 0 { ValueBelow(buttons, below - 1); }
  }

  /** The number determines the buttons. */
  lemma {:induction false} ValueTellsButtons(a: set<nat>, b: set<nat>, below: nat)
    requires below <= 16 && Value(a, below) == Value(b, below)
    ensures forall i :: 0 <= i < below ==> (i in a <==> i in b)
    decreases below
  {
    if below > 0 {
      ValueBelow(a, below - 1);
      ValueBelow(b, below - 1);
      ValueTellsButtons(a, b, below - 1);
    }
  }

  lemma {:induction false} LinesOfTail(f: Source)
    requires WfSource(f) && f.lines != []
    ensures WfSource(f.(lines := f.lines[1..]))
    ensures EndsNumber(SourceText(f.(lines := f.lines[1..])))
  {
    var t := f.(lines := f.lines[1..]);
    if t.lines != [] {
      assert t.lines[0] == f.lines[1];
      assert SourceText(t)[0] == t.lines[0].lead[0];
    }
  }

  lemma {:induction false} SkipsTail(tail: string)
    requires IsLead(tail)
    ensures SkipLead(tail) == ""
  {
    assert tail + "" == tail;
    SkipsLead(tail, "");
  }

  /** The first line of a source reads back, and what follows is the rest of the source. */
  lemma ReadsNext(f: Source)
    requires WfSource(f)
    ensures f.lines == [] ==> SkipLead(SourceText(f)) == "" && Frames(f) == []
    ensures f.lines != [] ==>
              var t := f.(lines := f.lines[1..]);
              && WfSource(t) && SkipLead(SourceText(f)) != ""
              && Frames(f) == [LineOf(f.lines[0])] + Frames(t)
              && ParseLine(SkipLead(SourceText(f))) == Some((LineOf(f.lines[0]), SourceText(t)))
  {
    hide SkipLead, ParseLine, LineOf;
    if f.lines == [] {
      SkipsTail(f.tail);
    } else {
      LinesOfTail(f);
      ReadLine(f.lines[0], SourceText(f.(lines := f.lines[1..])));
    }
  }

  /** Skips spaces, frame numbers and empty lines. */
  method SkipToLine(src: string) returns (rest: string)
    ensures rest == SkipLead(src)
  {
    rest := src;
    while rest != "" && (IsSpace(rest[0]) || IsDigit(rest[0]))
      invariant SkipLead(rest) == SkipLead(src)
      decreases |rest|
    {
      rest := rest[1..];
    }
  }

  method SkipWhitespace(src: string) returns (rest: string)
    ensures rest == SkipGaps(src)
  {
    rest := src;
    while rest != "" && IsGap(rest[0])
      invariant SkipGaps(rest) == SkipGaps(src)
      decreases |rest|
    {
      rest := rest[1..];
    }
  }

  /** Tries the flags in order, starting over after a semicolon, until a whole pass takes none that has one. */
  method ReadButtons(src: string) returns (buttons: set<nat>, rest: string)
    ensures (buttons, rest) == ParseFlags(src, 0, {})
  {
    hide Name, Bit;
    buttons, rest := {}, src;
    var k := 0;
    while k < FLAGS
      invariant k <= FLAGS
      invariant ParseFlags(rest, k, buttons) == ParseFlags(src, 0, {})
      decreases |rest|, FLAGS - k
    {
      if k == 0 && "NONE" <= rest {
        return {}, rest[4..];
      }
      if Name(k) <= rest {
        buttons, rest := buttons + {Bit(k)}, rest[|Name(k)|..];
        if rest != "" && rest[0] == ';' {
          rest, k := rest[1..], 0;
        } else {
          k := k + 1;
        }
      } else {
        k := k + 1;
      }
    }
  }

  /** Copies a string and its terminator into the buffer. */
  method CopyText(dst: array<char>, at: nat, text: string)
    requires at + |text| < dst.Length
    modifies dst
    ensures dst[..at] == old(dst[..at])
    ensures dst[at..at + |text|] == text
    ensures dst[at + |text|] == '\0'
  {
    for i := 0 to |text|
      invariant dst[..at] == old(dst[..at])
      invariant dst[at..at + i] == text[..i]
    {
      dst[at + i] := text[i];
    }
    dst[at + |text|] := '\0';
  }

  /** The whole script: its header, the calls that fit, and the closing brace. */
  function Script(lines: seq<FrameInput>, dstMax: nat): string
    requires dstMax >= 3
  {
    HEADER + RenderAll(TakeFit(Calls(lines), |HEADER|, dstMax - |CLOSE| - 1)) + CLOSE
  }

  /**
   The script stays below the size the code is told, so nine characters more are always enough for the last
   terminator.
   */
  lemma ScriptFits(lines: seq<FrameInput>, dstMax: nat)
    requires dstMax > |HEADER| + |CLOSE| + 1
    ensures |Script(lines, dstMax)| < dstMax
    ensures var whole := |HEADER| + |RenderAll(Calls(lines))| + |CLOSE|;
            Script(lines, dstMax) == HEADER + RenderAll(Calls(lines)) + CLOSE <==> whole + 1 < dstMax
  {
    hide Calls, Render;
    var limit := dstMax - |CLOSE| - 1;
    var calls := Calls(lines);
    var fit := TakeFit(calls, |HEADER|, limit);
    AllFitIff(calls, |HEADER|, limit);
    if fit == [] { assert RenderAll(fit) == ""; }
    if fit != calls {
      assert |RenderAll(fit)| < |RenderAll(calls)|;
    }
  }

  /** Writes one accumulated call, if it still fits; dstn counts its length either way. */
  method Emit(dst: array<char>, at: nat, dstn: nat, limit: nat, c: Call) returns (at': nat, dstn': nat)
    requires at <= dstn && at <= dst.Length && limit <= dst.Length
    requires dstn + |Render(c)| < limit ==> at == dstn
    modifies dst
    ensures dstn' == dstn + |Render(c)|
    ensures at' == if dstn' < limit then at + |Render(c)| else at
    ensures dst[..at] == old(dst[..at])
    ensures dstn' < limit ==> at' <= dst.Length && dst[at..at'] == Render(c)
    ensures dstn' >= limit ==> dst[..] == old(dst[..])
  {
    var text := Render(c);
    dstn' := dstn + |text|;
    at' := at;
    if dstn' < limit {
      CopyText(dst, at, text);
      at' := at + |text|;
    }
  }

  lemma Regroup<T>(a: seq<T>, x: T, b: seq<T>)
    ensures a + ([x] + b) == (a + [x]) + b
  {
  }

  /** Once a call is written, what is still to be written follows it; a call that does not fit ends the text. */
  lemma FitStep(all: seq<Call>, done: seq<Call>, c: Call, more: seq<Call>, limit: nat)
    requires all == done + ([c] + more)
    requires TakeFit(all, |HEADER|, limit) == done + TakeFit([c] + more, |HEADER| + |RenderAll(done)|, limit)
    ensures var n := |HEADER| + |RenderAll(done)| + |Render(c)|;
            && all == (done + [c]) + more
            && n == |HEADER| + |RenderAll(done + [c])|
            && RenderAll(done + [c]) == RenderAll(done) + Render(c)
            && TakeFit(all, |HEADER|, limit) == if n < limit then (done + [c]) + TakeFit(more, n, limit) else done
  {
    hide Render, RenderAll, TakeFit;
    RenderSnoc(done, c);
    TakeFitStep(c, more, |HEADER| + |RenderAll(done)|, limit);
    Regroup(done, c, more);
    Regroup(done, c, TakeFit(more, |HEADER| + |RenderAll(done)| + |Render(c)|, limit));
  }

  /** The part of the buffer that holds the header and the calls written so far. */
  ghost predicate Holds(dst: array<char>, at: nat, done: seq<Call>)
    reads dst
  {
    && at == |HEADER| + |RenderAll(done)| <= dst.Length
    && dst[..at] == HEADER + RenderAll(done)
  }

  method EmitNext(dst: array<char>, at: nat, limit: nat, c: Call, ghost all: seq<Call>, ghost done: seq<Call>,
      ghost more: seq<Call>)
    returns (at': nat, dstn': nat)
    requires limit <= dst.Length && Holds(dst, at, done)
    requires all == done + ([c] + more)
    requires TakeFit(all, |HEADER|, limit) == done + TakeFit([c] + more, at, limit)
    modifies dst
    ensures dstn' == at + |Render(c)|
    ensures dstn' < limit ==>
              && at' == dstn' && Holds(dst, at', done + [c])
              && all == (done + [c]) + more
              && TakeFit(all, |HEADER|, limit) == (done + [c]) + TakeFit(more, at', limit)
    ensures dstn' >= limit ==> at' == at && Holds(dst, at', done) && TakeFit(all, |HEADER|, limit) == done
  {
    hide Render, TakeFit;
    FitStep(all, done, c, more, limit);
    at', dstn' := Emit(dst, at, at, limit, c);
    if dstn' < limit {
      assert dst[..at'] == dst[..at] + dst[at..at'];
    } else {
      assert dst[..at] == old(dst[..at]);
    }
  }

  /** Reads the line the text starts with; a well-formed one has both pairs. */
  method ReadSourceLine(src: string) returns (line: FrameInput, rest: string)
    requires ParseLine(src).Some?
    ensures ParseLine(src) == Some((line, rest))
  {
    var buttons, t := ReadButtons(src);
    t := SkipWhitespace(t);
    var left := ScanPair(t);
    var u := SkipWhitespace(left.value.2);
    var right := ScanPair(u);
    line := FrameInput(buttons, left.value.0, left.value.1, right.value.0, right.value.1);
    rest := right.value.2;
  }

  /** The frames of a whole source. */
  function Frames(f: Source): seq<FrameInput>
    requires WfSource(f)
  {
    LinesOf(f.lines)
  }

  /** What is still to be written, while everything has fitted so far. */
  ghost predicate Pending(all: seq<Call>, done: seq<Call>, acc: Option<Call>, lines: seq<FrameInput>, at: nat,
      limit: nat) {
    var following := CallsFrom(acc, lines);
    all == done + following && TakeFit(all, |HEADER|, limit) == done + TakeFit(following, at, limit)
  }

  /** Accumulates one line, writing the call before it when the input changes. */
  method TakeLine(dst: array<char>, at: nat, limit: nat, acc: Option<Call>, line: FrameInput,
                  ghost all: seq<Call>, ghost done: seq<Call>, ghost lines: seq<FrameInput>)
    returns (at': nat, dstn': nat, acc': Option<Call>, ghost done': seq<Call>)
    requires limit <= dst.Length && at < limit && Holds(dst, at, done)
    requires lines != [] && line == lines[0] && Pending(all, done, acc, lines, at, limit)
    modifies dst
    ensures acc'.Some? && at' < limit && Holds(dst, at', done')
    ensures if dstn' < limit then at' == dstn' && Pending(all, done', acc', lines[1..], at', limit)
            else TakeFit(all, |HEADER|, limit) == done'
  {
    hide Render, TakeFit;
    at', dstn', done' := at, at, done;
    if acc.None? {
      acc' := Some(Call(1, line));
    } else {
      var c := Call(acc.value.duration + 1, acc.value.input);
      acc' := Some(c);
      if c.input != line {
        at', dstn' := EmitNext(dst, at, limit, c, all, done, CallsFrom(Some(Call(1, line)), lines[1..]));
        if dstn' < limit {
          done' := done + [c];
          acc' := Some(Call(1, line));
        }
      }
    }
  }

  /** Writes the last call, if there is one and it fits, and closes the script. */
  method Finish(dst: array<char>, at: nat, dstn: nat, limit: nat, acc: Option<Call>, ghost all: seq<Call>,
      ghost done: seq<Call>)
    returns (at': nat)
    requires at < limit <= dst.Length && Holds(dst, at, done)
    requires if dstn < limit then at == dstn && Pending(all, done, acc, [], at, limit)
             else TakeFit(all, |HEADER|, limit) == done
    modifies dst
    ensures at' < limit && Holds(dst, at', TakeFit(all, |HEADER|, limit))
  {
    hide Render;
    at' := at;
    if acc.Some? {
      if dstn < limit {
        hide TakeFit;
        assert [acc.value] + [] == [acc.value];
        var written;
        at', written := EmitNext(dst, at, limit, acc.value, all, done, []);
        NothingFits(at', limit);
      } else {
        var written;
        at', written := Emit(dst, at, dstn, limit, acc.value);
        assert dst[..at] == old(dst[..at]);
      }
    }
  }

  lemma NothingFits(n: nat, limit: nat)
    ensures TakeFit([], n, limit) == []
  {
  }

  /**
   Writes the script for a well-formed source. On overflow the calls written are a prefix of those due.
   The last terminator lands nine places past the text: the pointer is moved on by the length of the
   entry point's name instead of the closing brace's. Beyond the size the code is told, the buffer has
   to have room for exactly that.
   */
  method Transpile(src: string, ghost file: Source, dst: array<char>, dstMax: nat) returns (ghost text: string)
    requires WfSource(file) && src == SourceText(file)
    requires |HEADER| + |CLOSE| + 1 < dstMax <= dst.Length && |Script(Frames(file), dstMax)| + 9 < dst.Length
    modifies dst
    ensures text == Script(Frames(file), dstMax)
    ensures |text| < dstMax && dst[..|text|] == text && dst[|text|] == '\0'
    ensures dst[|text| + 9] == '\0'
  {
    hide ParseLine, SkipLead, SourceText, Render, LineOf, TakeFit, WfSource, WfLine, Frames, CallsFrom;
    ghost var all := Calls(Frames(file));
    ghost var left := file;
    ghost var done: seq<Call> := [];
    var rest := src;
    var acc: Option<Call> := None;
    CopyText(dst, 0, HEADER);
    var at: nat, dstn: nat := |HEADER|, |HEADER|;
    var limit: nat := dstMax - |CLOSE| - 1;
    var more := true;
    while more
      invariant WfSource(left) && (more ==> rest == SourceText(left))
      invariant Holds(dst, at, done) && at < limit <= dst.Length
      invariant if dstn < limit then at == dstn && Pending(all, done, acc, Frames(left), at, limit) &&
                (more || Frames(left) == [])
                else !more && acc.Some? && TakeFit(all, |HEADER|, limit) == done
      decreases |left.lines|, more
    {
      ReadsNext(left);
      rest := SkipToLine(rest);
      if rest == "" {
        more := false;
      } else {
        var line, after := ReadSourceLine(rest);
        at, dstn, acc, done := TakeLine(dst, at, limit, acc, line, all, done, Frames(left));
        left, rest := left.(lines := left.lines[1..]), after;
        more := dstn < limit;
      }
    }
    at := Finish(dst, at, dstn, limit, acc, all, done);
    done := TakeFit(all, |HEADER|, limit);
    text := HEADER + RenderAll(done) + CLOSE;
    CopyText(dst, at, CLOSE);
    assert dst[..at + |CLOSE|] == dst[..at] + dst[at..at + |CLOSE|];
    dst[at + 11] := '\0';
    assert dst[..at + |CLOSE|] == text;
  }

  // ----- where the last terminator lands -----

  /** A prefix of the calls ends between two places, when the text before them ends at n. */
  predicate EndsWithin(calls: seq<Call>, n: nat, from: int, limit: int) {
    exists k :: 0 <= k <= |calls| && from <= n + |RenderAll(calls[..k])| < limit
  }

  lemma EndsWithinFirst(c: Call, more: seq<Call>, n: nat, from: int, limit: int)
    ensures EndsWithin([c] + more, n, from, limit) <==>
            from <= n < limit || EndsWithin(more, n + |Render(c)|, from, limit)
  {
    hide Render;
    var calls := [c] + more;
    assert calls[..0] == [];
    forall k | 0 <= k <= |more| ensures |RenderAll(calls[..k + 1])| == |Render(c)| + |RenderAll(more[..k])| {
      assert calls[..k + 1] == [c] + more[..k] && calls[..k + 1][1..] == more[..k];
    }
    if EndsWithin(calls, n, from, limit) {
      var k :| 0 <= k <= |calls| && from <= n + |RenderAll(calls[..k])| < limit;
      if k > 0 { assert from <= n + |Render(c)| + |RenderAll(more[..k - 1])| < limit; }
    }
    if from <= n < limit { assert from <= n + |RenderAll(calls[..0])| < limit; }
    if EndsWithin(more, n + |Render(c)|, from, limit) {
      var k :| 0 <= k <= |more| && from <= n + |Render(c)| + |RenderAll(more[..k])| < limit;
      assert from <= n + |RenderAll(calls[..k + 1])| < limit;
    }
  }

  lemma EndsTooFar(calls: seq<Call>, n: nat, from: int, limit: int)
    requires n >= limit
    ensures !EndsWithin(calls, n, from, limit)
  {
  }

  lemma EndsAtOnce(n: nat, from: int, limit: int)
    ensures EndsWithin([], n, from, limit) <==> from <= n < limit
  {
    var none: seq<Call> := [];
    assert none[..0] == none && RenderAll(none) == "";
  }

  lemma RenderNothing()
    ensures RenderAll([]) == ""
  {
  }

  lemma RenderCons(c: Call, more: seq<Call>)
    ensures |RenderAll([c] + more)| == |Render(c)| + |RenderAll(more)|
  {
    hide Render;
    assert ([c] + more)[1..] == more;
  }

  /** The calls that fit reach a place exactly when some prefix of those due ends between it and the limit. */
  lemma {:induction false} FitReachesIff(calls: seq<Call>, n: nat, from: int, limit: nat)
    requires n < limit
    ensures n + |RenderAll(TakeFit(calls, n, limit))| >= from <==> EndsWithin(calls, n, from, limit)
    decreases |calls|
  {
    hide Render, RenderAll, EndsWithin, TakeFit;
    RenderNothing();
    if calls == [] {
      NothingFits(n, limit);
      EndsAtOnce(n, from, limit);
    } else {
      var c, more := calls[0], calls[1..];
      var n' := n + |Render(c)|;
      if n' < limit { FitReachesIff(more, n', from, limit); } else { EndsTooFar(more, n', from, limit); }
      FitReachesFirst(c, more, n, from, limit);
      assert calls == [c] + more;
    }
  }

  lemma FitReachesFirst(c: Call, more: seq<Call>, n: nat, from: int, limit: nat)
    requires n < limit
    requires var n' := n + |Render(c)|;
             EndsWithin(more, n', from, limit) <==>
             n' < limit && n' + |RenderAll(TakeFit(more, n', limit))| >= from
    ensures n + |RenderAll(TakeFit([c] + more, n, limit))| >= from <==> EndsWithin([c] + more, n, from, limit)
  {
    hide Render, RenderAll, EndsWithin, TakeFit;
    RenderNothing();
    TakeFitStep(c, more, n, limit);
    EndsWithinFirst(c, more, n, from, limit);
    RenderCons(c, TakeFit(more, n + |Render(c)|, limit));
  }

  /**
   The last terminator misses a buffer of exactly the size the code is told if and only if some prefix of the calls
   due, written behind the header, ends in the last eight places below the limit.
   */
  lemma TerminatorMissesIff(lines: seq<FrameInput>, dstMax: nat)
    requires dstMax > |HEADER| + |CLOSE| + 1
    ensures |Script(lines, dstMax)| + 9 >= dstMax <==>
            exists k :: 0 <= k <= |Calls(lines)| &&
                        dstMax - 11 <= |HEADER| + |RenderAll(Calls(lines)[..k])| < dstMax - 3
  {
    hide Calls, TakeFit, RenderAll;
    FitReachesIff(Calls(lines), |HEADER|, dstMax - 11, dstMax - |CLOSE| - 1);
  }

  /** The size of the buffer the code's only caller passes. */
  const SCRIPT_BUF: nat := 0x2000

  function Flick(b: bool): FrameInput {
    FrameInput({}, if b then 1 else 0, 0, 0, 0)
  }

  /** An input that changes with every frame. */
  function Flicker(n: nat, b: bool): (inputs: seq<FrameInput>)
    ensures |inputs| == n && forall i :: 0 <= i < n ==> inputs[i] == Flick(true) || inputs[i] == Flick(false)
  {
    if n == 0 then [] else [Flick(b)] + Flicker(n - 1, !b)
  }

  /** A first input that takes three characters more, and then a changing one: 355 calls, 8184 characters in all. */
  const TIGHT: seq<FrameInput> := [FrameInput({}, 1000, 0, 0, 0)] + Flicker(354, true)

  lemma {:induction false} NoButtons(below: nat)
    requires below <= 16
    ensures Value({}, below) == 0
    decreases below
  {
    if below > 0 { NoButtons(below - 1); }
  }

  lemma CallLength(d: nat, lx: nat)
    requires d < 10
    ensures |Render(Call(d, FrameInput({}, lx, 0, 0, 0)))| == 22 + |Decimal(lx)|
  {
    NoButtons(16);
  }

  lemma {:induction false} FlickerLength(x: FrameInput, w: nat, n: nat, b: bool)
    requires x != Flick(b) && (forall d :: 0 <= d < 10 ==> |Render(Call(d, x))| == w)
    ensures |RenderAll(CallsFrom(Some(Call(1, x)), Flicker(n, b)))| == w + 23 * n
    decreases n
  {
    hide Render;
    var calls := CallsFrom(Some(Call(1, x)), Flicker(n, b));
    if n == 0 {
      assert calls == [Call(1, x)] && calls[1..] == [];
    } else {
      var y := Flick(b);
      assert Flicker(n, b)[0] == y && Flicker(n, b)[1..] == Flicker(n - 1, !b);
      assert calls[0] == Call(2, x) && calls[1..] == CallsFrom(Some(Call(1, y)), Flicker(n - 1, !b));
      forall d: nat | d < 10 ensures |Render(Call(d, y))| == 23 { CallLength(d, y.lx); }
      FlickerLength(y, 23, n - 1, !b);
    }
  }

  lemma TightLength()
    ensures |RenderAll(Calls(TIGHT))| == 8168
  {
    hide Render, RenderAll, CallsFrom, Flicker;
    var x := FrameInput({}, 1000, 0, 0, 0);
    assert |Decimal(1000)| == 4 by { assert |Decimal(10)| == 2 && |Decimal(100)| == 3; }
    forall d: nat | d < 10 ensures |Render(Call(d, x))| == 26 { CallLength(d, 1000); }
    FlickerLength(x, 26, 354, true);
    assert TIGHT[0] == x && TIGHT[1..] == Flicker(354, true);
    assert Calls(TIGHT) == CallsFrom(Some(Call(1, x)), TIGHT[1..]) by { CallsFromFirst(TIGHT); }
  }

  lemma CallsFromFirst(lines: seq<FrameInput>)
    requires lines != []
    ensures Calls(lines) == CallsFrom(Some(Call(1, lines[0])), lines[1..])
  {
  }

  function PlainLine(x: FrameInput): SourceLine {
    SourceLine("\n", [], " ", x.lx, x.ly, " ", x.rx, x.ry)
  }

  /** Lines without flags, one under the other. */
  function PlainLines(inputs: seq<FrameInput>): (lines: seq<SourceLine>)
    ensures |lines| == |inputs| && forall i :: 0 <= i < |lines| ==> WfLine(lines[i]) && lines[i].lead == "\n"
  {
    if inputs == [] then [] else [PlainLine(inputs[0])] + PlainLines(inputs[1..])
  }

  lemma {:induction false} PlainFrames(inputs: seq<FrameInput>)
    requires forall i :: 0 <= i < |inputs| ==> inputs[i].buttons == {}
    ensures LinesOf(PlainLines(inputs)) == inputs
    decreases |inputs|
  {
    if inputs != [] {
      assert PlainLines(inputs)[1..] == PlainLines(inputs[1..]);
      assert BitsOf([]) == {};
      PlainFrames(inputs[1..]);
    }
  }

  lemma PlainLength(x: FrameInput)
    requires x == Flick(true) || x == Flick(false) || x == FrameInput({}, 1000, 0, 0, 0)
    ensures WfLine(PlainLine(x)) && |SourceLineText(PlainLine(x))| <= 20
  {
    assert |Decimal(1000)| == 4 by { assert |Decimal(10)| == 2 && |Decimal(100)| == 3; }
    assert |Decimal(0)| == 1 && |Decimal(1)| == 1;
    assert JoinFlags([]) == "NONE";
  }

  lemma {:induction false} PlainFileLength(inputs: seq<FrameInput>)
    requires forall i :: 0 <= i < |inputs| ==> |SourceLineText(PlainLine(inputs[i]))| <= 20
    ensures var file := Source(PlainLines(inputs), ""); WfSource(file) && |SourceText(file)| <= 20 * |inputs|
    decreases |inputs|
  {
    hide SourceLineText;
    if inputs != [] {
      var lines := PlainLines(inputs);
      assert lines[0] == PlainLine(inputs[0]) && lines[1..] == PlainLines(inputs[1..]);
      PlainFileLength(inputs[1..]);
    }
  }

  lemma TightFile()
    ensures var file := Source(PlainLines(TIGHT), ""); WfSource(file) && |SourceText(file)| < SCRIPT_BUF
  {
    forall i | 0 <= i < |TIGHT| ensures |SourceLineText(PlainLine(TIGHT[i]))| <= 20 { PlainLength(TIGHT[i]); }
    PlainFileLength(TIGHT);
  }

  /**
   There is a well-formed source, short enough for the buffer it is read into, whose script fits the buffer of that
   same size which the caller passes, and is written in full, while the terminator misses it.
   */
  lemma TerminatorMissesBuffer()
    ensures var file := Source(PlainLines(TIGHT), "");
            && WfSource(file) && Frames(file) == TIGHT && |SourceText(file)| < SCRIPT_BUF
            && var text := Script(Frames(file), SCRIPT_BUF);
               && text == HEADER + RenderAll(Calls(TIGHT)) + CLOSE
               && |text| < SCRIPT_BUF <= |text| + 9
  {
    hide RenderAll, Flicker, Calls;
    TightFile();
    PlainFrames(TIGHT);
    TightLength();
    ScriptFits(TIGHT, SCRIPT_BUF);
    assert Calls(TIGHT)[..|Calls(TIGHT)|] == Calls(TIGHT);
    TerminatorMissesIff(TIGHT, SCRIPT_BUF);
  }
}
