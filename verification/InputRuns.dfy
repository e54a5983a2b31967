/** Inputs held over time: how a list of frames divides into runs of equal inputs, and how runs expand again. */
module InputRuns {

  /** The input of one frame. */
  datatype FrameInput = FrameInput(buttons: set<nat>, lx: int, ly: int, rx: int, ry: int)

  /** An input and how long it is held. */
  datatype Call = Call(duration: nat, input: FrameInput)

  // ----- runs -----

  function Repeat(input: FrameInput, n: nat): (s: seq<FrameInput>)
    ensures |s| == n && forall i :: 0 <= i < n ==> s[i] == input
  {
    seq(n, _ => input)
  }

  /** The frames a list of calls plays. */
  function Expand(calls: seq<Call>): seq<FrameInput> {
    if calls == [] then [] else Repeat(calls[0].input, calls[0].duration) + Expand(calls[1..])
  }

  /** The calls play exactly these frames, and no two neighbours could be joined. */
  predicate AreRuns(calls: seq<Call>, lines: seq<FrameInput>) {
    && Expand(calls) == lines
    && (forall i :: 0 <= i < |calls| ==> calls[i].duration > 0)
    && forall i :: 0 < i < |calls| ==> calls[i - 1].input != calls[i].input
  }

  function Runs(lines: seq<FrameInput>): seq<Call> {
    if lines == [] then [] else Join(Call(1, lines[0]), Runs(lines[1..]))
  }

  /** Puts a call in front of runs, joining it to the first if that plays the same input. */
  function Join(c: Call, runs: seq<Call>): seq<Call> {
    if runs != [] && runs[0].input == c.input then [Call(c.duration + runs[0].duration, c.input)] + runs[1..]
    else [c] + runs
  }

  lemma {:induction false} RunsAreRuns(lines: seq<FrameInput>)
    ensures AreRuns(Runs(lines), lines)
    decreases |lines|
  {
    if lines != [] {
      var r := Runs(lines[1..]);
      RunsAreRuns(lines[1..]);
      var c := Call(1, lines[0]);
      assert Repeat(lines[0], 1) == [lines[0]];
      if r != [] && r[0].input == lines[0] {
        assert Repeat(lines[0], 1 + r[0].duration) == [lines[0]] + Repeat(lines[0], r[0].duration);
        assert Join(c, r)[1..] == r[1..];
      } else {
        assert Join(c, r)[1..] == r;
      }
    }
  }

  lemma {:induction false} ExpandLength(calls: seq<Call>)
    ensures |Expand(calls)| == Durations(calls)
    decreases |calls|
  {
    if calls != [] { ExpandLength(calls[1..]); }
  }

  function Durations(calls: seq<Call>): nat {
    if calls == [] then 0 else calls[0].duration + Durations(calls[1..])
  }

  /** A list of frames has only one division into runs. */
  lemma {:induction false} RunsAreUnique(a: seq<Call>, b: seq<Call>, lines: seq<FrameInput>)
    requires AreRuns(a, lines) && AreRuns(b, lines)
    ensures a == b
    decreases |a|
  {
    if a == [] || b == [] {
      ExpandLength(a);
      ExpandLength(b);
    } else {
      FirstRun(a, b, lines);
      FirstRun(b, a, lines);
      var n := a[0].duration;
      assert a[1..] == b[1..] by {
        assert Expand(a[1..]) == lines[n..] && Expand(b[1..]) == lines[n..];
        RunsAreUnique(a[1..], b[1..], lines[n..]);
      }
      assert a == [a[0]] + a[1..] && b == [b[0]] + b[1..];
    }
  }

  lemma RunEnds(a: seq<Call>, lines: seq<FrameInput>)
    requires AreRuns(a, lines) && a != []
    ensures var n := a[0].duration;
            && 0 < n <= |lines| && (forall i :: 0 <= i < n ==> lines[i] == a[0].input)
            && (n < |lines| ==> lines[n] != a[0].input)
  {
    var n := a[0].duration;
    if |a| > 1 {
      var rest := a[1..];
      assert rest[0] == a[1];
      assert Expand(rest) == Repeat(a[1].input, a[1].duration) + Expand(rest[1..]);
      assert lines == Repeat(a[0].input, n) + Expand(rest);
      assert lines[n] == Expand(rest)[0] == a[1].input;
    } else {
      assert Expand(a[1..]) == [];
    }
  }

  lemma FirstRun(a: seq<Call>, b: seq<Call>, lines: seq<FrameInput>)
    requires AreRuns(a, lines) && AreRuns(b, lines) && a != [] && b != []
    ensures a[0].input == b[0].input && a[0].duration <= b[0].duration
  {
    hide AreRuns;
    RunEnds(a, lines);
    RunEnds(b, lines);
    assert lines[0] == a[0].input;
  }
}
