/** What the calls in a written script mean: a reader of their grammar, and that it gets back what was to be played. */
module CallText {
  import opened Basics
  import opened InputRuns
  import opened NxTasText
  import opened TranspileImpl

  /** The arguments of one call `input(duration, buttons, lx,ly, rx,ry);`, as numbers. */
  datatype Arguments = Arguments(duration: int, buttons: int, lx: int, ly: int, rx: int, ry: int)

  function Skip(token: string, s: string): Option<string> {
    if token <= s then Some(s[|token|..]) else None
  }

  function ReadNumber(token: string, s: string): Option<(int, string)> {
    match Skip(token, s)
    case None => None
    case Some(t) => ScanInt(t)
  }

  /** Reads six numbers, each behind its token. */
  function ReadNumbers(tokens: seq<string>, s: string): Option<(seq<int>, string)> {
    if tokens == [] then Some(([], s))
    else
      match ReadNumber(tokens[0], s)
      case None => None
      case Some((n, t)) =>
        match ReadNumbers(tokens[1..], t)
        case None => None
        case Some((more, u)) => Some(([n] + more, u))
  }

  const TOKENS: seq<string> := ["input(", ", ", ", ", ",", ", ", ","]

  function ReadCall(s: string): Option<(Arguments, string)> {
    match ReadNumbers(TOKENS, s)
    case None => None
    case Some((n, t)) =>
      match Skip(");\n", t)
      case Some(rest) => if |n| == 6 then Some((Arguments(n[0], n[1], n[2], n[3], n[4], n[5]), rest)) else None
      case None => None
  }

  /** Reads calls up to the closing brace, which ends the text. */
  function ReadCalls(s: string): Option<seq<Arguments>>
    decreases |s|
  {
    if s == "}\n" then Some([])
    else
      match ReadCall(s)
      case None => None
      case Some((first, rest)) =>
        if |rest| >= |s| then None
        else
          match ReadCalls(rest)
          case None => None
          case Some(more) => Some([first] + more)
  }

  function ReadScript(s: string): Option<seq<Arguments>> {
    match Skip("void main() {\n", s)
    case None => None
    case Some(t) => ReadCalls(t)
  }

  // ----- the writer against the reader -----

  lemma ReadsNumber(token: string, i: int, rest: string)
    requires EndsNumber(rest)
    ensures ReadNumber(token, token + (Signed(i) + rest)) == Some((i, rest))
  {
    hide ScanInt, Signed;
    var s := token + (Signed(i) + rest);
    assert s[|token|..] == Signed(i) + rest && token <= s;
    ScanSigned(i, rest);
  }

  /** Numbers, each behind its token. */
  function Numbers(tokens: seq<string>, ns: seq<int>, rest: string): string
    requires |tokens| == |ns|
  {
    if tokens == [] then rest else tokens[0] + (Signed(ns[0]) + Numbers(tokens[1..], ns[1..], rest))
  }

  lemma {:induction false} ReadsNumbers(tokens: seq<string>, ns: seq<int>, rest: string)
    requires |tokens| == |ns| && EndsNumber(rest)
    requires forall i :: 0 <= i < |tokens| ==> tokens[i] != "" && !IsDigit(tokens[i][0])
    ensures ReadNumbers(tokens, Numbers(tokens, ns, rest)) == Some((ns, rest))
    decreases |tokens|
  {
    hide ReadNumber, Signed;
    if tokens != [] {
      var more := Numbers(tokens[1..], ns[1..], rest);
      NumbersStart(tokens[1..], ns[1..], rest);
      ReadsNumber(tokens[0], ns[0], more);
      assert forall i :: 0 <= i < |tokens[1..]| ==> tokens[1..][i] == tokens[i + 1];
      ReadsNumbers(tokens[1..], ns[1..], rest);
      assert ns == [ns[0]] + ns[1..];
    }
  }

  lemma NumbersStart(tokens: seq<string>, ns: seq<int>, rest: string)
    requires |tokens| == |ns| && EndsNumber(rest) && (tokens != [] ==> tokens[0] != "" && !IsDigit(tokens[0][0]))
    ensures EndsNumber(Numbers(tokens, ns, rest))
  {
  }

  /** The arguments that stand for a call: its duration, its buttons as a number, its sticks in their places. */
  function ArgumentsOf(c: Call): Arguments {
    Arguments(c.duration, Value(c.input.buttons, 16), c.input.lx, c.input.ly, c.input.rx, c.input.ry)
  }

  lemma NumbersFirst(token: string, tokens: seq<string>, n: int, ns: seq<int>, rest: string)
    requires |tokens| == |ns|
    ensures Numbers([token] + tokens, [n] + ns, rest) == token + (Signed(n) + Numbers(tokens, ns, rest))
  {
    assert ([token] + tokens)[1..] == tokens && ([n] + ns)[1..] == ns;
  }

  lemma {:induction false} NumbersThen(tokens: seq<string>, ns: seq<int>, a: string, b: string)
    requires |tokens| == |ns|
    ensures Numbers(tokens, ns, a + b) == Numbers(tokens, ns, a) + b
    decreases |tokens|
  {
    hide Signed;
    if tokens != [] {
      NumbersThen(tokens[1..], ns[1..], a, b);
      var more := Numbers(tokens[1..], ns[1..], a);
      assert tokens[0] + (Signed(ns[0]) + (more + b)) == tokens[0] + (Signed(ns[0]) + more) + b;
    }
  }

  function ValuesOf(a: Arguments): seq<int> {
    [a.duration, a.buttons, a.lx, a.ly, a.rx, a.ry]
  }

  lemma RenderIsNumbers(c: Call)
    ensures Render(c) == Numbers(TOKENS, ValuesOf(ArgumentsOf(c)), ");\n")
  {
    var a := ArgumentsOf(c);
    assert Decimal(c.duration) == Signed(a.duration) && Decimal(Value(c.input.buttons, 16)) == Signed(a.buttons);
    hide Signed, Decimal, Value, Numbers;
    var end := ");\n";
    NumbersNone(end);
    NumbersFirst(",", [], a.ry, [], end);
    NumbersFirst(", ", [","], a.rx, [a.ry], end);
    NumbersFirst(",", [", ", ","], a.ly, [a.rx, a.ry], end);
    NumbersFirst(", ", [",", ", ", ","], a.lx, [a.ly, a.rx, a.ry], end);
    NumbersFirst(", ", [", ", ",", ", ", ","], a.buttons, [a.lx, a.ly, a.rx, a.ry], end);
    NumbersFirst("input(", [", ", ", ", ",", ", ", ","], a.duration, [a.buttons, a.lx, a.ly, a.rx, a.ry], end);
    assert [","] + [] == [","];
    assert TOKENS == ["input("] + [", ", ", ", ",", ", ", ","];
  }

  lemma NumbersNone(rest: string)
    ensures Numbers([], [], rest) == rest
  {
  }

  /** A written call reads back as exactly its duration, buttons and sticks. */
  lemma ReadsCall(c: Call, rest: string)
    ensures ReadCall(Render(c) + rest) == Some((ArgumentsOf(c), rest))
  {
    RenderIsNumbers(c);
    var ns := ValuesOf(ArgumentsOf(c));
    NumbersThen(TOKENS, ns, ");\n", rest);
    ReadsNumbers(TOKENS, ns, ");\n" + rest);
    hide Render, Numbers, ReadNumbers;
    assert (");\n" + rest)[3..] == rest && ");\n" <= ");\n" + rest;
  }

  function AllArguments(calls: seq<Call>): seq<Arguments> {
    if calls == [] then [] else [ArgumentsOf(calls[0])] + AllArguments(calls[1..])
  }

  lemma {:induction false} ReadsCalls(calls: seq<Call>)
    ensures ReadCalls(RenderAll(calls) + "}\n") == Some(AllArguments(calls))
    decreases |calls|
  {
    hide ReadCall, Render, ArgumentsOf;
    if calls == [] {
      assert RenderAll(calls) + "}\n" == "}\n";
    } else {
      var rest := RenderAll(calls[1..]) + "}\n";
      var s := RenderAll(calls) + "}\n";
      assert s == Render(calls[0]) + rest;
      ReadsCall(calls[0], rest);
      ReadsCalls(calls[1..]);
      CallIsNotClose(calls[0], rest);
    }
  }

  lemma CallIsNotClose(c: Call, rest: string)
    ensures Render(c) + rest != "}\n" && Render(c) != ""
  {
    RenderIsNumbers(c);
    hide Render;
  }

  /** The script, read back: exactly the calls that fit, in order, each with its own arguments. */
  lemma ReadsScript(lines: seq<FrameInput>, dstMax: nat)
    requires dstMax >= 3
    ensures ReadScript(Script(lines, dstMax)) ==
            Some(AllArguments(TakeFit(Calls(lines), |HEADER|, dstMax - |CLOSE| - 1)))
  {
    hide ReadCalls, TakeFit, Calls, RenderAll, AllArguments;
    var calls := TakeFit(Calls(lines), |HEADER|, dstMax - |CLOSE| - 1);
    ReadsCalls(calls);
    var s := Script(lines, dstMax);
    assert s == "void main() {\n" + (RenderAll(calls) + "}\n");
    assert s[|"void main() {\n"|..] == RenderAll(calls) + "}\n";
  }

  /** A script that is not cut off reads back as the maximal runs of its lines, each but the last one frame longer. */
  lemma WholeScriptReads(lines: seq<FrameInput>, dstMax: nat)
    requires |HEADER| + |RenderAll(Calls(lines))| + |CLOSE| + 1 < dstMax
    ensures ReadScript(Script(lines, dstMax)) == Some(AllArguments(Stretched(Runs(lines))))
  {
    hide ReadScript, TakeFit, Calls, RenderAll, AllArguments, Stretched, Runs, Script;
    ReadsScript(lines, dstMax);
    AllFitIff(Calls(lines), |HEADER|, dstMax - |CLOSE| - 1);
    CallsAreStretchedRuns(lines);
  }

  // ----- the number of the buttons -----

  lemma {:induction false} Pow2Parts(low: nat, n: nat)
    requires low <= n
    ensures Pow2(n) == Pow2(n - low) * Pow2(low)
    decreases n - low
  {
    if low < n { Pow2Parts(low, n - 1); }
  }

  /** Each place below sixteen is set in the number a call passes exactly when that button is held. */
  lemma {:induction false} ButtonIsSet(buttons: set<nat>, below: nat, place: nat)
    requires place < below <= 16
    ensures Set(Value(buttons, below), place) <==> place in buttons
    decreases below
  {
    var n := below - 1;
    var e := if n in buttons then 1 else 0;
    var low := Value(buttons, n);
    ValueBelow(buttons, n);
    if place == n {
      Drop(e, low, Pow2(n));
    } else {
      ButtonIsSet(buttons, n, place);
      Pow2Parts(place, n);
      PlaceBelow(e, Pow2(n - place - 1), low, Pow2(place));
    }
  }

  /** Adding a higher place leaves the lower ones as they are. */
  lemma PlaceBelow(e: nat, half: nat, low: nat, p: nat)
    requires e < 2 && p > 0
    ensures (low + if e == 1 then 2 * half * p else 0) / p % 2 == low / p % 2
  {
    if e == 1 {
      AddMultiples(2 * half, low, p);
      assert (2 * half + low / p) % 2 == low / p % 2;
    }
  }
}
