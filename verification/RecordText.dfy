/**
 The text of a recording: how a line is printed, and that it fits. `RoundTrip.dfy` proves that it parses back.
 */
module RecordText {
  import opened InputRuns
  import opened NxTasText
  import opened Recording

  // ----- one line -----

  /** The order the printer tries the button bits in: the sticks' own buttons come last. */
  function PrintedBit(k: nat): (b: nat)
    requires k < 16
    ensures b < 16
  {
    if k < 4 then k else if k < 14 then k + 2 else k - 10
  }

  /** The buttons that have a name. */
  const NAMED: set<nat> := set b | 0 <= b < 16

  /** The flags printed from the k-th test on. */
  function Pressed(buttons: set<nat>, k: nat): (ks: seq<nat>)
    requires k <= 16
    ensures forall i :: 0 <= i < |ks| ==> ks[i] < FLAGS
    decreases 16 - k
  {
    if k == 16 then []
    else if PrintedBit(k) in buttons then [FlagOf(PrintedBit(k))] + Pressed(buttons, k + 1)
    else Pressed(buttons, k + 1)
  }

  /** What "%d" prints of an unsigned 32-bit number. */
  function PrintUnsigned(n: nat): string {
    Signed(if n < 0x8000_0000 then n as int else n as int - U32)
  }

  function ButtonsText(buttons: set<nat>): string {
    JoinFlags(Pressed(buttons, 0))
  }

  /** A printed line after its label. */
  function InputText(input: FrameInput): string {
    ButtonsText(input.buttons) + " " + Pair(input.lx, input.ly) + " " + Pair(input.rx, input.ry)
  }

  function LineText(line: Line): string {
    PrintUnsigned(line.frame) + " " + InputText(line.input) + "\n"
  }

  function FileText(lines: seq<Line>): string {
    if lines == [] then "" else LineText(lines[0]) + FileText(lines[1..])
  }

  lemma {:induction false} FileTextConcat(a: seq<Line>, b: seq<Line>)
    ensures FileText(a + b) == FileText(a) + FileText(b)
    decreases |a|
  {
    hide LineText;
    if a == [] {
      assert a + b == b;
    } else {
      assert (a + b)[1..] == a[1..] + b;
      FileTextConcat(a[1..], b);
    }
  }

  /** Names with a separator before each. */
  function Separated(ks: seq<nat>): string
    requires forall i :: 0 <= i < |ks| ==> ks[i] < FLAGS
  {
    if ks == [] then "" else ";" + Name(ks[0]) + Separated(ks[1..])
  }

  lemma {:induction false} SeparatedIsJoined(ks: seq<nat>)
    requires ks != [] && forall i :: 0 <= i < |ks| ==> ks[i] < FLAGS
    ensures Separated(ks) == ";" + JoinSome(ks)
    decreases |ks|
  {
    hide Name;
    if |ks| == 1 {
      assert Separated(ks[1..]) == "";
    } else {
      SeparatedIsJoined(ks[1..]);
    }
  }

  lemma PressedStep(buttons: set<nat>, k: nat)
    requires k < 16
    ensures Separated(Pressed(buttons, k)) ==
            (if PrintedBit(k) in buttons then ";" + Name(FlagOf(PrintedBit(k))) else "") +
                Separated(Pressed(buttons, k + 1))
  {
    hide Name, FlagOf, PrintedBit;
    if PrintedBit(k) in buttons { assert Pressed(buttons, k)[1..] == Pressed(buttons, k + 1); }
  }

  lemma PressedEnds(buttons: set<nat>)
    ensures Separated(Pressed(buttons, 16)) == ""
    ensures var s := Separated(Pressed(buttons, 0));
            if s == "" then ButtonsText(buttons) == "NONE" else s == ";" + ButtonsText(buttons)
  {
    hide Name, FlagOf, PrintedBit;
    var ks := Pressed(buttons, 0);
    if ks != [] { SeparatedIsJoined(ks); }
  }

  /** Builds the flags' text with a separator before each, and strips the first. */
  method PrintButtons(buttons: set<nat>) returns (text: string)
    ensures text == ButtonsText(buttons)
  {
    hide Name, FlagOf, PrintedBit, Pressed, Separated, ButtonsText;
    var s := "";
    PressedEnds(buttons);
    for k := 0 to 16
      invariant s + Separated(Pressed(buttons, k)) == Separated(Pressed(buttons, 0))
    {
      PressedStep(buttons, k);
      if PrintedBit(k) in buttons {
        s := s + (";" + Name(FlagOf(PrintedBit(k))));
      }
    }
    assert s == Separated(Pressed(buttons, 0));
    if s == "" {
      s := " NONE";
    }
    text := s[1..];
  }

  // ----- a line fits its buffer -----

  function Pow10(k: nat): (p: nat)
    ensures p > 0
  {
    if k == 0 then 1 else 10 * Pow10(k - 1)
  }

  lemma {:induction false} DecimalLength(n: nat, k: nat)
    requires k > 0 && n < Pow10(k)
    ensures |Decimal(n)| <= k
    decreases k
  {
    if n >= 10 { DecimalLength(n / 10, k - 1); }
  }

  lemma TenDigits()
    ensures Pow10(10) == 10_000_000_000
  {
    assert Pow10(2) == 100;
    assert Pow10(4) == 10_000;
    assert Pow10(6) == 1_000_000;
    assert Pow10(8) == 100_000_000;
  }

  lemma SignedLength(i: int)
    requires -0x8000_0000 <= i < 0x8000_0000
    ensures |Signed(i)| <= 11
  {
    TenDigits();
    DecimalLength(if i < 0 then -i else i, 10);
  }

  /** The length of all flags printed from the k-th test on, with their separators. */
  function Room(k: nat): nat
    requires k <= 16
    decreases 16 - k
  {
    if k == 16 then 0 else 1 + |Name(FlagOf(PrintedBit(k)))| + Room(k + 1)
  }

  lemma AllRoom()
    ensures Room(0) == 130
  {
    assert Room(14) == 22;
    assert Room(12) == 43;
    assert Room(10) == 61;
    assert Room(8) == 80;
    assert Room(6) == 94;
    assert Room(4) == 106;
    assert Room(2) == 118;
  }

  lemma {:induction false} SeparatedLength(buttons: set<nat>, k: nat)
    requires k <= 16
    ensures |Separated(Pressed(buttons, k))| <= Room(k)
    decreases 16 - k
  {
    hide Name, FlagOf, PrintedBit, Pressed, Separated;
    if k == 16 {
      PressedEnds(buttons);
    } else {
      SeparatedLength(buttons, k + 1);
      PressedStep(buttons, k);
    }
  }

  /** Every line, whatever buttons are held, fits the 200 characters it is formatted into. */
  lemma LineFits(line: Line)
    requires line.frame < U32
    requires -0x8000_0000 <= line.input.lx < 0x8000_0000 && -0x8000_0000 <= line.input.ly < 0x8000_0000
    requires -0x8000_0000 <= line.input.rx < 0x8000_0000 && -0x8000_0000 <= line.input.ry < 0x8000_0000
    ensures |LineText(line)| < 200
  {
    hide Signed, ButtonsText, Separated, Pressed, Room;
    SignedLength(if line.frame < 0x8000_0000 then line.frame as int else line.frame as int - U32);
    SignedLength(line.input.lx);
    SignedLength(line.input.ly);
    SignedLength(line.input.rx);
    SignedLength(line.input.ry);
    AllRoom();
    SeparatedLength(line.input.buttons, 0);
    PressedEnds(line.input.buttons);
  }
}
