/** The nx-TAS line format: how one frame of input is written, and how it is read back. */
module NxTasText {
  import opened Basics

  // ----- numbers -----

  predicate IsDigit(c: char) {
    '0' <= c <= '9'
  }

  function DigitChar(d: nat): char
    requires d < 10
  {
    ('0' as int + d) as char
  }

  function DigitValue(c: char): nat
    requires IsDigit(c)
  {
    c as int - '0' as int
  }

  /** What "%d" prints. */
  function Decimal(n: nat): (s: string)
    ensures s != "" && IsDigit(s[0])
  {
    if n < 10 then [DigitChar(n)] else Decimal(n / 10) + [DigitChar(n % 10)]
  }

  function Signed(i: int): string {
    if i < 0 then "-" + Decimal(-i) else Decimal(i)
  }

  predicate IsSpace(c: char) {
    c == ' ' || c == '\t' || c == '\r' || c == '\n'
  }

  predicate IsGap(c: char) {
    c == ' ' || c == '\t'
  }

  /** Reads digits onto a number read so far. */
  function ScanDigits(s: string, n: nat): (nat, string) {
    if s != "" && IsDigit(s[0]) then ScanDigits(s[1..], 10 * n + DigitValue(s[0])) else (n, s)
  }

  function SkipSpace(s: string): string {
    if s != "" && IsSpace(s[0]) then SkipSpace(s[1..]) else s
  }

  /** What "%d" reads: spaces, a sign, and at least one digit. */
  function ScanInt(s: string): Option<(int, string)> {
    var t := SkipSpace(s);
    var negative := t != "" && t[0] == '-';
    var u := if t != "" && (t[0] == '-' || t[0] == '+') then t[1..] else t;
    if u == "" || !IsDigit(u[0]) then None
    else var (n, rest) := ScanDigits(u, 0); Some((if negative then -(n as int) else n as int, rest))
  }

  /** What "%d;%d%n" reads. */
  function ScanPair(s: string): Option<(int, int, string)> {
    match ScanInt(s)
    case None => None
    case Some((a, t)) =>
      if t == "" || t[0] != ';' then None
      else
        match ScanInt(t[1..])
        case None => None
        case Some((b, u)) => Some((a, b, u))
  }

  /** The text does not start with a digit, so a number before it ends there. */
  predicate EndsNumber(rest: string) {
    rest == "" || !IsDigit(rest[0])
  }

  lemma {:induction false} ScanDecimalOnto(n: nat, rest: string)
    ensures ScanDigits(Decimal(n) + rest, 0) == ScanDigits(rest, n)
    decreases n
  {
    if n < 10 {
      assert (Decimal(n) + rest)[1..] == rest;
    } else {
      var last := [DigitChar(n % 10)];
      assert Decimal(n) + rest == Decimal(n / 10) + (last + rest);
      ScanDecimalOnto(n / 10, last + rest);
      assert (last + rest)[1..] == rest;
    }
  }

  /** A printed number reads back, whatever its sign. */
  lemma ScanSigned(i: int, rest: string)
    requires EndsNumber(rest)
    ensures ScanInt(Signed(i) + rest) == Some((i, rest))
  {
    var s := Signed(i) + rest;
    if i < 0 {
      assert s[1..] == Decimal(-i) + rest;
      ScanDecimalOnto(-i, rest);
    } else {
      ScanDecimalOnto(i, rest);
    }
  }

  function Pair(a: int, b: int): string {
    Signed(a) + ";" + Signed(b)
  }

  lemma ScanPrintedPair(a: int, b: int, rest: string)
    requires EndsNumber(rest)
    ensures ScanPair(Pair(a, b) + rest) == Some((a, b, rest))
  {
    hide Signed, ScanInt;
    assert Pair(a, b) + rest == Signed(a) + (";" + Signed(b) + rest);
    ScanSigned(a, ";" + Signed(b) + rest);
    assert (";" + Signed(b) + rest)[1..] == Signed(b) + rest;
    ScanSigned(b, rest);
  }

  // ----- button flags -----

  /** Places in the order the parser tries its flags. */
  const FLAGS: nat := 16

  function Name(k: nat): (s: string)
    requires k < FLAGS
    ensures |s| >= 5
  {
    match k
    case 0 => "KEY_A" case 1 => "KEY_B" case 2 => "KEY_X" case 3 => "KEY_Y"
    case 4 => "KEY_ZL" case 5 => "KEY_ZR" case 6 => "KEY_PLUS" case 7 => "KEY_MINUS"
    case 8 => "KEY_DLEFT" case 9 => "KEY_DUP" case 10 => "KEY_DRIGHT" case 11 => "KEY_DDOWN"
    case 12 => "KEY_LSTICK" case 13 => "KEY_RSTICK" case 14 => "KEY_L" case _ => "KEY_R"
  }

  /** The button bit of a flag. */
  function Bit(k: nat): (b: nat)
    requires k < FLAGS
    ensures b < 16
  {
    if k < 4 then k else if k < 12 then k + 4 else k - 8
  }

  /** The flags by the places of their buttons in the game's button word, first place first. */
  const BY_PLACE: seq<string> := [
    "KEY_A", "KEY_B", "KEY_X", "KEY_Y", "KEY_LSTICK", "KEY_RSTICK", "KEY_L", "KEY_R",
    "KEY_ZL", "KEY_ZR", "KEY_PLUS", "KEY_MINUS", "KEY_DLEFT", "KEY_DUP", "KEY_DRIGHT", "KEY_DDOWN"]

  /** Every flag stands for the button whose place has that name. */
  lemma FlagsInPlace(k: nat)
    requires k < FLAGS
    ensures |BY_PLACE| == 16 && Name(k) == BY_PLACE[Bit(k)]
  {
  }

  /** The flag of a button bit. */
  function FlagOf(b: nat): (k: nat)
    requires b < 16
    ensures k < FLAGS && Bit(k) == b
  {
    if b < 4 then b else if b < 8 then b + 8 else b - 4
  }

  /**
   One pass over the parser's tests from the k-th on. A flag followed by a semicolon starts over;
   one that is not still lets the tests after it run.
   */
  function ParseFlags(s: string, k: nat, buttons: set<nat>): (set<nat>, string)
    requires k <= FLAGS
    decreases |s|, FLAGS - k
  {
    if k == 0 && "NONE" <= s then ({}, s[4..])
    else if k == FLAGS then (buttons, s)
    else if Name(k) <= s then
      var t := s[|Name(k)|..];
      if t != "" && t[0] == ';' then ParseFlags(t[1..], 0, buttons + {Bit(k)})
      else ParseFlags(t, k + 1, buttons + {Bit(k)})
    else ParseFlags(s, k + 1, buttons)
  }

  /** Text that no flag can start or extend into. */
  predicate EndsFlags(rest: string) {
    rest == "" || (rest[0] != 'K' && rest[0] != 'N' && rest[0] != 'S' && rest[0] != ';')
  }

  /** Flags as they are written, in any order. */
  function JoinFlags(ks: seq<nat>): string
    requires forall i :: 0 <= i < |ks| ==> ks[i] < FLAGS
  {
    if ks == [] then "NONE" else JoinSome(ks)
  }

  function JoinSome(ks: seq<nat>): string
    requires ks != [] && forall i :: 0 <= i < |ks| ==> ks[i] < FLAGS
  {
    if |ks| == 1 then Name(ks[0]) else Name(ks[0]) + ";" + JoinSome(ks[1..])
  }

  function BitsOf(ks: seq<nat>): set<nat>
    requires forall i :: 0 <= i < |ks| ==> ks[i] < FLAGS
  {
    set i | 0 <= i < |ks| :: Bit(ks[i])
  }

  /** An earlier test never takes a later flag's text: the two characters after the underscore tell flags apart. */
  lemma OnlyItsOwn(j: nat, k: nat, rest: string)
    requires j < k < FLAGS && (rest == "" || rest[0] != 'S')
    ensures !(Name(j) <= Name(k) + rest)
  {
    SameStart(Name(j), Name(k) + rest);
  }

  lemma SameStart(a: string, t: string)
    requires |a| >= 5
    ensures a <= t ==> a[4] == t[4] && (|a| > 5 ==> a[5] == t[5])
  {
  }

  lemma {:induction false} ReachesFlag(j: nat, k: nat, rest: string, buttons: set<nat>)
    requires j <= k < FLAGS && (rest == "" || rest[0] != 'S')
    ensures var s := Name(k) + rest; ParseFlags(s, j, buttons) == ParseFlags(s, k, buttons)
    decreases k - j
  {
    if j < k {
      OnlyItsOwn(j, k, rest);
      assert (Name(k) + rest)[0] == 'K';
      ReachesFlag(j + 1, k, rest, buttons);
    }
  }

  lemma {:induction false} FlagsEnd(rest: string, k: nat, buttons: set<nat>)
    requires EndsFlags(rest) && k <= FLAGS
    ensures ParseFlags(rest, k, buttons) == (buttons, rest)
    decreases FLAGS - k
  {
    if k < FLAGS {
      FlagsEnd(rest, k + 1, buttons);
      assert Name(k)[0] == 'K';
    }
  }

  /** At its own test a flag is taken off the text. */
  lemma TakesFlag(k: nat, more: string, buttons: set<nat>)
    requires k < FLAGS
    ensures ParseFlags(Name(k) + more, k, buttons) ==
            if more != "" && more[0] == ';' then ParseFlags(more[1..], 0, buttons + {Bit(k)})
            else ParseFlags(more, k + 1, buttons + {Bit(k)})
  {
    var s := Name(k) + more;
    assert s[|Name(k)|..] == more && Name(k) <= s;
    assert s[0] == 'K';
  }

  /** Written flags read back as their bits, whatever their order. */
  lemma {:induction false} ParseJoined(ks: seq<nat>, rest: string, buttons: set<nat>)
    requires ks != [] && (forall i :: 0 <= i < |ks| ==> ks[i] < FLAGS) && EndsFlags(rest)
    ensures ParseFlags(JoinSome(ks) + rest, 0, buttons) == (buttons + BitsOf(ks), rest)
    decreases |ks|
  {
    hide ParseFlags, Name, Bit;
    var k := ks[0];
    if |ks| == 1 {
      ReachesFlag(0, k, rest, buttons);
      TakesFlag(k, rest, buttons);
      FlagsEnd(rest, k + 1, buttons + {Bit(k)});
      assert BitsOf(ks) == {Bit(k)};
    } else {
      var more := ";" + JoinSome(ks[1..]) + rest;
      assert JoinSome(ks) + rest == Name(k) + more;
      ReachesFlag(0, k, more, buttons);
      TakesFlag(k, more, buttons);
      assert more[1..] == JoinSome(ks[1..]) + rest;
      ParseJoined(ks[1..], rest, buttons + {Bit(k)});
      BitsCons(ks);
      assert buttons + {Bit(k)} + BitsOf(ks[1..]) == buttons + BitsOf(ks);
    }
  }

  lemma BitsCons(ks: seq<nat>)
    requires ks != [] && forall i :: 0 <= i < |ks| ==> ks[i] < FLAGS
    ensures BitsOf(ks) == {Bit(ks[0])} + BitsOf(ks[1..])
  {
    hide Bit;
    assert forall i :: 0 < i < |ks| ==> ks[i] == ks[1..][i - 1];
    assert forall i :: 0 <= i < |ks| - 1 ==> ks[1..][i] == ks[i + 1];
  }
}
