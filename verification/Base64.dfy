/** The base64 coder of the handshake and the file upload: three or four characters at a time. */
module Base64Impl {
  import opened Basics

  type Sextet = x: nat | x < 64

  // ----- section 4 of RFC 4648 -----

  /** Table 1 of the standard. */
  function Digit(v: Sextet): char {
    if v < 26 then ('A' as int + v) as char
    else if v < 52 then ('a' as int + v - 26) as char
    else if v < 62 then ('0' as int + v - 52) as char
    else if v == 62 then '+' else '/'
  }

  /** Three bytes as one 24-bit number, cut into four digits, most significant first. */
  function Digits(b0: Byte, b1: Byte, b2: Byte): (d: string)
    ensures |d| == 4
  {
    var n := b0 as nat * 0x1_0000 + b1 as nat * 0x100 + b2 as nat;
    [Digit(n / 0x4_0000), Digit(n / 0x1000 % 64), Digit(n / 64 % 64), Digit(n % 64)]
  }

  function Rfc4648(b: seq<Byte>): string {
    if b == [] then ""
    else if |b| == 1 then Digits(b[0], 0, 0)[..2] + "=="
    else if |b| == 2 then Digits(b[0], b[1], 0)[..3] + "="
    else Digits(b[0], b[1], b[2]) + Rfc4648(b[3..])
  }

  /** Three bytes of an example in section 10 of the standard. */
  lemma ThreeBytes()
    ensures Digits(0x66, 0x6f, 0x6f) == "Zm9v"
  {
  }

  /** Three bytes that need the digits past the numbers. */
  lemma LastDigits()
    ensures Digits(0xfb, 0xff, 0xbf) == "+/+/"
  {
  }

  lemma StandardExamples()
    ensures Rfc4648([0x66, 0x6f, 0x6f]) == "Zm9v" && Rfc4648([0xfb, 0xff, 0xbf]) == "+/+/"
    ensures Rfc4648([0x66]) == "Zg==" && Rfc4648([0x66, 0x6f]) == "Zm8="
  {
    ThreeBytes();
    LastDigits();
    assert Digits(0x66, 0, 0)[..2] == "Zg" && Digits(0x66, 0x6f, 0)[..3] == "Zm8";
    hide Digits;
    var a: seq<Byte> := [0x66, 0x6f, 0x6f];
    var b: seq<Byte> := [0xfb, 0xff, 0xbf];
    assert a[3..] == [] && b[3..] == [] && Rfc4648([]) == "";
  }

  lemma {:induction false} Rfc4648Length(b: seq<Byte>)
    ensures |Rfc4648(b)| == (|b| + 2) / 3 * 4
    decreases |b|
  {
    hide Digits;
    if |b| >= 3 { Rfc4648Length(b[3..]); }
  }

  lemma {:induction false} Rfc4648Concat(a: seq<Byte>, b: seq<Byte>)
    requires |a| % 3 == 0
    ensures Rfc4648(a + b) == Rfc4648(a) + Rfc4648(b)
    decreases |a|
  {
    if a == [] {
      assert a + b == b;
    } else {
      assert (a + b)[3..] == a[3..] + b;
      Rfc4648Concat(a[3..], b);
    }
  }

  // ----- the encoder -----

  /**
   The four sextets the encoder computes from its three bytes, masks and shifts written as quotients and remainders.
   */
  function Split(a: seq<Byte>): (s: seq<Sextet>)
    requires |a| == 3
    ensures |s| == 4
  {
    [a[0] / 4, a[0] % 4 * 16 + a[1] / 16, a[1] % 16 * 4 + a[2] / 64, a[2] % 64]
  }

  lemma Cut(x: nat, y: nat, z: nat)
    requires x < 0x100 && y < 0x100 && z < 0x100
    ensures var n := x * 0x1_0000 + y * 0x100 + z;
            && n / 0x4_0000 == x / 4 && n / 0x1000 % 64 == x % 4 * 16 + y / 16
            && n / 64 % 64 == y % 16 * 4 + z / 64 && n % 64 == z % 64
  {
    var n := x * 0x1_0000 + y * 0x100 + z;
    Drop(x / 4, x % 4 * 0x1_0000 + y * 0x100 + z, 0x4_0000);
    Drop(x * 16 + y / 16, y % 16 * 0x100 + z, 0x1000);
    Drop(x / 4, x % 4 * 16 + y / 16, 64);
    Drop(x * 1024 + y * 4 + z / 64, z % 64, 64);
    Drop(x * 16 + y / 16, y % 16 * 4 + z / 64, 64);
  }

  lemma SplitIsDigits(a: seq<Byte>)
    requires |a| == 3
    ensures var d := Digits(a[0], a[1], a[2]); var s := Split(a);
            d == [Digit(s[0]), Digit(s[1]), Digit(s[2]), Digit(s[3])]
  {
    Cut(a[0], a[1], a[2]);
  }

  /** Three bytes given to the encoder, digit by digit. */
  method EmitGroup(chars3: seq<Byte>, count: nat, ret: string) returns (r: string)
    requires |chars3| == 3 && count <= 4
    ensures r == ret + Digits(chars3[0], chars3[1], chars3[2])[..count]
  {
    hide Digit, Digits;
    var chars4 := Split(chars3);
    SplitIsDigits(chars3);
    r := ret;
    for j := 0 to count
      invariant r == ret + Digits(chars3[0], chars3[1], chars3[2])[..j]
    {
      r := r + [Digit(chars4[j])];
    }
  }

  /** The digits of the first `count` of three bytes, when the others are zero or are all used. */
  lemma LastGroup(chars3: seq<Byte>, count: nat)
    requires |chars3| == 3 && 1 <= count <= 3 && forall k :: count <= k < 3 ==> chars3[k] == 0
    ensures Rfc4648(chars3[..count]) ==
            Digits(chars3[0], chars3[1], chars3[2])[..count + 1]
            + if count == 1 then "==" else if count == 2 then "=" else ""
  {
    hide Digits;
    if count == 3 {
      assert chars3[..3] == chars3 && chars3[3..] == [];
    }
  }

  lemma EmptyGroup()
    ensures Rfc4648([]) == ""
  {
  }

  /** One more full group behind what is encoded. */
  lemma FullGroup(done: seq<Byte>, chars3: seq<Byte>)
    requires |done| % 3 == 0 && |chars3| == 3
    ensures Rfc4648(done + chars3) == Rfc4648(done) + Digits(chars3[0], chars3[1], chars3[2])[..4]
  {
    hide Digits, Rfc4648;
    Rfc4648Concat(done, chars3);
    LastGroup(chars3, 3);
    assert chars3[..3] == chars3;
    Behind(Rfc4648(done), Rfc4648(chars3), Digits(chars3[0], chars3[1], chars3[2])[..4], "");
  }

  /** The last bytes, short of a group, behind what is encoded. */
  lemma TailGroup(done: seq<Byte>, i: nat, chars3: seq<Byte>)
    requires |done| % 3 == 0 && 1 <= i < 3 && |chars3| == 3 && forall k :: i <= k < 3 ==> chars3[k] == 0
    ensures Rfc4648(done + chars3[..i])
         == Rfc4648(done) + Digits(chars3[0], chars3[1], chars3[2])[..i + 1] + if i == 1 then "==" else "="
  {
    hide Digits, Rfc4648;
    Rfc4648Concat(done, chars3[..i]);
    LastGroup(chars3, i);
    var digits, pad := Digits(chars3[0], chars3[1], chars3[2])[..i + 1], if i == 1 then "==" else "=";
    Behind(Rfc4648(done), Rfc4648(chars3[..i]), digits, pad);
  }

  lemma Behind(a: string, b: string, c: string, d: string)
    requires b == c + d
    ensures a + b == a + c + d
  {
  }

  /** Fills the group up with zeros, emits the digits that say something, and pads the rest. */
  method EmitTail(ghost done: seq<Byte>, i: nat, chars3: array<Byte>, encoded: string) returns (ret: string)
    requires chars3.Length == 3 && 1 <= i < 3 && |done| % 3 == 0 && encoded == Rfc4648(done)
    modifies chars3
    ensures ret == Rfc4648(done + old(chars3[..i]))
  {
    hide Digits, Rfc4648;
    for j := i to 3
      invariant chars3[..i] == old(chars3[..i])
      invariant forall k :: i <= k < j ==> chars3[k] == 0
    {
      chars3[j] := 0;
    }
    TailGroup(done, i, chars3[..]);
    assert chars3[..][..i] == chars3[..i];
    ret := EmitGroup(chars3[..], i + 1, encoded);
    ghost var digits := ret;
    var k := i;
    while k < 3
      invariant i <= k <= 3 && ret == digits + if k == i then "" else if k == i + 1 then "=" else "=="
    {
      ret := ret + "=";
      k := k + 1;
    }
  }

  lemma OneMore(input: seq<Byte>, at: nat, done: seq<Byte>, part: seq<Byte>)
    requires at < |input| && input[..at] == done + part
    ensures input[..at + 1] == done + (part + [input[at]])
  {
    assert input[..at + 1] == input[..at] + [input[at]];
  }

  method Encode(input: seq<Byte>) returns (ret: string)
    ensures ret == Rfc4648(input)
  {
    hide Digits, Rfc4648;
    EmptyGroup();
    ret := "";
    var chars3 := new Byte[3](_ => 0);
    var i, at := 0, 0;
    ghost var done: seq<Byte> := [];
    while at < |input|
      invariant 0 <= i < 3 && at <= |input| && |done| % 3 == 0
      invariant input[..at] == done + chars3[..i]
      invariant ret == Rfc4648(done)
    {
      OneMore(input, at, done, chars3[..i]);
      ghost var part := chars3[..i] + [input[at]];
      chars3[i] := input[at];
      i, at := i + 1, at + 1;
      assert chars3[..i] == part;
      if i == 3 {
        assert chars3[..] == part;
        FullGroup(done, chars3[..]);
        ret := EmitGroup(chars3[..], 4, ret);
        done, i := done + part, 0;
        assert chars3[..0] == [];
      }
    }
    assert input[..at] == input;
    if i > 0 {
      ret := EmitTail(done, i, chars3, ret);
    }
  }

  // ----- the decoder -----

  predicate IsBase64(c: char) {
    c == '+' || '/' <= c <= '9' || 'A' <= c <= 'Z' || 'a' <= c <= 'z'
  }

  /** The place of a character in the alphabet; a character that is not there gives 255. */
  function Find(c: char): (v: Byte)
    ensures if v < 64 then Digit(v) == c else v == 255 && forall w: Sextet :: Digit(w) != c
  {
    if 'A' <= c <= 'Z' then c as int - 'A' as int
    else if 'a' <= c <= 'z' then c as int - 'a' as int + 26
    else if '0' <= c <= '9' then c as int - '0' as int + 52
    else if c == '+' then 62 else if c == '/' then 63 else 255
  }

  /** The three bytes the decoder computes from four alphabet places, each cut to eight bits. */
  function Join(v: seq<Byte>): (b: seq<Byte>)
    requires |v| == 4
    ensures |b| == 3
  {
    var w, x, y, z: nat := v[0], v[1], v[2], v[3];
    [(w * 4 + x / 16 % 4) % 0x100, (x % 16 * 16 + y / 4 % 16) % 0x100, (y % 4 * 64 + z) % 0x100]
  }

  function FindAll(s: string): (v: seq<Byte>)
    ensures |v| == |s|
  {
    seq(|s|, i requires 0 <= i < |s| => Find(s[i]))
  }

  /**
   What decoding a run of alphabet characters gives: a short last group yields one byte less than it has characters.
   */
  function Decoded(s: string): seq<Byte> {
    if |s| >= 4 then Join(FindAll(s[..4])) + Decoded(s[4..])
    else if s == "" then []
    else Join(FindAll(s + seq(4 - |s|, _ => '\0')))[..|s| - 1]
  }

  /** The characters before the first one that is not in the alphabet. */
  function Accepted(s: string): string {
    if s == "" || s[0] == '=' || !IsBase64(s[0]) then "" else [s[0]] + Accepted(s[1..])
  }

  lemma {:induction false} DecodedConcat(a: string, b: string)
    requires |a| % 4 == 0
    ensures Decoded(a + b) == Decoded(a) + Decoded(b)
    decreases |a|
  {
    if a == "" {
      assert a + b == b;
    } else {
      assert (a + b)[..4] == a[..4] && (a + b)[4..] == a[4..] + b;
      DecodedConcat(a[4..], b);
    }
  }

  lemma {:induction false} AcceptedPrefix(s: string, n: nat)
    requires n <= |s| && (forall i :: 0 <= i < n ==> s[i] != '=' && IsBase64(s[i]))
    requires n < |s| ==> s[n] == '=' || !IsBase64(s[n])
    ensures Accepted(s) == s[..n]
    decreases n
  {
    if n > 0 { AcceptedPrefix(s[1..], n - 1); }
  }

  method Decode(input: string) returns (ret: seq<Byte>)
    ensures ret == Decoded(Accepted(input))
  {
    hide Join, FindAll, Decoded, Accepted, IsBase64;
    ShortGroups();
    ret := [];
    var chars4 := new char[4](_ => '\0');
    var i, at := 0, 0;
    while at < |input| && input[at] != '=' && IsBase64(input[at])
      invariant 0 <= i < 4 && i <= at <= |input| && (at - i) % 4 == 0
      invariant forall k :: 0 <= k < at ==> input[k] != '=' && IsBase64(input[k])
      invariant forall k :: 0 <= k < i ==> chars4[k] == input[at - i + k]
      invariant ret == Decoded(input[..at - i])
    {
      chars4[i] := input[at];
      i, at := i + 1, at + 1;
      if i == 4 {
        var chars3 := Join(FindAll(chars4[..]));
        ghost var done := input[..at - 4];
        assert input[..at] == done + chars4[..];
        DecodedConcat(done, chars4[..]);
        OneGroup(chars4[..]);
        ret := ret + chars3;
        i := 0;
      }
    }
    AcceptedPrefix(input, at);
    ghost var done, rest := input[..at - i], input[at - i..at];
    assert input[..at] == done + rest;
    DecodedConcat(done, rest);
    if i > 0 {
      for j := i to 4
        invariant forall k :: 0 <= k < i ==> chars4[k] == rest[k]
        invariant forall k :: i <= k < j ==> chars4[k] == '\0'
      {
        chars4[j] := '\0';
      }
      assert chars4[..] == rest + seq(4 - i, _ => '\0');
      ShortGroup(rest);
      var chars3 := Join(FindAll(chars4[..]));
      ret := ret + chars3[..i - 1];
    }
  }

  lemma ShortGroups()
    ensures Decoded("") == []
  {
  }

  lemma ShortGroup(s: string)
    requires 0 < |s| < 4
    ensures Decoded(s) == Join(FindAll(s + seq(4 - |s|, _ => '\0')))[..|s| - 1]
  {
  }

  lemma OneGroup(s: string)
    requires |s| == 4
    ensures Decoded(s) == Join(FindAll(s))
  {
    assert s[..4] == s && s[4..] == "";
  }

  // ----- the round trip -----

  lemma FindDigit(v: Sextet)
    ensures Find(Digit(v)) == v && IsBase64(Digit(v)) && Digit(v) != '='
  {
  }

  function Places(w: Byte, x: Byte, y: Byte, z: Byte): (p: seq<Byte>)
    ensures |p| == 4
  {
    [w, x, y, z]
  }

  /** Joining what was split gives the bytes back, even where the last places are missing. */
  lemma JoinSplit(a: seq<Byte>)
    requires |a| == 3
    ensures var s := Split(a);
            && Join(Places(s[0], s[1], s[2], s[3])) == a
            && (a[2] == 0 ==> Join(Places(s[0], s[1], s[2], 255))[..2] == a[..2])
            && (a[1] == a[2] == 0 ==> Join(Places(s[0], s[1], 255, 255))[..1] == a[..1])
  {
    Rejoin(a[0], a[1], a[2]);
  }

  lemma Rejoin(x: nat, y: nat, z: nat)
    requires x < 0x100 && y < 0x100 && z < 0x100
    ensures (x / 4 * 4 + (x % 4 * 16 + y / 16) / 16 % 4) % 0x100 == x
    ensures ((x % 4 * 16 + y / 16) % 16 * 16 + (y % 16 * 4 + z / 64) / 4 % 16) % 0x100 == y
    ensures ((y % 16 * 4 + z / 64) % 4 * 64 + z % 64) % 0x100 == z
    ensures z == 0 ==> ((x % 4 * 16 + y / 16) % 16 * 16 + (y % 16 * 4) / 4 % 16) % 0x100 == y
  {
    assert x / 4 * 4 + (x % 4 * 16 + y / 16) / 16 % 4 == x;
    assert (x % 4 * 16 + y / 16) % 16 * 16 + (y % 16 * 4 + z / 64) / 4 % 16 == y;
    assert (y % 16 * 4 + z / 64) % 4 * 64 + z % 64 == z;
  }

  lemma FindSplit(a: seq<Byte>)
    requires |a| == 3
    ensures var d := Digits(a[0], a[1], a[2]); var s := Split(a);
            && FindAll(d) == Places(s[0], s[1], s[2], s[3])
            && FindAll(d[..3] + ['\0']) == Places(s[0], s[1], s[2], 255)
            && FindAll(d[..2] + ['\0', '\0']) == Places(s[0], s[1], 255, 255)
            && forall i :: 0 <= i < 4 ==> d[i] != '=' && IsBase64(d[i])
  {
    hide Digits, Digit, IsBase64, Split;
    SplitIsDigits(a);
    var s := Split(a);
    FindDigit(s[0]);
    FindDigit(s[1]);
    FindDigit(s[2]);
    FindDigit(s[3]);
  }

  lemma AcceptedAfter(d: string, s: string)
    requires forall i :: 0 <= i < |d| ==> d[i] != '=' && IsBase64(d[i])
    ensures Accepted(d + s) == d + Accepted(s)
    decreases |d|
  {
    if d == "" { assert d + s == s; } else {
      assert (d + s)[1..] == d[1..] + s;
      AcceptedAfter(d[1..], s);
    }
  }

  /** Decoding what the encoder writes gives the bytes back, for every byte string. */
  lemma {:induction false} RoundTrip(b: seq<Byte>)
    ensures Decoded(Accepted(Rfc4648(b))) == b
    decreases |b|
  {
    hide Digits, Join, FindAll, Split, IsBase64;
    if b != [] {
      var a := [b[0], if |b| > 1 then b[1] else 0, if |b| > 2 then b[2] else 0];
      var d := Digits(a[0], a[1], a[2]);
      FindSplit(a);
      JoinSplit(a);
      if |b| == 1 {
        AcceptedAfter(d[..2], "==");
        assert Accepted("==") == "" && d[..2] + "" == d[..2];
        assert d[..2] + seq(2, _ => '\0') == d[..2] + ['\0', '\0'];
      } else if |b| == 2 {
        AcceptedAfter(d[..3], "=");
        assert Accepted("=") == "" && d[..3] + "" == d[..3];
        assert d[..3] + seq(1, _ => '\0') == d[..3] + ['\0'];
      } else {
        AcceptedAfter(d, Rfc4648(b[3..]));
        DecodedConcat(d, Accepted(Rfc4648(b[3..])));
        OneGroup(d);
        RoundTrip(b[3..]);
        assert b == a + b[3..];
      }
    }
  }
}
