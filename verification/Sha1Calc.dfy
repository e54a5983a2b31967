/** The streaming SHA-1 of the handshake: a reused buffer of eighty words, updated in place. */
module Sha1Impl {
  import opened Sha1Spec
  import Basics

  function Rol(value: Word, steps: nat): Word
    requires steps <= 32
  {
    (value << steps) | (value >> (32 - steps))
  }

  /** One use of the round macro: the registers after it. */
  function Macro(h: Hash, func: Word, val: Word, w: Word): Hash {
    Hash(Sum(Rol(h.a, 5), func, h.e, val, w), h.a, Rol(h.b, 30), h.c, h.d)
  }

  lemma RolIsRotl(x: Word)
    ensures Rol(x, 1) == Rotl(x, 1) && Rol(x, 5) == Rotl(x, 5) && Rol(x, 30) == Rotl(x, 30)
  {
  }

  /** The code's choice and majority functions combine the same terms with "or". */
  function Select(x: Word, y: Word, z: Word): Word {
    (x & y) | (!x & z)
  }

  function Vote(x: Word, y: Word, z: Word): Word {
    (x & y) | (x & z) | (y & z)
  }

  lemma ExclusiveChoice(x: Word, y: Word, z: Word)
    ensures (x & y) | (!x & z) == (x & y) ^ (!x & z)
  {
  }

  lemma OddMajority(x: Word, y: Word, z: Word)
    ensures (x & y) | (x & z) | (y & z) == (x & y) ^ (x & z) ^ (y & z)
  {
  }

  lemma SelectIsCh(x: Word, y: Word, z: Word)
    ensures Select(x, y, z) == Ch(x, y, z)
  {
    ExclusiveChoice(x, y, z);
  }

  lemma VoteIsMaj(x: Word, y: Word, z: Word)
    ensures Vote(x, y, z) == Maj(x, y, z)
  {
    OddMajority(x, y, z);
  }

  /** The word the code computes for the logical function of a round. */
  function Func(t: nat, h: Hash): Word {
    if t < 20 then Select(h.b, h.c, h.d) else if 40 <= t < 60 then Vote(h.b, h.c, h.d) else Parity(h.b, h.c, h.d)
  }

  lemma MacroIsRound(h: Hash, t: nat, w: Word)
    ensures Macro(h, Func(t, h), Constant(t), w) == Round(h, t, w)
  {
    hide Rol, Rotl, Sum, Func, Logical, Constant;
    RolIsRotl(h.a);
    RolIsRotl(h.b);
    FuncIsLogical(t, h);
  }

  lemma FuncIsLogical(t: nat, h: Hash)
    ensures Func(t, h) == Logical(t, h.b, h.c, h.d)
  {
    hide Select, Vote, Ch, Maj, Parity;
    SelectIsCh(h.b, h.c, h.d);
    VoteIsMaj(h.b, h.c, h.d);
  }

  lemma RoundsNext(block: seq<Word>, h: Hash, t: nat, w: Word)
    requires |block| == 16 && w == Schedule(block, t)
    ensures var r := Rounds(block, h, t); Macro(r, Func(t, r), Constant(t), w) == Rounds(block, h, t + 1)
  {
    hide Macro, Round, Schedule, Func, Constant;
    MacroIsRound(Rounds(block, h, t), t, w);
  }

  lemma ScheduleNext(block: seq<Word>, w: seq<Word>, t: nat)
    requires |block| == 16 && 16 <= t <= |w| && forall j :: 0 <= j < t ==> w[j] == Schedule(block, j)
    ensures Rol(w[t - 3] ^ w[t - 8] ^ w[t - 14] ^ w[t - 16], 1) == Schedule(block, t)
  {
    hide Rol, Rotl;
    RolIsRotl(w[t - 3] ^ w[t - 8] ^ w[t - 14] ^ w[t - 16]);
  }

  function HashOf(r: seq<Word>): Hash
    requires |r| == 5
  {
    Hash(r[0], r[1], r[2], r[3], r[4])
  }

  method ClearWBuffer(w: array<Word>)
    requires w.Length == 80
    modifies w
    ensures forall j :: 0 <= j < 16 ==> w[j] == 0
  {
    var pos := 16;
    while pos > 0
      invariant 0 <= pos <= 16 && forall j :: pos <= j < 16 ==> w[j] == 0
    {
      pos := pos - 1;
      w[pos] := 0;
    }
  }

  /** Extends the message schedule by one word, in place. */
  method Expand(w: array<Word>, t: nat, ghost block: seq<Word>)
    requires w.Length == 80 && |block| == 16 && 16 <= t < 80 && forall j :: 0 <= j < t ==> w[j] == Schedule(block, j)
    modifies w
    ensures forall j :: 0 <= j <= t ==> w[j] == Schedule(block, j)
  {
    hide Schedule, Rol;
    ScheduleNext(block, w[..], t);
    w[t] := Rol(w[t - 3] ^ w[t - 8] ^ w[t - 14] ^ w[t - 16], 1);
  }

  /** The rounds that use the choice function; the first sixteen find their words already there. */
  method ChooseRounds(start: Hash, w: array<Word>, from: nat, to: nat, ghost block: seq<Word>,
      ghost h0: Hash) returns (h: Hash)
    requires w.Length == 80 && |block| == 16 && from <= to <= 20 && (from < 16 ==> to <= 16) &&
             start == Rounds(block, h0, from)
    requires forall j :: 0 <= j < 16 || 0 <= j < from ==> w[j] == Schedule(block, j)
    modifies w
    ensures h == Rounds(block, h0, to) && forall j :: 0 <= j < 16 || 0 <= j < to ==> w[j] == Schedule(block, j)
  {
    hide Schedule, Rounds, Macro, Select, Vote, Parity;
    h := start;
    for round := from to to
      invariant h == Rounds(block, h0, round)
      invariant forall j :: 0 <= j < 16 || 0 <= j < round ==> w[j] == Schedule(block, j)
    {
      if round >= 16 { Expand(w, round, block); }
      RoundsNext(block, h0, round, w[round]);
      h := Macro(h, Select(h.b, h.c, h.d), 0x5a827999, w[round]);
    }
  }

  method ParityRounds(start: Hash, w: array<Word>, from: nat, val: Word, ghost block: seq<Word>,
      ghost h0: Hash) returns (h: Hash)
    requires w.Length == 80 && |block| == 16 && from in {20, 60} && val == Constant(from) &&
             start == Rounds(block, h0, from)
    requires forall j :: 0 <= j < from ==> w[j] == Schedule(block, j)
    modifies w
    ensures h == Rounds(block, h0, from + 20) && forall j :: 0 <= j < from + 20 ==> w[j] == Schedule(block, j)
  {
    hide Schedule, Rounds, Macro, Select, Vote, Parity;
    h := start;
    for round := from to from + 20
      invariant h == Rounds(block, h0, round)
      invariant forall j :: 0 <= j < round ==> w[j] == Schedule(block, j)
    {
      Expand(w, round, block);
      RoundsNext(block, h0, round, w[round]);
      h := Macro(h, Parity(h.b, h.c, h.d), val, w[round]);
    }
  }

  method MajorityRounds(start: Hash, w: array<Word>, ghost block: seq<Word>, ghost h0: Hash) returns (h: Hash)
    requires w.Length == 80 && |block| == 16 && start == Rounds(block, h0, 40)
    requires forall j :: 0 <= j < 40 ==> w[j] == Schedule(block, j)
    modifies w
    ensures h == Rounds(block, h0, 60) && forall j :: 0 <= j < 60 ==> w[j] == Schedule(block, j)
  {
    hide Schedule, Rounds, Macro, Select, Vote, Parity;
    h := start;
    for round := 40 to 60
      invariant h == Rounds(block, h0, round)
      invariant forall j :: 0 <= j < round ==> w[j] == Schedule(block, j)
    {
      Expand(w, round, block);
      RoundsNext(block, h0, round, w[round]);
      h := Macro(h, Vote(h.b, h.c, h.d), 0x8f1bbcdc, w[round]);
    }
  }

  /** Hashes the block in the first sixteen words of the buffer into the running result. */
  method InnerHash(result: array<Word>, w: array<Word>)
    requires result.Length == 5 && w.Length == 80 && result != w
    modifies result, w
    ensures HashOf(result[..]) == Compress(HashOf(old(result[..])), old(w[..16]))
  {
    hide Schedule, Rounds, Plus;
    var h := Hash(result[0], result[1], result[2], result[3], result[4]);
    ghost var h0, block := h, w[..16];
    RoundsStart(block, h0);
    h := ChooseRounds(h, w, 0, 16, block, h0);
    h := ChooseRounds(h, w, 16, 20, block, h0);
    h := ParityRounds(h, w, 20, 0x6ed9eba1, block, h0);
    h := MajorityRounds(h, w, block, h0);
    h := ParityRounds(h, w, 60, 0xca62c1d6, block, h0);
    result[0] := Plus(result[0], h.a);
    result[1] := Plus(result[1], h.b);
    result[2] := Plus(result[2], h.c);
    result[3] := Plus(result[3], h.d);
    result[4] := Plus(result[4], h.e);
  }

  lemma RoundsStart(block: seq<Word>, h: Hash)
    requires |block| == 16
    ensures Rounds(block, h, 0) == h && forall j :: 0 <= j < 16 ==> block[j] == Schedule(block, j)
  {
  }

  // ----- the message, block by block -----

  /** A byte moved to its place in the word it belongs to. */
  function Placed(x: Byte, i: nat): Word {
    (x as Word) << ((3 - i % 4) * 8)
  }

  function Or(x: Word, y: Word): Word {
    x | y
  }

  lemma PlacedShift(x: Byte, i: nat)
    ensures i % 4 == 0 ==> Placed(x, i) == (x as Word) << 24
    ensures i % 4 == 1 ==> Placed(x, i) == (x as Word) << 16
    ensures i % 4 == 2 ==> Placed(x, i) == (x as Word) << 8
    ensures i % 4 == 3 ==> Placed(x, i) == x as Word
  {
  }

  lemma OrFirst(x: Byte)
    ensures Or(BytesWord(0, 0, 0, 0), (x as Word) << 24) == BytesWord(x, 0, 0, 0)
  {
  }

  lemma OrSecond(a: Byte, x: Byte)
    ensures Or(BytesWord(a, 0, 0, 0), (x as Word) << 16) == BytesWord(a, x, 0, 0)
  {
  }

  lemma OrThird(a: Byte, b: Byte, x: Byte)
    ensures Or(BytesWord(a, b, 0, 0), (x as Word) << 8) == BytesWord(a, b, x, 0)
  {
  }

  lemma OrFourth(a: Byte, b: Byte, c: Byte, x: Byte)
    ensures Or(BytesWord(a, b, c, 0), x as Word) == BytesWord(a, b, c, x)
  {
  }

  lemma PlaceInWord(a: Byte, b: Byte, c: Byte, x: Byte, i: nat)
    ensures i % 4 == 0 ==> Or(BytesWord(0, 0, 0, 0), Placed(x, i)) == BytesWord(x, 0, 0, 0)
    ensures i % 4 == 1 ==> Or(BytesWord(a, 0, 0, 0), Placed(x, i)) == BytesWord(a, x, 0, 0)
    ensures i % 4 == 2 ==> Or(BytesWord(a, b, 0, 0), Placed(x, i)) == BytesWord(a, b, x, 0)
    ensures i % 4 == 3 ==> Or(BytesWord(a, b, c, 0), Placed(x, i)) == BytesWord(a, b, c, x)
  {
    hide Or, BytesWord, Placed;
    PlacedShift(x, i);
    OrFirst(x);
    OrSecond(a, x);
    OrThird(a, b, x);
    OrFourth(a, b, c, x);
  }

  /** Or-ing a byte into place extends the zero-padded words by that byte. */
  lemma PlaceByte(s: seq<Byte>, x: Byte)
    ensures Or(WordAt(s, |s| / 4), Placed(x, |s|)) == WordAt(s + [x], |s| / 4)
    ensures forall j: nat :: j != |s| / 4 ==> WordAt(s + [x], j) == WordAt(s, j)
  {
    hide Or, BytesWord, Placed;
    var j, t := |s| / 4, s + [x];
    assert forall i: nat :: i != |s| ==> ByteAt(t, i) == ByteAt(s, i);
    PlaceInWord(ByteAt(s, 4 * j), ByteAt(s, 4 * j + 1), ByteAt(s, 4 * j + 2), x, |s|);
  }

  lemma EmptyWords()
    ensures forall j: nat :: WordAt([], j) == 0
  {
    hide WordAt, BytesWord;
    forall j: nat ensures WordAt([], j) == 0 { EmptyWord(j); }
  }

  lemma EmptyWord(j: nat)
    ensures WordAt([], j) == 0
  {
  }

  /** Loads a whole block into the first sixteen words. */
  method LoadBlock(src: seq<Byte>, at: nat, w: array<Word>)
    requires at + 64 <= |src| && w.Length == 80
    modifies w
    ensures w[..16] == Block(src[at..at + 64])
  {
    hide BytesWord;
    for i := 0 to 16
      invariant forall j :: 0 <= j < i ==> w[j] == WordAt(src[at..at + 64], j)
    {
      w[i] := BytesWord(src[at + 4 * i], src[at + 4 * i + 1], src[at + 4 * i + 2], src[at + 4 * i + 3]);
    }
  }

  /** Loads what is left of the message, and the bit that ends it, over zeroed words. */
  method LoadTail(src: seq<Byte>, at: nat, w: array<Word>)
    requires at <= |src| < at + 64 && w.Length == 80
    modifies w
    ensures forall j :: 0 <= j < 16 ==> w[j] == WordAt(src[at..] + [0x80], j)
  {
    hide WordAt, Placed;
    ClearWBuffer(w);
    EmptyWords();
    var count := |src| - at;
    var n := 0;
    assert src[at..at] == [];
    while n < count
      invariant n <= count && forall j :: 0 <= j < 16 ==> w[j] == WordAt(src[at..at + n], j)
    {
      PlaceByte(src[at..at + n], src[at + n]);
      assert src[at..at + n] + [src[at + n]] == src[at..at + n + 1];
      w[n / 4] := Or(w[n / 4], Placed(src[at + n], n));
      n := n + 1;
    }
    assert src[at..at + n] == src[at..];
    PlaceByte(src[at..], 0x80);
    w[n / 4] := Or(w[n / 4], Placed(0x80, n));
  }

  // ----- padding -----

  /** The length the code writes: the low 32 bits of the bit count, with zeros above them. */
  function CodedLength(s: seq<Byte>): nat {
    BitLength(s) % 0x1_0000_0000
  }

  /** The 32-bit word that a count is cut down to. */
  function Low32(n: nat): Word {
    BytesWord(ByteOf(n, 0x100_0000), ByteOf(n, 0x1_0000), ByteOf(n, 0x100), ByteOf(n, 1))
  }

  lemma LengthWords(n: nat)
    ensures var b := LengthBytes(n % 0x1_0000_0000);
            b[0] == b[1] == b[2] == b[3] == 0 && BytesWord(b[4], b[5], b[6], b[7]) == Low32(n)
  {
    hide ByteOf, BytesWord;
    var m := n % 0x1_0000_0000;
    HighBytes(m);
    LowBytes(n);
  }

  lemma HighBytes(m: nat)
    requires m < 0x1_0000_0000
    ensures ByteOf(m, 0x100_0000_0000_0000) == 0 && ByteOf(m, 0x1_0000_0000_0000) == 0
    ensures ByteOf(m, 0x100_0000_0000) == 0 && ByteOf(m, 0x1_0000_0000) == 0
  {
  }

  lemma LowBytes(n: nat)
    ensures var m := n % 0x1_0000_0000;
            && ByteOf(m, 0x100_0000) == ByteOf(n, 0x100_0000) && ByteOf(m, 0x1_0000) == ByteOf(n, 0x1_0000)
            && ByteOf(m, 0x100) == ByteOf(n, 0x100) && ByteOf(m, 1) == ByteOf(n, 1)
  {
    LowDigits(n);
  }

  lemma LowDigits(n: nat)
    ensures var m := n % 0x1_0000_0000;
            && m / 0x100_0000 % 0x100 == n / 0x100_0000 % 0x100 && m / 0x1_0000 % 0x100 == n / 0x1_0000 % 0x100
            && m / 0x100 % 0x100 == n / 0x100 % 0x100 && m % 0x100 == n % 0x100
  {
    var m, q := n % 0x1_0000_0000, n / 0x1_0000_0000;
    Basics.AddMultiples(q * 0x100, m, 0x100_0000);
    Basics.AddMultiples(q, m / 0x100_0000, 0x100);
    Basics.AddMultiples(q * 0x1_0000, m, 0x1_0000);
    Basics.AddMultiples(q * 0x100, m / 0x1_0000, 0x100);
    Basics.AddMultiples(q * 0x100_0000, m, 0x100);
    Basics.AddMultiples(q * 0x1_0000, m / 0x100, 0x100);
    Basics.AddMultiples(q * 0x100_0000, m, 0x100);
  }

  lemma {:induction false} HashBlocksPrefix(a: seq<Byte>, b: seq<Byte>, n: nat)
    requires 64 * n <= |a| && 64 * n <= |b| && a[..64 * n] == b[..64 * n]
    ensures HashBlocks(a, n) == HashBlocks(b, n)
  {
    hide Compress, Block;
    if n > 0 {
      var m := 64 * (n - 1);
      assert a[..m] == a[..64 * n][..m] == b[..64 * n][..m] == b[..m];
      assert a[m..64 * n] == a[..64 * n][m..] == b[..64 * n][m..] == b[m..64 * n];
      HashBlocksPrefix(a, b, n - 1);
    }
  }

  lemma PaddedWithZeros(head: seq<Byte>, k: nat)
    ensures forall j: nat :: WordAt(head + Zeros(k), j) == WordAt(head, j)
  {
    hide BytesWord;
    assert forall i: nat :: ByteAt(head + Zeros(k), i) == ByteAt(head, i);
  }

  /** A block that ends with the length: its last two words are the length, the others what came before. */
  lemma LengthBlock(head: seq<Byte>, k: nat, length: nat)
    requires |head| + k == 56
    ensures var s := head + Zeros(k) + LengthBytes(length); var b := LengthBytes(length);
            && |s| == 64 && (forall j: nat :: j < 14 ==> WordAt(s, j) == WordAt(head, j))
            && WordAt(s, 14) == BytesWord(b[0], b[1], b[2], b[3]) && WordAt(s, 15) == BytesWord(b[4], b[5], b[6], b[7])
            && WordAt(head, 14) == BytesWord(0, 0, 0, 0)
  {
    hide BytesWord, LengthBytes;
    var s, b := head + Zeros(k) + LengthBytes(length), LengthBytes(length);
    assert forall i: nat :: i < 56 ==> ByteAt(s, i) == ByteAt(head, i);
    assert forall i: nat :: i < 8 ==> ByteAt(s, 56 + i) == b[i];
  }

  lemma LastBlocks(src: seq<Byte>, length: nat)
    ensures var p := Padded(src, length); var n := |src| / 64; var head := src[64 * n..] + [0x80];
            && p[..64 * n] == src[..64 * n] && |head| <= 64
            && if |head| <= 56 then
                 |p| == 64 * (n + 1) && p[64 * n..64 * (n + 1)] == head + Zeros(56 - |head|) + LengthBytes(length)
               else
                 && |p| == 64 * (n + 2) && p[64 * n..64 * (n + 1)] == head + Zeros(64 - |head|)
                 && p[64 * (n + 1)..64 * (n + 2)] == Zeros(56) + LengthBytes(length)
  {
    hide LengthBytes;
    var n := |src| / 64;
    var r, k := |src| - 64 * n, PadZeros(|src|);
    assert 0 <= r < 64 && |src| % 64 == r;
    assert k == if r < 56 then 55 - r else 119 - r;
    var head := src[64 * n..] + [0x80];
    assert src == src[..64 * n] + src[64 * n..];
    var p := Padded(src, length);
    assert p == src[..64 * n] + (head + Zeros(k) + LengthBytes(length));
    if r >= 56 { assert Zeros(k) == Zeros(63 - r) + Zeros(56); }
  }

  // ----- the whole message -----

  /** The first word buffer after the message: no length yet, and the block it stands for. */
  lemma TailWords(src: seq<Byte>, w: seq<Word>)
    requires |w| == 16
    requires forall j :: 0 <= j < 16 ==> w[j] == WordAt(src[64 * (|src| / 64)..] + [0x80], j)
    ensures var n := |src| / 64; var p := Padded(src, CodedLength(src));
            if |src| % 64 < 56 then
              |p| == 64 * (n + 1) && w[15 := Low32(BitLength(src))] == Block(p[64 * n..64 * (n + 1)])
            else
              |p| == 64 * (n + 2) && w == Block(p[64 * n..64 * (n + 1)])
  {
    hide BytesWord, WordAt, LengthBytes, Padded, Low32, BitLength;
    var n := |src| / 64;
    var p := Padded(src, CodedLength(src));
    var head := src[64 * n..] + [0x80];
    LastBlocks(src, CodedLength(src));
    LengthWords(BitLength(src));
    if |head| <= 56 {
      LengthBlock(head, 56 - |head|, CodedLength(src));
      LengthWords(0);
      ZeroWord();
    } else {
      PaddedWithZeros(head, 64 - |head|);
    }
  }

  lemma ZeroWord()
    ensures BytesWord(0, 0, 0, 0) == 0
  {
  }

  /** The extra block, when the message leaves no room for its length. */
  lemma ExtraWords(src: seq<Byte>, w: seq<Word>)
    requires |w| == 16 && forall j :: 0 <= j < 16 ==> w[j] == 0
    requires |src| % 64 >= 56
    ensures var n := |src| / 64; var p := Padded(src, CodedLength(src));
            |p| == 64 * (n + 2) && w[15 := Low32(BitLength(src))] == Block(p[64 * (n + 1)..64 * (n + 2)])
  {
    hide BytesWord, WordAt, LengthBytes, Padded, Low32, BitLength;
    LastBlocks(src, CodedLength(src));
    LengthWords(BitLength(src));
    LengthBlock([], 56, CodedLength(src));
    EmptyWords();
    assert [] + Zeros(56) + LengthBytes(CodedLength(src)) == Zeros(56) + LengthBytes(CodedLength(src));
  }

  /** The part of a block that is left, the end bit and the length, in one block or two. */
  method CalcTail(src: seq<Byte>, at: nat, result: array<Word>, w: array<Word>)
    requires at == 64 * (|src| / 64)
    requires result.Length == 5 && w.Length == 80 && result != w && HashOf(result[..]) == HashBlocks(src, at / 64)
    modifies result, w
    ensures var p := Padded(src, CodedLength(src)); HashOf(result[..]) == HashBlocks(p, |p| / 64)
  {
    hide Compress, Block, BytesWord, LengthBytes, Padded, WordAt, CodedLength, Low32, BitLength;
    ghost var n, p := |src| / 64, Padded(src, CodedLength(src));
    LastBlocks(src, CodedLength(src));
    HashBlocksPrefix(src, p, n);
    LoadTail(src, at, w);
    TailWords(src, w[..16]);
    if |src| - at >= 56 {
      InnerHash(result, w);
      ClearWBuffer(w);
      ExtraWords(src, w[..16]);
    }
    ghost var before := w[..16];
    w[15] := Low32(BitLength(src));
    assert w[..16] == before[15 := Low32(BitLength(src))];
    InnerHash(result, w);
  }

  /** One byte of the digest, shifted out of its word. */
  function ResultByte(x: Word, i: nat): Byte {
    ((x >> ((3 - i) % 4 * 8)) & 0xff) as Byte
  }

  lemma ResultShift(x: Word, i: nat)
    ensures i % 4 == 0 ==> ResultByte(x, i) == ((x >> 24) & 0xff) as Byte
    ensures i % 4 == 1 ==> ResultByte(x, i) == ((x >> 16) & 0xff) as Byte
    ensures i % 4 == 2 ==> ResultByte(x, i) == ((x >> 8) & 0xff) as Byte
    ensures i % 4 == 3 ==> ResultByte(x, i) == (x & 0xff) as Byte
  {
    assert (3 - i) % 4 == 3 - i % 4;
  }

  lemma ResultByteIsDigestByte(h: Hash, i: nat)
    requires i < 20
    ensures ResultByte(DigestWord(h, i / 4), i) == DigestByte(h, i)
  {
    hide DigestWord, ResultByte;
    ResultShift(DigestWord(h, i / 4), i);
    TopByte(DigestWord(h, i / 4));
  }

  lemma TopByte(x: Word)
    ensures ((x >> 24) & 0xff) as Byte == (x >> 24) as Byte
  {
  }

  /** Hashes a message of any length into `hash`. */
  method Calc(src: seq<Byte>, hash: array<Byte>)
    requires hash.Length == 20
    modifies hash
    ensures hash[..] == DigestOf(Padded(src, CodedLength(src)))
  {
    hide Compress, Block, BytesWord, LengthBytes, Padded, WordAt, CodedLength, Low32, BitLength, ResultByte, DigestByte;
    var result := new Word[5];
    result[0], result[1], result[2], result[3], result[4] := 0x67452301, 0xefcdab89, 0x98badcfe, 0x10325476, 0xc3d2e1f0;
    var w := new Word[80];
    var currentBlock := 0;
    while currentBlock + 64 <= |src|
      invariant currentBlock % 64 == 0 && currentBlock <= |src| && fresh(result) && fresh(w) && result != w
      invariant HashOf(result[..]) == HashBlocks(src, currentBlock / 64)
    {
      LoadBlock(src, currentBlock, w);
      InnerHash(result, w);
      currentBlock := currentBlock + 64;
    }
    CalcTail(src, currentBlock, result, w);
    StoreHash(result, hash);
    DigestIs(src, HashOf(result[..]), hash[..]);
  }

  /** Writes the five words out byte by byte, most significant first, from the last byte to the first. */
  method StoreHash(result: array<Word>, hash: array<Byte>)
    requires result.Length == 5 && hash.Length == 20
    modifies hash
    ensures forall k :: 0 <= k < 20 ==> hash[k] == DigestByte(HashOf(result[..]), k)
  {
    hide ResultByte, DigestByte;
    for i := 20 downto 0
      invariant forall k :: i <= k < 20 ==> hash[k] == DigestByte(HashOf(result[..]), k)
    {
      ResultByteIsDigestByte(HashOf(result[..]), i);
      hash[i] := ResultByte(result[i / 4], i);
    }
  }

  lemma DigestIs(src: seq<Byte>, h: Hash, bytes: seq<Byte>)
    requires var p := Padded(src, CodedLength(src)); h == HashBlocks(p, |p| / 64)
    requires |bytes| == 20 && forall k :: 0 <= k < 20 ==> bytes[k] == DigestByte(h, k)
    ensures bytes == DigestOf(Padded(src, CodedLength(src)))
  {
    hide DigestByte, Padded, CodedLength, HashBlocks;
  }

  /** The code's padding is the standard's exactly for messages shorter than 2^29 bytes. */
  lemma PaddingIsStandardIff(s: seq<Byte>)
    requires BitLength(s) < MOST_BITS
    ensures Padded(s, CodedLength(s)) == Padded(s, BitLength(s)) <==> |s| < 0x2000_0000
  {
    hide LengthBytes, Padded;
    var y := BitLength(s);
    PaddedApart(s, CodedLength(s), y);
    HighPart(y);
    LengthWords(y);
  }

  /** Two paddings of a message differ only in the length they end in. */
  lemma PaddedApart(s: seq<Byte>, x: nat, y: nat)
    ensures Padded(s, x) == Padded(s, y) <==> LengthBytes(x) == LengthBytes(y)
  {
    hide LengthBytes;
    var p := s + [0x80] + Zeros(PadZeros(|s|));
    assert Padded(s, x)[|p|..] == LengthBytes(x) && Padded(s, y)[|p|..] == LengthBytes(y);
  }

  lemma ByteRoundTrip(n: nat)
    requires n < 0x100
    ensures n as Byte == 0 ==> n == 0
  {
  }

  /** A 64-bit count whose high bytes are all zero fits 32 bits. */
  lemma HighPart(n: nat)
    requires n < MOST_BITS
    ensures var b := LengthBytes(n); b[0] == b[1] == b[2] == b[3] == 0 ==> n < 0x1_0000_0000
  {
    ByteRoundTrip(n / 0x1_0000_0000 % 0x100);
    ByteRoundTrip(n / 0x100_0000_0000 % 0x100);
    ByteRoundTrip(n / 0x1_0000_0000_0000 % 0x100);
    ByteRoundTrip(n / 0x100_0000_0000_0000 % 0x100);
  }

  /** What the code leaves in `hash` is the standard's digest of every message shorter than 2^29 bytes. */
  lemma CalcIsSha1(s: seq<Byte>)
    requires |s| < 0x2000_0000
    ensures DigestOf(Padded(s, CodedLength(s))) == Digest(s)
  {
    hide DigestOf, Padded;
    assert CodedLength(s) == BitLength(s);
  }
}
