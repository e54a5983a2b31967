/** SHA-1 as FIPS 180-4 defines it: padding (section 5.1.1) and hash computation (section 6.1.2). */
module Sha1Spec {

  type Word = bv32
  type Byte = bv8

  datatype Hash = Hash(a: Word, b: Word, c: Word, d: Word, e: Word)

  const INITIAL := Hash(0x67452301, 0xefcdab89, 0x98badcfe, 0x10325476, 0xc3d2e1f0)

  function Rotl(x: Word, n: nat): Word
    requires n <= 32
  {
    x.RotateLeft(n)
  }

  function Ch(x: Word, y: Word, z: Word): Word {
    (x & y) ^ (!x & z)
  }

  function Parity(x: Word, y: Word, z: Word): Word {
    x ^ y ^ z
  }

  function Maj(x: Word, y: Word, z: Word): Word {
    (x & y) ^ (x & z) ^ (y & z)
  }

  function Logical(t: nat, x: Word, y: Word, z: Word): Word {
    if t < 20 then Ch(x, y, z) else if 40 <= t < 60 then Maj(x, y, z) else Parity(x, y, z)
  }

  function Constant(t: nat): Word {
    if t < 20 then 0x5a827999 else if t < 40 then 0x6ed9eba1 else if t < 60 then 0x8f1bbcdc else 0xca62c1d6
  }

  /** The message schedule of a block of sixteen words. */
  function Schedule(block: seq<Word>, t: nat): Word
    requires |block| == 16
  {
    if t < 16 then block[t]
    else Rotl(Schedule(block, t - 3) ^ Schedule(block, t - 8) ^ Schedule(block, t - 14) ^ Schedule(block, t - 16), 1)
  }

  /** Addition modulo 2^32. */
  function Plus(x: Word, y: Word): Word {
    x + y
  }

  function Sum(v: Word, w: Word, x: Word, y: Word, z: Word): Word {
    Plus(Plus(Plus(Plus(v, w), x), y), z)
  }

  function Round(h: Hash, t: nat, w: Word): Hash {
    Hash(Sum(Rotl(h.a, 5), Logical(t, h.b, h.c, h.d), h.e, Constant(t), w), h.a, Rotl(h.b, 30), h.c, h.d)
  }

  function Rounds(block: seq<Word>, h: Hash, t: nat): Hash
    requires |block| == 16
  {
    if t == 0 then h else Round(Rounds(block, h, t - 1), t - 1, Schedule(block, t - 1))
  }

  function Compress(h: Hash, block: seq<Word>): Hash
    requires |block| == 16
  {
    var r := Rounds(block, h, 80);
    Hash(Plus(h.a, r.a), Plus(h.b, r.b), Plus(h.c, r.c), Plus(h.d, r.d), Plus(h.e, r.e))
  }

  // ----- bytes and words -----

  function BytesWord(b0: Byte, b1: Byte, b2: Byte, b3: Byte): Word {
    (b3 as Word) | ((b2 as Word) << 8) | ((b1 as Word) << 16) | ((b0 as Word) << 24)
  }

  function ByteAt(s: seq<Byte>, i: nat): Byte {
    if i < |s| then s[i] else 0
  }

  /** The j-th word of a byte string, as if zeros followed it. */
  function WordAt(s: seq<Byte>, j: nat): Word {
    BytesWord(ByteAt(s, 4 * j), ByteAt(s, 4 * j + 1), ByteAt(s, 4 * j + 2), ByteAt(s, 4 * j + 3))
  }

  function Block(s: seq<Byte>): (b: seq<Word>)
    ensures |b| == 16
  {
    seq(16, j requires 0 <= j < 16 => WordAt(s, j))
  }

  function HashBlocks(s: seq<Byte>, n: nat): Hash
    requires 64 * n <= |s|
  {
    if n == 0 then INITIAL else Compress(HashBlocks(s, n - 1), Block(s[64 * (n - 1)..64 * n]))
  }

  /** The byte of a number that counts multiples of `unit`. */
  function ByteOf(n: nat, unit: nat): Byte
    requires unit > 0
  {
    (n / unit % 0x100) as Byte
  }

  /** A number as 64 bits, most significant byte first. */
  function LengthBytes(n: nat): (b: seq<Byte>)
    ensures |b| == 8
  {
    [ByteOf(n, 0x100_0000_0000_0000), ByteOf(n, 0x1_0000_0000_0000), ByteOf(n, 0x100_0000_0000),
        ByteOf(n, 0x1_0000_0000),
     ByteOf(n, 0x100_0000), ByteOf(n, 0x1_0000), ByteOf(n, 0x100), ByteOf(n, 1)]
  }

  function Zeros(n: nat): seq<Byte> {
    seq(n, _ => 0)
  }

  /** The fewest zeros that let the length end a block. */
  function PadZeros(n: nat): (k: nat)
    ensures k < 64 && (n + 1 + k + 8) % 64 == 0
  {
    (119 - n % 64) % 64
  }

  function Padded(s: seq<Byte>, length: nat): (p: seq<Byte>)
    ensures |p| % 64 == 0 && |p| > |s|
  {
    s + [0x80] + Zeros(PadZeros(|s|)) + LengthBytes(length)
  }

  const MOST_BITS: nat := 0x1_0000_0000_0000_0000

  /** The length of a message in bits. */
  function BitLength(s: seq<Byte>): nat {
    8 * |s|
  }

  function HashBytes(h: Hash): (b: seq<Byte>)
    ensures |b| == 20
  {
    seq(20, i requires 0 <= i < 20 => DigestByte(h, i))
  }

  function DigestWord(h: Hash, j: nat): Word
    requires j < 5
  {
    [h.a, h.b, h.c, h.d, h.e][j]
  }

  function DigestByte(h: Hash, i: nat): Byte
    requires i < 20
  {
    var w := DigestWord(h, i / 4);
    if i % 4 == 0 then (w >> 24) as Byte
    else if i % 4 == 1 then ((w >> 16) & 0xff) as Byte
    else if i % 4 == 2 then ((w >> 8) & 0xff) as Byte
    else (w & 0xff) as Byte
  }

  function DigestOf(padded: seq<Byte>): seq<Byte>
    requires |padded| % 64 == 0
  {
    HashBytes(HashBlocks(padded, |padded| / 64))
  }

  function Digest(s: seq<Byte>): seq<Byte>
    requires BitLength(s) < MOST_BITS
  {
    DigestOf(Padded(s, BitLength(s)))
  }
}
