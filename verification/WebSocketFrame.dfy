/** Text frames as section 5.2 of RFC 6455 lays them out, and the header the server writes. */
module WebSocketFrame {
  import opened Basics

  const TEXT_FIN: Byte := 0x81
  const LARGEST: nat := 0x1_0000_0000

  /** The length of the header the server puts before a payload. */
  function HeaderLen(pLen: nat): nat {
    if pLen <= 125 then 2 else if pLen < 65535 then 4 else 10
  }

  function Header(pLen: nat): (h: Bytes)
    requires pLen < LARGEST
    ensures |h| == HeaderLen(pLen)
  {
    if pLen <= 125 then [TEXT_FIN, pLen]
    else if pLen < 65535 then [TEXT_FIN, 0x7e, (pLen / 0x100), (pLen % 0x100)]
    else [TEXT_FIN, 0x7f, 0, 0, 0, 0, (pLen / 0x100_0000), (pLen % 0x100_0000 / 0x1_0000),
          (pLen % 0x1_0000 / 0x100), (pLen % 0x100)]
  }

  function Frame(payload: Bytes): Bytes
    requires |payload| < LARGEST
  {
    Header(|payload|) + payload
  }

  /** The size of the frame at an index, as the sender reads it back from the header bytes into 32 bits. */
  function SizeAt(b: Bytes, i: nat): nat
    requires i + 10 <= |b|
  {
    if b[i + 1] < 0x7e then 2 + b[i + 1] as nat
    else if b[i + 1] == 0x7e then 4 + b[i + 2] as nat * 0x100 + b[i + 3] as nat
    else if b[i + 1] == 0x7f then
      (10 + b[i + 6] as nat * 0x100_0000 + b[i + 7] as nat * 0x1_0000 + b[i + 8] as nat * 0x100 +
          b[i + 9] as nat) % LARGEST
    else 0
  }

  lemma FourBytes(n: nat)
    requires n < LARGEST
    ensures n / 0x100_0000 < 0x100 && n % 0x100_0000 / 0x1_0000 < 0x100 && n % 0x1_0000 / 0x100 < 0x100
    ensures n / 0x100_0000 * 0x100_0000 + n % 0x100_0000 / 0x1_0000 * 0x1_0000 + n % 0x1_0000 / 0x100 * 0x100 +
             n % 0x100 == n
  {
    assert n % 0x100_0000 % 0x1_0000 == n % 0x1_0000;
    assert n % 0x1_0000 % 0x100 == n % 0x100;
  }

  /** The sender reads back the size of the frame that was written, unless that needs more than 32 bits. */
  lemma SizeOfFrameIff(b: Bytes, i: nat, payload: Bytes)
    requires i + 10 <= |b| && |payload| < LARGEST
    requires i + HeaderLen(|payload|) <= |b| && b[i..i + HeaderLen(|payload|)] == Header(|payload|)
    ensures SizeAt(b, i) == |Frame(payload)| <==> |payload| + 10 < LARGEST
  {
    var n := |payload|;
    var h := b[i..i + HeaderLen(n)];
    if n <= 125 {
      assert h[1] == n && b[i + 1] == h[1];
    } else if n < 65535 {
      assert b[i + 1] == h[1] && b[i + 2] == h[2] && b[i + 3] == h[3];
    } else {
      FourBytes(n);
      assert b[i + 1] == h[1] && b[i + 6] == h[6] && b[i + 7] == h[7] && b[i + 8] == h[8] && b[i + 9] == h[9];
    }
  }

  // ----- RFC 6455, read as a receiver would -----

  function BigEndian(b: Bytes): nat {
    if b == [] then 0 else BigEndian(b[..|b| - 1]) * 0x100 + b[|b| - 1]
  }

  /** An unmasked, unfragmented text frame and nothing else: the payload it carries. */
  function RfcPayload(b: Bytes): Option<Bytes> {
    if |b| < 2 || b[0] != TEXT_FIN then None
    else
      var len := b[1];
      if len <= 125 then Exactly(b[2..], len)
      else if len == 126 then
        if |b| < 4 then None else Exactly(b[4..], BigEndian(b[2..4]))
      else if len == 127 then
        if |b| < 10 then None else Exactly(b[10..], BigEndian(b[2..10]))
      else None
  }

  function Exactly(b: Bytes, n: nat): Option<Bytes> {
    if |b| == n then Some(b) else None
  }

  lemma BigEndian2(a: Byte, b: Byte)
    ensures BigEndian([a, b]) == a * 0x100 + b
  {
    assert [a, b][..1] == [a] && [a][..0] == [];
    assert BigEndian([a]) == BigEndian([]) * 0x100 + a;
  }

  lemma BigEndianSnoc(b: Bytes, x: Byte)
    ensures BigEndian(b + [x]) == BigEndian(b) * 0x100 + x
  {
    assert (b + [x])[..|b|] == b;
  }

  lemma BigEndian8(a: Byte, b: Byte, c: Byte, d: Byte)
    ensures BigEndian([0, 0, 0, 0, a, b, c, d]) == a * 0x100_0000 + b * 0x1_0000 + c * 0x100 + d
  {
    FourZeros();
    BigEndianSnoc([0, 0, 0, 0], a);
    BigEndianSnoc([0, 0, 0, 0, a], b);
    BigEndianSnoc([0, 0, 0, 0, a, b], c);
    BigEndianSnoc([0, 0, 0, 0, a, b, c], d);
    assert [0, 0, 0, 0] + [a] == [0, 0, 0, 0, a] && [0, 0, 0, 0, a] + [b] == [0, 0, 0, 0, a, b];
    assert [0, 0, 0, 0, a, b] + [c] == [0, 0, 0, 0, a, b, c] && [0, 0, 0, 0, a, b, c] + [d] == [0, 0, 0, 0, a, b, c, d];
  }

  lemma FourZeros()
    ensures BigEndian([0, 0, 0, 0]) == 0
  {
    BigEndianSnoc([], 0);
    BigEndianSnoc([0], 0);
    BigEndianSnoc([0, 0], 0);
    BigEndianSnoc([0, 0, 0], 0);
    assert [] + [0] == [0] && [0] + [0] == [0, 0] && [0, 0] + [0] == [0, 0, 0] && [0, 0, 0] + [0] == [0, 0, 0, 0];
  }

  /** A receiver that follows the standard gets back the payload of every frame the server writes. */
  lemma FrameIsRfc(payload: Bytes)
    requires |payload| < LARGEST
    ensures RfcPayload(Frame(payload)) == Some(payload)
  {
    var n := |payload|;
    var b := Frame(payload);
    if n <= 125 {
      assert b[2..] == payload;
    } else if n < 65535 {
      assert b[1] == 0x7e && b[2] == n / 0x100 && b[3] == n % 0x100;
      BigEndian2(b[2], b[3]);
      assert b[2..4] == [b[2], b[3]];
      assert b[4..] == payload;
    } else {
      FourBytes(n);
      assert b[1] == 0x7f && b[2] == 0 && b[3] == 0 && b[4] == 0 && b[5] == 0;
      BigEndian8(b[6], b[7], b[8], b[9]);
      assert b[2..10] == [0, 0, 0, 0, b[6], b[7], b[8], b[9]];
      assert b[10..] == payload;
    }
  }

  /** A header that a receiver following the standard accepts is no shorter than its payload's length allows. */
  lemma AcceptedHeader(h: Bytes, payload: Bytes)
    requires RfcPayload(h + payload) == Some(payload)
    ensures |h| >= 2 && (|payload| > 125 ==> |h| >= 4) && (|payload| > 65535 ==> |h| >= 10)
  {
    var b := h + payload;
    if b[1] == 126 {
      BigEndian2(b[2], b[3]);
      assert b[2..4] == [b[2], b[3]];
    }
  }

  /** The server's header is as short as any that carries the payload, for every length but one. */
  lemma HeaderIsMinimalIff(payload: Bytes)
    requires |payload| < LARGEST
    ensures (forall h: Bytes :: RfcPayload(h + payload) == Some(payload) ==> |h| >= HeaderLen(|payload|)) <==>
             |payload| != 65535
  {
    if |payload| == 65535 {
      var h: Bytes := [TEXT_FIN, 126, 0xff, 0xff];
      BigEndian2(0xff, 0xff);
      assert (h + payload)[2..4] == [0xff, 0xff] && (h + payload)[4..] == payload;
      assert RfcPayload(h + payload) == Some(payload);
    } else {
      forall h: Bytes | RfcPayload(h + payload) == Some(payload) ensures |h| >= HeaderLen(|payload|) {
        AcceptedHeader(h, payload);
      }
    }
  }
}
