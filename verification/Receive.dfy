/** Client text frames (sections 5.2 and 5.3 of RFC 6455) and the loop that takes them off the socket. */
module ReceiveImpl {
  import opened Basics
  import opened WebSocketFrame

  type Mask = m: Bytes | |m| == 4 witness [0, 0, 0, 0]

  /** Exclusive or of the low n bits: a bit is set where the two differ. */
  function XorBits(a: nat, b: nat, n: nat): (r: nat)
    ensures r < Pow2(n)
  {
    if n == 0 then 0 else 2 * XorBits(a / 2, b / 2, n - 1) + if a % 2 == b % 2 then 0 else 1
  }

  function Xor(a: Byte, b: Byte): Byte {
    assert Pow2(4) == 16 && Pow2(8) == 0x100;
    XorBits(a, b, 8)
  }

  lemma {:induction false} XorBitsTwice(a: nat, b: nat, n: nat)
    requires a < Pow2(n)
    ensures XorBits(XorBits(a, b, n), b, n) == a
    decreases n
  {
    if n > 0 {
      XorBitsTwice(a / 2, b / 2, n - 1);
      assert XorBits(a, b, n) / 2 == XorBits(a / 2, b / 2, n - 1);
    }
  }

  lemma XorTwice(a: Byte, b: Byte)
    ensures Xor(Xor(a, b), b) == a
  {
    hide XorBits;
    assert Pow2(4) == 16 && Pow2(8) == 0x100;
    XorBitsTwice(a, b, 8);
  }

  /** Octet i of a masked payload is combined with octet i mod 4 of the key (section 5.3). */
  function Masked(payload: Bytes, key: Mask): (r: Bytes)
    ensures |r| == |payload|
  {
    seq(|payload|, i requires 0 <= i < |payload| => Xor(payload[i], key[i % 4]))
  }

  lemma {:induction false} XorDiffers(a: nat, b: nat, n: nat, place: nat)
    requires place < n
    ensures Set(XorBits(a, b, n), place) <==> Set(a, place) != Set(b, place)
    decreases n
  {
    var r := XorBits(a, b, n);
    assert r / 2 == XorBits(a / 2, b / 2, n - 1) && (r % 2 == 1 <==> a % 2 != b % 2);
    if place > 0 {
      XorDiffers(a / 2, b / 2, n - 1, place - 1);
      SetBelow(r, place - 1);
      SetBelow(a, place - 1);
      SetBelow(b, place - 1);
    }
  }

  /** Each bit of a masked octet is set where payload and key differ, the key's octets taken in turn. */
  lemma MaskedBits(payload: Bytes, key: Mask, i: nat, place: nat)
    requires i < |payload| && place < 8
    ensures Set(Masked(payload, key)[i], place) <==> Set(payload[i], place) != Set(key[i % 4], place)
  {
    XorDiffers(payload[i], key[i % 4], 8, place);
  }

  /** The masked text message "Hello" of section 5.7 of RFC 6455. */
  lemma HelloIsStandard()
    ensures ClientFrame([0x48, 0x65, 0x6c, 0x6c, 0x6f], [0x37, 0xfa, 0x21, 0x3d]) ==
            [0x81, 0x85, 0x37, 0xfa, 0x21, 0x3d, 0x7f, 0x9f, 0x4d, 0x51, 0x58]
  {
    HelloMasked();
    hide Xor;
    var payload: Bytes := [0x48, 0x65, 0x6c, 0x6c, 0x6f];
    assert Masked(payload, [0x37, 0xfa, 0x21, 0x3d]) == [0x7f, 0x9f, 0x4d, 0x51, 0x58];
  }

  lemma HelloMasked()
    ensures Xor(0x48, 0x37) == 0x7f && Xor(0x65, 0xfa) == 0x9f && Xor(0x6c, 0x21) == 0x4d
    ensures Xor(0x6c, 0x3d) == 0x51 && Xor(0x6f, 0x37) == 0x58
  {
  }

  lemma MaskedTwice(payload: Bytes, key: Mask)
    ensures Masked(Masked(payload, key), key) == payload
  {
    hide Xor;
    forall i | 0 <= i < |payload| ensures Masked(Masked(payload, key), key)[i] == payload[i] {
      XorTwice(payload[i], key[i % 4]);
    }
  }

  /** The length field of a client's frame, in the shortest form, with the mask bit set. */
  function ClientLength(n: nat): Bytes
    requires n < LARGEST
  {
    if n <= 125 then [n + 0x80]
    else if n <= 65535 then [0xfe, n / 0x100, n % 0x100]
    else [0xff, 0, 0, 0, 0, n / 0x100_0000, n % 0x100_0000 / 0x1_0000, n % 0x1_0000 / 0x100, n % 0x100]
  }

  /** A client's frame: one unfragmented, masked text message. */
  function ClientFrame(payload: Bytes, key: Mask): Bytes
    requires |payload| < LARGEST
  {
    [TEXT_FIN] + ClientLength(|payload|) + key + Masked(payload, key)
  }

  datatype Message = Message(payload: Bytes, key: Mask)

  predicate Sendable(m: Message) {
    |m.payload| < LARGEST
  }

  predicate AllSendable(msgs: seq<Message>) {
    forall i :: 0 <= i < |msgs| ==> Sendable(msgs[i])
  }

  /** The bytes a client puts on the wire for a list of messages. */
  function Stream(msgs: seq<Message>): Bytes
    requires AllSendable(msgs)
  {
    if msgs == [] then [] else ClientFrame(msgs[0].payload, msgs[0].key) + Stream(msgs[1..])
  }

  // ----- what the server does with the bytes on the wire -----

  /** The masked length byte of a frame header. */
  function SizeByte(h: Bytes): Byte
    requires |h| == 14
  {
    h[1] % 0x80
  }

  function PayloadLen(h: Bytes): nat
    requires |h| == 14
  {
    if SizeByte(h) < 0x7e then SizeByte(h) as nat
    else if SizeByte(h) == 0x7e then h[2] as nat * 0x100 + h[3] as nat
    else h[6] as nat * 0x100_0000 + h[7] as nat * 0x1_0000 + h[8] as nat * 0x100 + h[9] as nat
  }

  /** Where the mask is in the 14 bytes read first; what follows it is the start of the payload. */
  function MaskAt(h: Bytes): nat
    requires |h| == 14
  {
    if SizeByte(h) < 0x7e then 2 else if SizeByte(h) == 0x7e then 4 else 10
  }

  /** Payload bytes the first read has already taken, whatever the length of the payload. */
  function Excess(h: Bytes): nat
    requires |h| == 14
  {
    14 - MaskAt(h) - 4
  }

  /** A frame so short that its first read already ran past it: the copy would overrun the payload. */
  predicate TooShort(h: Bytes)
    requires |h| == 14
  {
    PayloadLen(h) < Excess(h)
  }

  predicate Accepted(input: Bytes) {
    |input| >= 14 && input[0] == TEXT_FIN
  }

  /** A whole message is there: the bytes its header promises have arrived. */
  predicate Arrived(input: Bytes)
    requires Accepted(input)
  {
    var h := input[..14];
    !TooShort(h) && 14 + PayloadLen(h) - Excess(h) <= |input|
  }

  /** The loop's assumption about the wire: each message it starts on is whole and not too short. */
  predicate Orderly(input: Bytes)
    decreases |input|
  {
    Accepted(input) ==> Arrived(input) && Orderly(Rest(input))
  }

  function Rest(input: Bytes): (r: Bytes)
    requires Accepted(input) && Arrived(input)
    ensures |r| < |input|
  {
    var h := input[..14];
    input[14 + PayloadLen(h) - Excess(h)..]
  }

  function FirstPayload(input: Bytes): Bytes
    requires Accepted(input) && Arrived(input)
  {
    var h := input[..14];
    var from := MaskAt(h) + 4;
    Masked(input[from..from + PayloadLen(h)], h[MaskAt(h)..from])
  }

  /** The messages handed on for the bytes on the wire. */
  function Dispatched(input: Bytes): seq<Bytes>
    requires Orderly(input)
    decreases |input|
  {
    if !Accepted(input) then [] else [FirstPayload(input)] + Dispatched(Rest(input))
  }

  lemma SmallReadBack(h: Bytes, n: nat)
    requires |h| == 14 && n <= 125 && h[1] == n + 0x80
    ensures PayloadLen(h) == n && MaskAt(h) == 2
  {
  }

  lemma MediumReadBack(h: Bytes, n: nat)
    requires |h| == 14 && n <= 65535 && h[1] == 0xfe && h[2] == n / 0x100 && h[3] == n % 0x100
    ensures PayloadLen(h) == n && MaskAt(h) == 4
  {
  }

  lemma LargeReadBack(h: Bytes, n: nat)
    requires |h| == 14 && n < LARGEST && h[1] == 0xff
    requires h[6] == n / 0x100_0000 && h[7] == n % 0x100_0000 / 0x1_0000 && h[8] == n % 0x1_0000 / 0x100 &&
             h[9] == n % 0x100
    ensures PayloadLen(h) == n && MaskAt(h) == 10
  {
    FourBytes(n);
  }

  /** The server reads the length and the place of the mask that the client wrote. */
  lemma LengthReadBack(n: nat, h: Bytes)
    requires n < LARGEST && |h| == 14 && |ClientLength(n)| <= 9 && h[1..1 + |ClientLength(n)|] == ClientLength(n)
    ensures PayloadLen(h) == n && MaskAt(h) == 1 + |ClientLength(n)|
  {
    hide PayloadLen, MaskAt;
    var l := ClientLength(n);
    ByteOf(h, l, 0);
    if n <= 125 {
      SmallReadBack(h, n);
    } else if n <= 65535 {
      ByteOf(h, l, 1);
      ByteOf(h, l, 2);
      MediumReadBack(h, n);
    } else {
      ByteOf(h, l, 5);
      ByteOf(h, l, 6);
      ByteOf(h, l, 7);
      ByteOf(h, l, 8);
      LargeReadBack(h, n);
    }
  }

  lemma ByteOf(h: Bytes, l: Bytes, i: nat)
    requires 1 + |l| <= |h| && h[1..1 + |l|] == l && i < |l|
    ensures h[1 + i] == l[i]
  {
    assert h[1..1 + |l|][i] == h[1 + i];
  }

  /** Where the parts of a client's frame are in what is on the wire. */
  lemma ClientParts(payload: Bytes, key: Mask, rest: Bytes)
    requires |payload| < LARGEST
    ensures var input := ClientFrame(payload, key) + rest; var n := |ClientLength(|payload|)|;
            && n <= 9 && |ClientFrame(payload, key)| == 5 + n + |payload|
            && input[0] == TEXT_FIN && input[1..1 + n] == ClientLength(|payload|)
            && input[1 + n..5 + n] == key
            && input[5 + n..5 + n + |payload|] == Masked(payload, key)
            && input[5 + n + |payload|..] == rest
  {
    var l, m := ClientLength(|payload|), Masked(payload, key);
    assert |l| <= 9;
    hide ClientLength, Masked;
    Parts([TEXT_FIN], l, key, m, rest);
    assert ClientFrame(payload, key) + rest == [TEXT_FIN] + l + key + m + rest;
  }

  lemma Parts(a: Bytes, b: Bytes, c: Bytes, d: Bytes, e: Bytes)
    ensures var s := a + b + c + d + e; var (i, j, k) := (|a| + |b|, |a| + |b| + |c|, |a| + |b| + |c| + |d|);
            s[..|a|] == a && s[|a|..i] == b && s[i..j] == c && s[j..k] == d && s[k..] == e
  {
  }

  lemma Within(s: Bytes, n: nat, from: nat, to: nat)
    requires from <= to <= n <= |s|
    ensures s[..n][from..to] == s[from..to]
  {
  }

  lemma ClientHeader(payload: Bytes, key: Mask, rest: Bytes)
    requires |payload| < LARGEST && |ClientFrame(payload, key) + rest| >= 14
    ensures var input := ClientFrame(payload, key) + rest; var h := input[..14]; var from := MaskAt(h) + 4;
            && Accepted(input) && PayloadLen(h) == |payload|
            && from == 5 + |ClientLength(|payload|)| && h[MaskAt(h)..from] == key
            && |ClientFrame(payload, key)| == from + |payload| && input[from..from + |payload|] == Masked(payload, key)
            && input[from + |payload|..] == rest
  {
    hide Masked, PayloadLen, MaskAt, ClientLength, ClientFrame;
    var input := ClientFrame(payload, key) + rest;
    var n := |ClientLength(|payload|)|;
    ClientParts(payload, key, rest);
    Within(input, 14, 1, 1 + n);
    LengthReadBack(|payload|, input[..14]);
    Within(input, 14, 1 + n, 5 + n);
  }

  function Payloads(msgs: seq<Message>): (payloads: seq<Bytes>)
    ensures |payloads| == |msgs|
  {
    seq(|msgs|, i requires 0 <= i < |msgs| => msgs[i].payload)
  }

  predicate LongEnough(msgs: seq<Message>) {
    forall i :: 0 <= i < |msgs| ==> |msgs[i].payload| >= 8
  }

  /** A message of at least eight bytes is handed on, and the server goes on with what follows it. */
  lemma LongFirst(m: Message, rest: Bytes)
    requires Sendable(m) && |m.payload| >= 8
    ensures var input := ClientFrame(m.payload, m.key) + rest;
            && Accepted(input) && Arrived(input) && Rest(input) == rest && FirstPayload(input) == m.payload
  {
    hide Masked, ClientFrame;
    LongFrame(m);
    ClientHeader(m.payload, m.key, rest);
    MaskedTwice(m.payload, m.key);
  }

  lemma LongFrame(m: Message)
    requires Sendable(m) && |m.payload| >= 8
    ensures |ClientFrame(m.payload, m.key)| >= 14
  {
  }

  /** A shorter one is either read and lost, with everything after it, or runs past its own end. */
  lemma ShortFirst(m: Message, rest: Bytes)
    requires Sendable(m) && |m.payload| < 8
    ensures var input := ClientFrame(m.payload, m.key) + rest;
            if |input| < 14 then Orderly(input) && Dispatched(input) == [] else !Orderly(input)
  {
    hide ClientFrame, PayloadLen, MaskAt;
    var input := ClientFrame(m.payload, m.key) + rest;
    if |input| >= 14 {
      ClientHeader(m.payload, m.key, rest);
      assert TooShort(input[..14]);
    }
  }

  /**
   The messages of a client are delivered, in order and unmasked, exactly when each has at least eight bytes; with
   a shorter one among them something is lost, or a copy runs past the end of a message.
   */
  lemma {:induction false} StreamIsDeliveredIff(msgs: seq<Message>)
    requires AllSendable(msgs)
    ensures Orderly(Stream(msgs)) && Dispatched(Stream(msgs)) == Payloads(msgs) <==> LongEnough(msgs)
    decreases |msgs|
  {
    hide ClientFrame, Rest, FirstPayload, Accepted, Arrived;
    if msgs != [] {
      var m, rest := msgs[0], Stream(msgs[1..]);
      assert Payloads(msgs) == [m.payload] + Payloads(msgs[1..]);
      if |m.payload| >= 8 {
        LongFirst(m, rest);
        StreamIsDeliveredIff(msgs[1..]);
        assert LongEnough(msgs) <==> LongEnough(msgs[1..]) by { LongEnoughCons(msgs); }
        if Orderly(rest) { SameTail(m.payload, Dispatched(rest), Payloads(msgs[1..])); }
      } else {
        ShortFirst(m, rest);
      }
    } else {
      NothingSent();
    }
  }

  lemma NothingSent()
    ensures Orderly([]) && Dispatched([]) == []
  {
  }

  lemma LongEnoughCons(msgs: seq<Message>)
    requires msgs != [] && |msgs[0].payload| >= 8
    ensures LongEnough(msgs) <==> LongEnough(msgs[1..])
  {
    assert forall i :: 0 < i < |msgs| ==> msgs[i] == msgs[1..][i - 1];
  }

  lemma SameTail(x: Bytes, a: seq<Bytes>, b: seq<Bytes>)
    ensures [x] + a == [x] + b <==> a == b
  {
    assert ([x] + a)[1..] == a && ([x] + b)[1..] == b;
  }

  /**
   A message alone on the wire is delivered exactly when it has at least eight bytes; a shorter one is read and
   lost.
   */
  lemma LoneMessageIff(m: Message)
    requires Sendable(m)
    ensures var input := Stream([m]);
            && Orderly(input)
            && (Dispatched(input) == [m.payload] <==> |m.payload| >= 8)
            && (|m.payload| < 8 ==> Dispatched(input) == [])
  {
    hide Orderly, Dispatched;
    assert Stream([m]) == ClientFrame(m.payload, m.key) + [];
    assert Payloads([m]) == [m.payload];
    StreamIsDeliveredIff([m]);
    if |m.payload| < 8 { ShortFirst(m, []); }
  }

  // ----- the receive loop -----

  class Connection {
    /** Bytes the client has sent and this side has not read. */
    var wire: Bytes
    var dispatched: seq<Bytes>

    constructor (wire: Bytes)
      ensures this.wire == wire && dispatched == []
    {
      this.wire, dispatched := wire, [];
    }

    /** Reads up to `n` of the bytes that have arrived. */
    method Recv(n: nat) returns (chunk: Bytes)
      modifies this`wire
      ensures var k := if n <= |old(wire)| then n else |old(wire)|;
              chunk == old(wire)[..k] && wire == old(wire)[k..]
    {
      var k := if n <= |wire| then n else |wire|;
      chunk := wire[..k];
      wire := wire[k..];
    }

    method Unmask(payload: array<Byte>, key: Mask)
      modifies payload
      ensures payload[..] == Masked(old(payload[..]), key)
    {
      var i := payload.Length;
      while i > 0
        invariant 0 <= i <= payload.Length
        invariant forall k :: 0 <= k < i ==> payload[k] == old(payload[k])
        invariant forall k :: i <= k < payload.Length ==> payload[k] == Xor(old(payload[k]), key[k % 4])
      {
        i := i - 1;
        payload[i] := Xor(payload[i], key[i % 4]);
      }
    }

    /** Takes the payload of the message whose first 14 bytes have just been read. */
    method RecvPayload(h: Bytes, ghost input: Bytes) returns (payload: array<Byte>)
      requires Accepted(input) && Arrived(input) && h == input[..14] && wire == input[14..]
      modifies this`wire
      ensures fresh(payload) && wire == Rest(input)
      ensures payload[..] == input[MaskAt(h) + 4..MaskAt(h) + 4 + PayloadLen(h)]
    {
      var payloadLen, excess := PayloadLen(h), Excess(h);
      payload := new Byte[payloadLen](_ => 0);
      forall i | 0 <= i < excess { payload[i] := h[MaskAt(h) + 4 + i]; }
      var remainder := Recv(payloadLen - excess);
      forall i | excess <= i < payloadLen { payload[i] := remainder[i - excess]; }
      ghost var from := MaskAt(h) + 4;
      forall i | 0 <= i < payloadLen ensures payload[i] == input[from + i] {
        if i < excess {
          assert h[from + i] == input[from + i];
        } else {
          assert remainder[i - excess] == input[14..][i - excess];
        }
      }
      assert payload[..] == input[from..from + payloadLen];
    }

    /** Handles messages until no further whole header is there. */
    method RecvNoblockAndProc()
      requires Orderly(wire)
      modifies this
      ensures dispatched == old(dispatched) + Dispatched(old(wire))
    {
      hide Masked, PayloadLen, Excess;
      while true
        invariant Orderly(wire)
        invariant dispatched + Dispatched(wire) == old(dispatched) + Dispatched(old(wire))
        decreases |wire|
      {
        ghost var input := wire;
        var h := Recv(14);
        if |h| != 14 { return; }
        if h[0] != TEXT_FIN { return; }
        var payload := RecvPayload(h, input);
        Unmask(payload, h[MaskAt(h)..MaskAt(h) + 4]);
        assert payload[..] == FirstPayload(input);
        dispatched := dispatched + [payload[..]];
      }
    }
  }
}
