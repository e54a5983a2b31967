/**
 The queue of outgoing WebSocket messages: a ring of whole frames, each starting at a multiple of
 eight, with a zeroed remainder where the next frame did not fit before the end.
 */
module SendQueueImpl {
  import opened Basics
  import opened WebSocketFrame

  const SIZE: nat := 0x10_0000
  const END: nat := SIZE - 1

  function AlignUp(x: nat): (r: nat)
    ensures r % 8 == 0 && x <= r < x + 8
  {
    (x + 7) / 8 * 8
  }

  /** Where the frame after one that ends at `x` starts. */
  function After(x: nat): nat {
    var next := AlignUp(x);
    if next >= END then 0 else next
  }

  /** A missing or empty message is sent as a single space. */
  function Promote(text: Option<Bytes>): (p: Bytes)
    ensures |p| > 0
  {
    if text.None? || text.value == [] then [0x20] else text.value
  }

  /** The frames for a list of messages that reach the socket: one-character messages do not. */
  function Wire(msgs: seq<Bytes>): seq<Bytes>
    requires forall m <- msgs :: |m| < LARGEST
  {
    if msgs == [] then [] else (if |msgs[0]| >= 2 then [Frame(msgs[0])] else []) + Wire(msgs[1..])
  }

  /** What a client is to get: the frames of the texts passed in that have two characters or more. */
  function FramesOf(texts: seq<Option<Bytes>>): seq<Bytes>
    requires forall t <- texts :: t.Some? ==> |t.value| < LARGEST
  {
    if texts == [] then []
    else FramesOf(texts[..|texts| - 1]) +
         match texts[|texts| - 1]
         case None => []
         case Some(text) => if |text| >= 2 then [Frame(text)] else []
  }

  lemma OneMoreText(texts: seq<Option<Bytes>>, text: Option<Bytes>)
    requires (forall t <- texts :: t.Some? ==> |t.value| < LARGEST) && (text.Some? ==> |text.value| < LARGEST)
    ensures forall t <- texts + [text] :: t.Some? ==> |t.value| < LARGEST
    ensures |Promote(text)| < LARGEST && FramesOf(texts + [text]) == FramesOf(texts) + Wire([Promote(text)])
  {
    assert (texts + [text])[..|texts|] == texts;
    var m := Promote(text);
    var none: seq<Bytes> := [];
    assert [m][1..] == none;
    assert Wire([m]) == (if |m| >= 2 then [Frame(m)] else []) + Wire([]);
    hide Frame;
  }

  lemma WireNothing()
    ensures Wire([]) == []
  {
  }

  lemma {:induction false} WireConcat(a: seq<Bytes>, b: seq<Bytes>)
    requires forall m <- a + b :: |m| < LARGEST
    requires (forall m <- a :: |m| < LARGEST) && (forall m <- b :: |m| < LARGEST)
    ensures Wire(a + b) == Wire(a) + Wire(b)
    decreases |a|
  {
    if a == [] {
      assert a + b == b;
    } else {
      var rest := a[1..];
      assert a + b == [a[0]] + (rest + b) && a == [a[0]] + rest;
      WireConcat(rest, b);
      WireFirst(a[0], rest + b);
      WireFirst(a[0], rest);
    }
  }

  lemma WireFirst(m: Bytes, rest: seq<Bytes>)
    requires |m| < LARGEST && forall x <- [m] + rest :: |x| < LARGEST
    ensures forall x <- rest :: |x| < LARGEST
    ensures Wire([m] + rest) == (if |m| >= 2 then [Frame(m)] else []) + Wire(rest)
  {
    forall x | x in rest ensures |x| < LARGEST { assert x in [m] + rest; }
    assert ([m] + rest)[1..] == rest;
  }

  /** What was sent, followed by the frames of what still waits, is what was asked for: nothing else, and in order. */
  predicate Delivered(sent: seq<Bytes>, waiting: seq<Bytes>, asked: seq<Option<Bytes>>) {
    && (forall t <- asked :: t.Some? ==> |t.value| < LARGEST) && (forall m <- waiting :: |m| < LARGEST)
    && sent + Wire(waiting) == FramesOf(asked)
  }

  lemma OneMoreDelivered(sent: seq<Bytes>, waiting: seq<Bytes>, texts: seq<Option<Bytes>>, text: Option<Bytes>)
    requires Delivered(sent, waiting, texts) && (text.Some? ==> |text.value| < LARGEST)
    ensures Delivered(sent, waiting + [Promote(text)], texts + [text])
  {
    hide Wire, FramesOf, Promote;
    OneMoreText(texts, text);
    WireConcat(waiting, [Promote(text)]);
  }

  lemma AllDelivered(sent: seq<Bytes>, waiting: seq<Bytes>, asked: seq<Option<Bytes>>)
    requires forall m <- waiting :: |m| < LARGEST
    ensures Delivered(sent, waiting, asked) ==> Delivered(sent + Wire(waiting), [], asked)
    ensures Delivered(sent, [], asked) ==> sent == FramesOf(asked)
  {
    hide FramesOf;
    WireNothing();
  }

  // ----- runs of frames in the buffer -----

  predicate FrameAt(b: Bytes, at: nat, m: Bytes) {
    && 0 < |m| < LARGEST && at + HeaderLen(|m|) + |m| <= |b|
    && b[at..at + HeaderLen(|m|) + |m|] == Frame(m)
  }

  function Next(at: nat, m: Bytes): (n: nat)
    ensures n > at && n % 8 == 0
  {
    AlignUp(at + HeaderLen(|m|) + |m|)
  }

  /** The bytes from `from` to `to` are exactly the frames of these messages, each padded to a multiple of eight. */
  predicate Chain(b: Bytes, from: nat, to: nat, msgs: seq<Bytes>)
    decreases |msgs|
  {
    if msgs == [] then from == to
    else FrameAt(b, from, msgs[0]) && Next(from, msgs[0]) <= to && Chain(b, Next(from, msgs[0]), to, msgs[1..])
  }

  predicate Agree(a: Bytes, b: Bytes, from: nat, to: nat) {
    |a| == |b| && forall i :: from <= i < to && i < |a| ==> a[i] == b[i]
  }

  lemma {:induction false} ChainKept(a: Bytes, b: Bytes, from: nat, to: nat, msgs: seq<Bytes>)
    requires Chain(a, from, to, msgs) && Agree(a, b, from, to)
    ensures Chain(b, from, to, msgs)
    decreases |msgs|
  {
    if msgs != [] {
      var n := from + HeaderLen(|msgs[0]|) + |msgs[0]|;
      assert n <= Next(from, msgs[0]);
      assert a[from..n] == b[from..n];
      ChainKept(a, b, Next(from, msgs[0]), to, msgs[1..]);
    }
  }

  lemma {:induction false} ChainSnoc(b: Bytes, from: nat, to: nat, msgs: seq<Bytes>, m: Bytes)
    requires Chain(b, from, to, msgs) && FrameAt(b, to, m)
    ensures Chain(b, from, Next(to, m), msgs + [m])
    decreases |msgs|
  {
    if msgs == [] {
      assert ([] + [m])[1..] == [];
    } else {
      assert (msgs + [m])[1..] == msgs[1..] + [m];
      ChainSnoc(b, Next(from, msgs[0]), to, msgs[1..], m);
    }
  }

  lemma ChainOne(b: Bytes, from: nat, m: Bytes)
    requires FrameAt(b, from, m)
    ensures Chain(b, from, Next(from, m), [m])
  {
  }

  lemma {:induction false} ChainAdvances(b: Bytes, from: nat, to: nat, msgs: seq<Bytes>)
    requires Chain(b, from, to, msgs)
    ensures from <= to && (from == to <==> msgs == [])
    decreases |msgs|
  {
    if msgs != [] { ChainAdvances(b, Next(from, msgs[0]), to, msgs[1..]); }
  }

  lemma {:induction false} ChainSizes(b: Bytes, from: nat, to: nat, msgs: seq<Bytes>)
    requires Chain(b, from, to, msgs)
    ensures forall m <- msgs :: |m| < LARGEST
    decreases |msgs|
  {
    if msgs != [] { ChainSizes(b, Next(from, msgs[0]), to, msgs[1..]); }
  }

  /** What the sender reads at the zeroed remainder: too short to send, and a wrap. */
  lemma ZeroMark(b: Bytes, i: nat)
    requires i + 10 <= |b| && b[i] == 0 && b[i + 1] == 0
    ensures SizeAt(b, i) == 2
  {
  }

  /** What the sender reads at the oldest frame of a run. */
  lemma FrontFrame(b: Bytes, from: nat, to: nat, msgs: seq<Bytes>)
    requires Chain(b, from, to, msgs) && msgs != [] && to <= SIZE - 16 && |b| == SIZE
    ensures var m := msgs[0]; var n := SizeAt(b, from);
            && |m| < LARGEST && from + n <= |b| && b[from..from + n] == Frame(m) && b[from] == TEXT_FIN
            && (n > 3 <==> |m| >= 2)
            && After(from + n) == Next(from, m) <= to && Chain(b, Next(from, m), to, msgs[1..])
  {
    var m := msgs[0];
    ChainAdvances(b, Next(from, m), to, msgs[1..]);
    hide Chain, SizeAt;
    HeaderThere(b, from, m);
    SizeOfFrameIff(b, from, m);
  }

  lemma HeaderThere(b: Bytes, from: nat, m: Bytes)
    requires FrameAt(b, from, m)
    ensures from + HeaderLen(|m|) <= |b| && b[from..from + HeaderLen(|m|)] == Header(|m|)
  {
    hide Header;
    assert b[from..from + HeaderLen(|m|)] == b[from..from + |Frame(m)|][..HeaderLen(|m|)];
  }

  // ----- the ring -----

  /**
   The buffer holds the waiting messages: in one chain from the tail to the head or, once wrapped, in one from
   the tail to a zeroed mark and one from the start to the head.
   */
  predicate Ring(b: Bytes, head: nat, tail: nat, first: seq<Bytes>, second: seq<Bytes>, wrapped: bool, mark: nat) {
    && |b| == SIZE && head % 8 == 0 && tail % 8 == 0
    && head <= SIZE - 16 && tail <= SIZE - 16
    && if wrapped then
         && head < tail <= mark <= SIZE - 16
         && Chain(b, tail, mark, first) && Chain(b, 0, head, second)
         && b[mark] == 0 && b[mark + 1] == 0
       else
         second == [] && Chain(b, tail, head, first)
  }

  /** A frame written at the head, short of the messages still waiting before it. */
  lemma AppendsAtHead(was: Bytes, now: Bytes, head: nat, tail: nat, first: seq<Bytes>, second: seq<Bytes>,
                      wrapped: bool, mark: nat, m: Bytes)
    requires Ring(was, head, tail, first, second, wrapped, mark) && FrameAt(now, head, m)
    requires var end := head + HeaderLen(|m|) + |m|;
             && end <= END - 0x10 && (head < tail ==> AlignUp(end) < tail)
             && Agree(was, now, 0, head) && Agree(was, now, end, SIZE)
    ensures var head' := After(head + HeaderLen(|m|) + |m|);
            && head' != tail
            && Ring(now, head', tail, if wrapped then first else first + [m],
                    if wrapped then second + [m] else second, wrapped, mark)
  {
    hide Chain, FrameAt, HeaderLen;
    if wrapped {
      ChainKept(was, now, tail, mark, first);
      ChainKept(was, now, 0, head, second);
      ChainSnoc(now, 0, head, second, m);
    } else {
      ChainAdvances(was, tail, head, first);
      ChainKept(was, now, tail, head, first);
      ChainSnoc(now, tail, head, first, m);
    }
  }

  /** A frame written at the start, after the rest of the buffer was zeroed. */
  lemma AppendsAtStart(was: Bytes, now: Bytes, head: nat, tail: nat, first: seq<Bytes>, second: seq<Bytes>,
                       wrapped: bool, mark: nat, m: Bytes)
    requires Ring(was, head, tail, first, second, wrapped, mark) && FrameAt(now, 0, m)
    requires var end := HeaderLen(|m|) + |m|;
             && tail <= head && AlignUp(end) < tail
             && Agree(was, now, end, head) && |now| == SIZE && now[head] == 0 && now[head + 1] == 0
    ensures var head' := After(HeaderLen(|m|) + |m|); head' != tail && Ring(now, head', tail, first, [m], true, head)
  {
    hide Chain, FrameAt, HeaderLen;
    ChainKept(was, now, tail, head, first);
    ChainOne(now, 0, m);
  }

  // ----- the queue -----

  class SendQueue {
    const buf: array<Byte>
    var head: nat
    var tail: nat
    /** Messages waiting before the next wrap, and after it. */
    ghost var first: seq<Bytes>
    ghost var second: seq<Bytes>
    ghost var wrapped: bool
    /** Where the zeroed remainder starts while messages wait on both sides of it. */
    ghost var mark: nat
    /** Everything handed to the socket so far. */
    ghost var sent: seq<Bytes>
    /** Every text passed in so far. */
    ghost var asked: seq<Option<Bytes>>

    ghost predicate Valid()
      reads this, buf
    {
      buf.Length == SIZE && Ring(buf[..], head, tail, first, second, wrapped, mark)
    }

    /** The messages waiting to be sent, oldest first. */
    ghost function Waiting(): seq<Bytes>
      reads this
    {
      first + second
    }

    /** The queue itself never checks this: without room it overwrites messages that still wait. */
    predicate HasRoom(text: Option<Bytes>)
      reads this
    {
      var m := Promote(text);
      var fLen := HeaderLen(|m|) + |m|;
      if head + fLen <= END - 0x10 then head < tail ==> AlignUp(head + fLen) < tail
      else tail <= head && AlignUp(fLen) < tail
    }

    constructor ()
      ensures Valid() && fresh(buf) && Waiting() == [] && sent == [] && asked == []
      ensures Delivered(sent, Waiting(), asked)
    {
      buf := new Byte[SIZE](_ => 0);
      head, tail := 0, 0;
      first, second, wrapped, mark, sent, asked := [], [], false, 0, [], [];
    }

    /** Picks where the next frame goes; before wrapping it zeroes what is left of the buffer. */
    method GetNextFrameForEnqueue(fLen: nat) returns (dst: nat)
      requires buf.Length == SIZE && head <= SIZE - 16
      modifies buf
      ensures if head + fLen <= END - 0x10 then dst == head && buf[..] == old(buf[..])
              else dst == 0 && Agree(old(buf[..]), buf[..], 0, head) && forall i :: head <= i < END ==> buf[i] == 0
    {
      if head + fLen <= END - 0x10 { return head; }
      forall i | head <= i < END { buf[i] := 0; }
      dst := 0;
    }

    method WriteFrame(dst: nat, m: Bytes)
      requires 0 < |m| < LARGEST && dst + HeaderLen(|m|) + |m| <= buf.Length
      modifies buf
      ensures FrameAt(buf[..], dst, m)
      ensures Agree(old(buf[..]), buf[..], 0, dst)
      ensures Agree(old(buf[..]), buf[..], dst + HeaderLen(|m|) + |m|, buf.Length)
    {
      var h := Header(|m|);
      forall i | 0 <= i < |h| { buf[dst + i] := h[i]; }
      forall i | 0 <= i < |m| { buf[dst + |h| + i] := m[i]; }
      assert buf[dst..dst + |h|] == h && buf[dst + |h|..dst + |h| + |m|] == m;
      assert buf[..][dst..dst + |h| + |m|] == Frame(m);
    }

    method EnqueueText(text: Option<Bytes>)
      requires Valid() && HasRoom(text)
      modifies this, buf
      ensures Valid() && Waiting() == old(Waiting()) + [if text.Some? && text.value != [] then text.value else [0x20]]
      ensures tail == old(tail) && head != tail && sent == old(sent) && asked == old(asked) + [text]
      ensures old(Delivered(sent, Waiting(), asked)) ==> Delivered(sent, Waiting(), asked)
    {
      hide AlignUp, Chain, FrameAt, HeaderLen, After, Delivered;
      var m := Promote(text);
      var fLen := HeaderLen(|m|) + |m|;
      ghost var was := buf[..];
      var dst := GetNextFrameForEnqueue(fLen);
      WriteFrame(dst, m);
      if head + fLen <= END - 0x10 {
        AppendsAtHead(was, buf[..], head, tail, first, second, wrapped, mark, m);
        if wrapped { second := second + [m]; } else { first := first + [m]; }
      } else {
        AppendsAtStart(was, buf[..], head, tail, first, second, wrapped, mark, m);
        mark, wrapped, second := head, true, [m];
      }
      head := After(dst + fLen);
      asked := asked + [text];
      assert Waiting() == old(Waiting()) + [m];
      if old(Delivered(sent, Waiting(), asked)) { OneMoreDelivered(sent, old(Waiting()), old(asked), text); }
    }

    method DequeueFrame(fLen: nat)
      requires buf.Length == SIZE && tail < SIZE
      modifies this`tail
      ensures tail == if buf[old(tail)] == 0x00 then 0 else After(old(tail) + fLen)
    {
      tail := if buf[tail] == 0x00 then 0 else After(tail + fLen);
    }

    lemma WaitingSizes()
      requires Valid()
      ensures forall m <- Waiting() :: |m| < LARGEST
    {
      ChainSizes(buf[..], tail, if wrapped then mark else head, first);
      if wrapped { ChainSizes(buf[..], 0, head, second); }
    }

    /** Sends the oldest frame and moves past it, or moves past the zeroed remainder. */
    method SendNext()
      requires Valid() && tail != head && forall m <- Waiting() :: |m| < LARGEST
      modifies this
      ensures Valid() && head == old(head) && asked == old(asked)
      ensures if old(first) == [] then old(wrapped) && !wrapped && Waiting() == old(Waiting()) && sent == old(sent)
              else wrapped == old(wrapped) && first == old(first)[1..] && second == old(second) &&
                   sent == old(sent) + Wire([old(first)[0]])
    {
      hide AlignUp, Chain, FrameAt, Header, HeaderLen, SizeAt;
      ghost var to := if wrapped then mark else head;
      ChainAdvances(buf[..], tail, to, first);
      var fLen := SizeAt(buf[..], tail);
      if first == [] {
        ZeroMark(buf[..], tail);
      } else {
        FrontFrame(buf[..], tail, to, first);
        assert buf[..][tail..tail + fLen] == buf[tail..tail + fLen];
      }
      if fLen > 3 {
        sent := sent + [buf[tail..tail + fLen]];
      }
      DequeueFrame(fLen);
      if first == [] {
        first, second, wrapped := second, [], false;
      } else {
        first := first[1..];
      }
    }

    /** Sends every waiting message, in order, and leaves the queue empty. */
    method FlushSendQueueBlocking()
      requires Valid()
      modifies this
      ensures Valid() && tail == head && Waiting() == [] && head == old(head) && asked == old(asked)
      ensures old(Delivered(sent, Waiting(), asked)) ==> Delivered(sent, [], asked) && sent == FramesOf(asked)
      ensures (forall m <- old(Waiting()) :: |m| < LARGEST) && sent == old(sent) + Wire(old(Waiting()))
    {
      hide AlignUp, Chain, Frame, Wire, Delivered;
      WaitingSizes();
      ghost var before, waiting := sent, Waiting();
      AllDelivered(before, waiting, asked);
      while tail != head
        invariant Valid() && head == old(head) && asked == old(asked) && forall m <- Waiting() :: |m| < LARGEST
        invariant sent + Wire(Waiting()) == old(sent) + Wire(old(Waiting()))
        decreases wrapped, |first|
      {
        ghost var was := Waiting();
        ghost var oldest := first;
        SendNext();
        if oldest != [] {
          assert was == [oldest[0]] + Waiting();
          assert forall m :: m in [oldest[0]] ==> m in was;
          WireConcat([oldest[0]], Waiting());
        }
      }
      ChainAdvances(buf[..], tail, head, first);
      WireNothing();
      assert Waiting() == [];
      assert sent == sent + Wire(Waiting());
      AllDelivered(sent, [], asked);
    }
  }
}
