/**
 The framing of the persistent worker protocol: a 4-byte little-endian length, then
 the message.
 */
module Framing {
  import opened Wrappers
  import opened Content
  import opened Readers

  const UINT32_LIMIT := 0x1_0000_0000

  /** `uint32(n)`, little-endian. */
  function LengthBytes(n: nat): (b: Bytes)
    ensures |b| == 4
  {
    [n % 256, n / 256 % 256, n / 65536 % 256, n / 16777216 % 256]
  }

  function LengthOf(b: Bytes): nat
    requires |b| == 4
  {
    b[0] as int + 256 * b[1] as int + 65536 * b[2] as int + 16777216 * b[3] as int
  }

  /** The length that is read is the length that was written, modulo 2^32. */
  lemma LengthRoundTrip(n: nat)
    ensures LengthOf(LengthBytes(n)) == n % UINT32_LIMIT
  {
    assert n / 65536 == n / 256 / 256;
    assert n / 16777216 == n / 65536 / 256;
    var low := n % UINT32_LIMIT;
    var k := n / UINT32_LIMIT;
    assert n == low + k * UINT32_LIMIT;
    assert n / 16777216 == low / 16777216 + 256 * k;
  }

  function Frame(message: Bytes): Bytes {
    LengthBytes(|message|) + message
  }

  /** Frames written one after the other. */
  function Frames(messages: seq<Bytes>): Bytes {
    if messages == [] then [] else Frame(messages[0]) + Frames(messages[1..])
  }

  /** The frame at the head of a stream, and the bytes it takes; nothing if the stream is too short. */
  function Head(stream: Bytes): Option<Bytes> {
    if |stream| < 4 then None
    else if |stream| - 4 < LengthOf(stream[..4]) then None
    else Some(stream[4..4 + LengthOf(stream[..4])])
  }

  /** Reading until the stream ends: the messages, and whether it ended between two frames. */
  datatype Reading = Reading(messages: seq<Bytes>, clean: bool)

  function After(earlier: seq<Bytes>, reading: Reading): Reading {
    Reading(earlier + reading.messages, reading.clean)
  }

  function Messages(stream: Bytes): Reading
    decreases |stream|
  {
    if stream == [] then Reading([], true)
    else match Head(stream)
      case None => Reading([], false)
      case Some(m) => After([m], Messages(stream[4 + |m|..]))
  }

  lemma AfterAppend(a: seq<Bytes>, b: seq<Bytes>, reading: Reading)
    ensures After(a, After(b, reading)) == After(a + b, reading)
    ensures After([], reading) == reading
  {
    assert a + (b + reading.messages) == a + b + reading.messages;
    assert [] + reading.messages == reading.messages;
  }

  /** A length, and at least as many bytes as it says, or fewer. */
  lemma HeadWith(b: Bytes, m: Bytes, rest: Bytes)
    requires |b| == 4
    ensures LengthOf(b) <= |m| ==> Head(b + m + rest) == Some(m[..LengthOf(b)])
    ensures |m| < LengthOf(b) ==> Head(b + m) == None
  {
    var n := LengthOf(b);
    if n <= |m| {
      var stream := b + m + rest;
      assert stream[..4] == b;
      assert stream[4..4 + n] == m[..n];
    } else {
      assert (b + m)[..4] == b;
    }
  }

  /** What is read where a frame was written: the message, cut to its length modulo 2^32. */
  lemma HeadOfFrame(m: Bytes, rest: Bytes)
    ensures Head(Frame(m) + rest) == Some(m[..|m| % UINT32_LIMIT])
  {
    var b, n := LengthBytes(|m|), |m| % UINT32_LIMIT;
    assert LengthOf(b) == n by { LengthRoundTrip(|m|); }
    HeadWith(b, m, rest);
  }

  /** A message survives exactly when its length fits 32 bits. */
  lemma FrameExactly(m: Bytes, rest: Bytes)
    ensures Head(Frame(m) + rest) == Some(m) <==> |m| < UINT32_LIMIT
  {
    HeadOfFrame(m, rest);
    if |m| >= UINT32_LIMIT {
      assert |m[..|m| % UINT32_LIMIT]| < |m|;
    } else {
      assert m[..|m|] == m;
    }
  }

  predicate AllFit(messages: seq<Bytes>) {
    forall i :: 0 <= i < |messages| ==> |messages[i]| < UINT32_LIMIT
  }

  lemma MessagesOfFrame(m: Bytes, rest: Bytes)
    requires |m| < UINT32_LIMIT
    ensures Messages(Frame(m) + rest) == After([m], Messages(rest))
  {
    FrameExactly(m, rest);
    assert (Frame(m) + rest)[4 + |m|..] == rest;
  }

  /** Frames written back to back are read back as the same messages, followed by whatever
      the rest of the stream reads as. */
  lemma {:induction false} FramesThen(messages: seq<Bytes>, rest: Bytes)
    requires AllFit(messages)
    ensures Messages(Frames(messages) + rest) == After(messages, Messages(rest))
  {
    if messages == [] {
      assert Frames(messages) + rest == rest;
      AfterAppend([], [], Messages(rest));
    } else {
      var m, more := messages[0], messages[1..];
      assert Frames(messages) + rest == Frame(m) + (Frames(more) + rest);
      MessagesOfFrame(m, Frames(more) + rest);
      FramesThen(more, rest);
      AfterAppend([m], more, Messages(rest));
      assert [m] + more == messages;
    }
  }

  /** Reading frames undoes writing them. */
  lemma FramesRoundTrip(messages: seq<Bytes>)
    requires AllFit(messages)
    ensures Messages(Frames(messages)) == Reading(messages, true)
  {
    FramesThen(messages, []);
    assert Frames(messages) + [] == Frames(messages);
    assert messages + [] == messages;
  }

  lemma NoHead(m: Bytes, cut: nat)
    requires |m| < UINT32_LIMIT && 0 < cut < |Frame(m)|
    ensures Messages(Frame(m)[..cut]) == Reading([], false)
  {
    assert Head(Frame(m)[..cut]) == None by {
      if cut >= 4 { NoHeadWith(m, cut - 4); }
    }
  }

  lemma NoHeadWith(m: Bytes, some: nat)
    requires some < |m| < UINT32_LIMIT
    ensures Head(Frame(m)[..4 + some]) == None
  {
    var b := LengthBytes(|m|);
    assert LengthOf(b) == |m| by { LengthRoundTrip(|m|); }
    assert Frame(m)[..4 + some] == b + m[..some];
    HeadWith(b, m[..some], []);
  }

  /** A stream cut inside a frame yields the whole frames before it and an error, never a shortened message. */
  lemma TruncatedTail(messages: seq<Bytes>, m: Bytes, cut: nat)
    requires AllFit(messages) && |m| < UINT32_LIMIT && 0 < cut < |Frame(m)|
    ensures Messages(Frames(messages) + Frame(m)[..cut]) == Reading(messages, false)
  {
    NoHead(m, cut);
    FramesThen(messages, Frame(m)[..cut]);
    assert messages + [] == messages;
  }

  // The code that writes and reads frames.

  /** The writing end of a pipe; `room` is how many more bytes it will take. */
  class Pipe {
    var data: Bytes
    var room: nat

    method Write(b: Bytes) returns (ok: bool)
      modifies this
      ensures ok <==> |b| <= old(room)
      ensures ok ==> data == old(data) + b && room == old(room) - |b|
      ensures !ok ==> data == old(data) + b[..old(room)] && room == 0
    {
      ok := |b| <= room;
      if ok {
        data, room := data + b, room - |b|;
      } else {
        data, room := data + b[..room], 0;
      }
    }
  }

  /** What goes over the wire, byte by byte: the length modulo 2^32 in base 256, least significant digit first, and the
      message. */
  lemma FrameBytes(m: Bytes)
    ensures |Frame(m)| == 4 + |m| && Frame(m)[4..] == m
    ensures var n := |m| % 0x1_0000_0000;
            && Frame(m)[0] == n % 256 && Frame(m)[1] == n / 256 % 256
            && Frame(m)[2] == n / 65536 % 256 && Frame(m)[3] == n / 16777216
  {
    var b, n := LengthBytes(|m|), |m| % 0x1_0000_0000;
    var high: nat := b[2] as int + 256 * b[3] as int;
    assert n == b[0] as int + 256 * (b[1] as int + 256 * high) by { LengthRoundTrip(|m|); }
    LowestDigit(b[0], b[1] as int + 256 * high);
    LowestDigit(b[1], high);
    LowestDigit(b[2], b[3]);
    assert n / 65536 == n / 256 / 256 && n / 16777216 == n / 65536 / 256;
    assert Frame(m)[..4] == b;
  }

  lemma LowestDigit(digit: Byte, rest: nat)
    ensures (digit + 256 * rest) % 256 == digit && (digit + 256 * rest) / 256 == rest
  {
  }

  /** `writeProto`, after marshalling. If it succeeds, the stream has grown by the length of the message as four bytes,
      least significant first, and the message; otherwise by as much of that as there was room for. */
  method WriteProto(w: Pipe, message: Bytes) returns (ok: bool)
    modifies w
    ensures ok <==> 4 + |message| <= old(w.room)
    ensures ok ==>
              && |w.data| == |old(w.data)| + 4 + |message|
              && w.data[..|old(w.data)|] == old(w.data) && w.data[|old(w.data)| + 4..] == message
              && var b, n := w.data[|old(w.data)|..], |message| % 0x1_0000_0000;
                 b[0] == n % 256 && b[1] == n / 256 % 256 && b[2] == n / 65536 % 256 && b[3] == n / 16777216
    ensures w.data == old(w.data) + if ok then Frame(message) else Frame(message)[..old(w.room)]
  {
    FrameBytes(message);
    var lenBuf := LengthBytes(|message|);
    ok := w.Write(lenBuf);
    if !ok {
      assert Frame(message)[..old(w.room)] == lenBuf[..old(w.room)];
      return;
    }
    ok := w.Write(message);
    if ok {
      assert old(w.data) + lenBuf + message == old(w.data) + Frame(message);
    } else {
      assert Frame(message)[..old(w.room)] == lenBuf + message[..old(w.room) - 4];
    }
  }

  /** `io.ReadFull`. */
  method ReadFull(r: Reader, n: nat) returns (data: Bytes, ok: bool)
    modifies r
    ensures old(r.pos) <= r.pos
    ensures ok ==> r.pos == old(r.pos) + n && |data| == n && data == Slice(r.content, old(r.pos), r.pos)
    ensures ok && n > 0 ==> r.pos <= |r.content|
    ensures old(FaultFree(r.script)) ==> FaultFree(r.script) && (ok <==> n == 0 || old(r.pos) + n <= |r.content|)
  {
    data, ok := [], true;
    while |data| < n && ok
      invariant |data| <= n && r.pos == old(r.pos) + |data|
      invariant data == Slice(r.content, old(r.pos), r.pos)
      invariant |data| > 0 ==> r.pos <= |r.content|
      invariant |data| == n ==> ok
      invariant old(FaultFree(r.script)) ==> FaultFree(r.script) && (ok || |r.content| <= r.pos)
      decreases ok && |data| < n, r.Measure()
    {
      ghost var mid := r.pos;
      var more, err := r.Read(n - |data|);
      SliceAppend(r.content, old(r.pos), mid, r.pos);
      data := data + more;
      ok := err.NoError? || |data| == n;
    }
  }

  /** `readProto`, before unmarshalling: short reads do not matter, and it succeeds exactly when a whole frame is left.
      The first four bytes, least significant first, say how many more make up the message. */
  method ReadProto(r: Reader) returns (message: Option<Bytes>)
    requires r.pos <= |r.content|
    modifies r
    ensures message.Some? ==> Head(r.content[old(r.pos)..]) == message && r.pos == old(r.pos) + 4 + |message.value|
    ensures message.Some? ==> r.pos <= |r.content|
    ensures old(FaultFree(r.script)) ==> FaultFree(r.script) && message == Head(r.content[old(r.pos)..])
    ensures var b := r.content[old(r.pos)..];
            && (message.Some? ==> |b| >= 4)
            && (|b| >= 4 ==>
                  var n := b[0] as int + 256 * b[1] as int + 65536 * b[2] as int + 16777216 * b[3] as int;
                  && (message.Some? ==> 4 + n <= |b| && message.value == b[4..4 + n])
                  && (old(FaultFree(r.script)) ==> (message.Some? <==> 4 + n <= |b|)))
  {
    ghost var stream := r.content[r.pos..];
    var lenBuf, ok := ReadFull(r, 4);
    if !ok { return None; }
    assert lenBuf == stream[..4];
    var size := LengthOf(lenBuf);
    var data;
    data, ok := ReadFull(r, size);
    if !ok { return None; }
    assert data == stream[4..4 + size];
    return Some(data);
  }

  /** Everything a reader has to offer is what `Messages` says, however the reads come. */
  method ReadMessages(r: Reader) returns (messages: seq<Bytes>, clean: bool)
    requires r.pos == 0 && FaultFree(r.script)
    modifies r
    ensures Reading(messages, clean) == Messages(r.content)
  {
    messages := [];
    AfterAppend([], [], Messages(r.content));
    assert r.content[0..] == r.content;
    while r.pos < |r.content|
      invariant r.pos <= |r.content| && FaultFree(r.script)
      invariant Messages(r.content) == After(messages, Messages(r.content[r.pos..]))
      decreases |r.content| - r.pos
    {
      ghost var stream := r.content[r.pos..];
      var m := ReadProto(r);
      if m.None? {
        assert messages + [] == messages;
        return messages, false;
      }
      assert stream[4 + |m.value|..] == r.content[r.pos..];
      AfterAppend(messages, [m.value], Messages(r.content[r.pos..]));
      messages := messages + [m.value];
    }
    assert messages + [] == messages;
    return messages, true;
  }
}
