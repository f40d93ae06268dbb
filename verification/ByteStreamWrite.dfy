/**
 Uploads: the messages `RemoteStore.Put` sends, what `ByteStreamServer.Write` makes
 of any sequence of messages, and the two together.
 */
module ByteStreamWrite {
  import opened Wrappers
  import opened Content
  import opened Readers
  import opened ResourceNames

  const WRITE_BUFFER_SIZE: nat := 32 * 1024

  datatype WriteRequest = WriteRequest(resourceName: string, offset: int, data: Bytes, finish: bool)

  /** The bytes carried by a sequence of messages. */
  function Payload(msgs: seq<WriteRequest>): Bytes {
    if msgs == [] then [] else Payload(msgs[..|msgs| - 1]) + msgs[|msgs| - 1].data
  }

  lemma PayloadAppend(msgs: seq<WriteRequest>, msg: WriteRequest)
    ensures Payload(msgs + [msg]) == Payload(msgs) + msg.data
  {
    assert (msgs + [msg])[..|msgs|] == msgs;
  }

  // The client.

  /** The i-th message of a stream: named exactly when it is the first, and at the offset the earlier ones reached. */
  predicate InPlace(msgs: seq<WriteRequest>, i: nat, name: string)
    requires i < |msgs|
  {
    && msgs[i].resourceName == (if i == 0 then name else "")
    && msgs[i].offset == |Payload(msgs[..i])|
  }

  /** Messages that carry data: none is empty or larger than the buffer, and none finishes. */
  predicate Carrying(msgs: seq<WriteRequest>, name: string) {
    forall i :: 0 <= i < |msgs| ==> InPlace(msgs, i, name) && !msgs[i].finish && 0 < |msgs[i].data| <= 32768
  }

  /** A finished upload of `content`: data messages and one last message that finishes and carries nothing. */
  predicate Complete(msgs: seq<WriteRequest>, name: string, content: Bytes) {
    && msgs != []
    && Carrying(msgs[..|msgs| - 1], name)
    && InPlace(msgs, |msgs| - 1, name)
    && msgs[|msgs| - 1].finish && msgs[|msgs| - 1].data == []
    && Payload(msgs) == content
  }

  lemma CarryingAppend(msgs: seq<WriteRequest>, name: string, msg: WriteRequest)
    requires Carrying(msgs, name)
    requires msg.resourceName == (if msgs == [] then name else "") && msg.offset == |Payload(msgs)|
    requires !msg.finish && 0 < |msg.data| <= WRITE_BUFFER_SIZE
    ensures Carrying(msgs + [msg], name)
  {
    var all := msgs + [msg];
    assert all[..|msgs|] == msgs;
    forall i | 0 <= i < |all|
      ensures InPlace(all, i, name) && !all[i].finish && 0 < |all[i].data| <= WRITE_BUFFER_SIZE
    {
      if i < |msgs| {
        assert all[..i] == msgs[..i] && InPlace(msgs, i, name);
      }
    }
  }

  lemma PayloadEmpty(msgs: seq<WriteRequest>, name: string)
    requires Carrying(msgs, name)
    ensures Payload(msgs) == [] <==> msgs == []
  {
    if msgs != [] { assert 0 < |msgs[|msgs| - 1].data|; }
  }

  /** How sending ends: with the finishing message, at a failure to read the data, or at a failure to send. */
  datatype Sending = Sent | ReadFailed | SendFailed

  /** Whether the n-th message can no longer be sent. */
  predicate BrokenAt(breaks: Option<nat>, n: nat) {
    breaks.Some? && breaks.value <= n
  }

  /** One turn of the client's loop: reads once and sends what was read, if anything. */
  method SendChunk(r: Reader, name: string, msgs: seq<WriteRequest>, offset: nat, breaks: Option<nat>)
    returns (msgs': seq<WriteRequest>, offset': nat, err: ReadError, broken: bool)
    requires Carrying(msgs, name) && Payload(msgs) == Slice(r.content, 0, r.pos) && offset == |Payload(msgs)|
    modifies r
    ensures if broken then msgs' == msgs && BrokenAt(breaks, |msgs|)
            else Carrying(msgs', name) && Payload(msgs') == Slice(r.content, 0, r.pos) && offset' == |Payload(msgs')|
    ensures err.Eof? ==> |r.content| <= r.pos
    ensures err.NoError? ==> r.Measure() < old(r.Measure())
    ensures old(FaultFree(r.script)) ==> !err.Failed? && FaultFree(r.script)
  {
    var data;
    data, err := r.Read(WRITE_BUFFER_SIZE);
    SliceAppend(r.content, 0, old(r.pos), r.pos);
    msgs', offset', broken := msgs, offset, false;
    if |data| > 0 {
      if BrokenAt(breaks, |msgs|) {
        broken := true;
        return;
      }
      msgs', offset' := Carry(msgs, name, offset, data);
    }
  }

  /** Sends one piece of the data. */
  method Carry(msgs: seq<WriteRequest>, name: string, offset: nat, data: Bytes)
    returns (msgs': seq<WriteRequest>, offset': nat)
    requires Carrying(msgs, name) && offset == |Payload(msgs)| && 0 < |data| <= WRITE_BUFFER_SIZE
    ensures Carrying(msgs', name) && Payload(msgs') == Payload(msgs) + data && offset' == |Payload(msgs')|
  {
    var req := WriteRequest(if offset > 0 then "" else name, offset, data, false);
    msgs', offset' := msgs + [req], offset + |data|;
    assert offset > 0 <==> msgs != [] by { PayloadEmpty(msgs, name); }
    assert Carrying(msgs', name) by { CarryingAppend(msgs, name, req); }
    assert Payload(msgs') == Payload(msgs) + data by { PayloadAppend(msgs, req); }
  }

  /** The client's loop, on a stream that takes all messages or those before number `breaks`. It finishes only what it
      has read and sent completely. */
  method SendStream(r: Reader, name: string, breaks: Option<nat>) returns (msgs: seq<WriteRequest>, ended: Sending)
    requires r.pos == 0
    modifies r
    ensures ended.Sent? ==> Complete(msgs, name, r.content)
    ensures !ended.Sent? ==> Carrying(msgs, name) && Payload(msgs) <= r.content
    ensures ended.SendFailed? ==> BrokenAt(breaks, |msgs|)
    ensures old(FaultFree(r.script)) ==> !ended.ReadFailed?
  {
    msgs := [];
    var offset: nat := 0;
    var err, broken := NoError, false;
    while err.NoError? && !broken
      invariant Carrying(msgs, name) && Payload(msgs) <= r.content
      invariant !broken ==> Payload(msgs) == Slice(r.content, 0, r.pos) && offset == |Payload(msgs)|
      invariant broken ==> BrokenAt(breaks, |msgs|)
      invariant err.Eof? ==> |r.content| <= r.pos
      invariant old(FaultFree(r.script)) ==> FaultFree(r.script) && !err.Failed?
      decreases err.NoError? && !broken, r.Measure()
    {
      msgs, offset, err, broken := SendChunk(r, name, msgs, offset, breaks);
      SliceAppend(r.content, 0, r.pos, r.pos + |r.content|);
    }
    if broken { return msgs, SendFailed; }
    if err.Failed? { return msgs, ReadFailed; }
    if BrokenAt(breaks, |msgs|) { return msgs, SendFailed; }
    msgs := Finish(msgs, name, offset, r.content);
    return msgs, Sent;
  }

  /** The finishing message. */
  method Finish(msgs: seq<WriteRequest>, name: string, offset: nat, content: Bytes) returns (all: seq<WriteRequest>)
    requires Carrying(msgs, name) && Payload(msgs) == content && offset == |content|
    ensures Complete(all, name, content)
  {
    var last := WriteRequest(if offset == 0 then name else "", offset, [], true);
    PayloadEmpty(msgs, name);
    PayloadAppend(msgs, last);
    all := msgs + [last];
    assert all[..|msgs|] == msgs;
  }

  /** `isCommitSuccessful`. */
  predicate CommitSuccessful(k: Kind, committed: int, d: Digest) {
    match k
    case Zstd => committed != 0
    case Plain => committed == d.size
  }

  /** A reply that a client takes for success: any committed size but 0 if it sent compressed data, otherwise the size
      of its digest. */
  predicate ReplyPasses(k: Kind, reply: Option<int>, d: Digest) {
    reply.Some? && if k == Zstd then reply.value != 0 else reply.value == d.size
  }

  /** `RemoteStore.Put`. `server` is the committed size a server replies to the messages it got, if it replies without
      an error. A send fails when the server has closed the stream; its reply then decides, as it does after the
      finishing message, so an upload can succeed that was not sent to the end. */
  method Put(r: Reader, name: string, k: Kind, d: Digest, breaks: Option<nat>, server: seq<WriteRequest> -> Option<int>)
    returns (ok: bool, msgs: seq<WriteRequest>)
    requires r.pos == 0
    modifies r
    ensures Complete(msgs, name, r.content) || (Carrying(msgs, name) && Payload(msgs) <= r.content)
    ensures ok ==> ReplyPasses(k, server(msgs), d)
    ensures ok ==> Complete(msgs, name, r.content) || BrokenAt(breaks, |msgs|)
    ensures old(FaultFree(r.script)) ==> (ok <==> ReplyPasses(k, server(msgs), d))
    ensures old(FaultFree(r.script)) && breaks.None? ==> Complete(msgs, name, r.content)
  {
    var ended;
    msgs, ended := SendStream(r, name, breaks);
    match ended
    case ReadFailed => ok := false;
    case SendFailed =>
      var reply := server(msgs);
      ok := reply.Some? && CommitSuccessful(k, reply.value, d);
    case Sent =>
      var reply := server(msgs);
      if reply.None? { return false, msgs; }
      ok := CommitSuccessful(k, reply.value, d);
  }

  // The server.

  /** `Stuck` is no error the client gets: the handler waits forever, at that message. */
  datatype WriteError = InvalidArgument | Internal | Broken | Stuck(message: nat)

  /** The messages up to the first that finishes, which is where the server stops receiving. */
  function Received(msgs: seq<WriteRequest>): seq<WriteRequest> {
    if msgs == [] then [] else if msgs[0].finish then [msgs[0]] else [msgs[0]] + Received(msgs[1..])
  }

  predicate Finishes(msgs: seq<WriteRequest>) {
    exists i :: 0 <= i < |msgs| && msgs[i].finish
  }

  /** What the first message starts: nothing if it is missing, unnamed, resumes, or does not parse. */
  function Started(msgs: seq<WriteRequest>): Option<Parsed> {
    if msgs == [] then None else StartedBy(msgs[0])
  }

  function StartedBy(msg: WriteRequest): Option<Parsed> {
    if msg.resourceName == "" || msg.offset > 0 then None else Parse(msg.resourceName, true)
  }

  function Unwire(wire: Bytes, compressed: bool, inflate: Bytes -> Option<Bytes>): Option<Bytes> {
    if compressed then inflate(wire) else Some(wire)
  }

  lemma {:induction false} ReceivedPrefix(msgs: seq<WriteRequest>, k: nat)
    requires k < |msgs| && msgs[k].finish && forall i :: 0 <= i < k ==> !msgs[i].finish
    ensures Received(msgs) == msgs[..k + 1]
    decreases k
  {
    if k > 0 {
      ReceivedPrefix(msgs[1..], k - 1);
      assert msgs[..k + 1] == [msgs[0]] + msgs[1..][..k];
    }
  }

  lemma {:induction false} ReceivedAll(msgs: seq<WriteRequest>)
    requires forall i :: 0 <= i < |msgs| ==> !msgs[i].finish
    ensures Received(msgs) == msgs
  {
    if msgs != [] { ReceivedAll(msgs[1..]); }
  }

  lemma PayloadNext(msgs: seq<WriteRequest>, i: nat)
    requires i < |msgs|
    ensures Payload(msgs[..i + 1]) == Payload(msgs[..i]) + msgs[i].data
  {
    PayloadAppend(msgs[..i], msgs[i]);
    assert msgs[..i] + [msgs[i]] == msgs[..i + 1];
  }

  predicate NoneFinishes(msgs: seq<WriteRequest>, n: nat)
    requires n <= |msgs|
  {
    forall i :: 0 <= i < n ==> !msgs[i].finish
  }

  lemma {:induction false} ReceivedExactly(msgs: seq<WriteRequest>, n: nat, finished: bool)
    requires if finished then 0 < n <= |msgs| && NoneFinishes(msgs, n - 1) && msgs[n - 1].finish
             else n == |msgs| && NoneFinishes(msgs, n)
    ensures Received(msgs) == msgs[..n] && (finished <==> Finishes(msgs))
  {
    if finished {
      ReceivedPrefix(msgs, n - 1);
    } else {
      ReceivedAll(msgs);
      assert msgs[..n] == msgs;
    }
  }

  /** The store has taken all it will take when the handler writes the data of message i to the pipe, and there it
      stays. */
  predicate SticksAt(stops: nat, msgs: seq<WriteRequest>, i: nat) {
    i < |Received(msgs)| && |Payload(Received(msgs)[..i])| <= stops < |Payload(Received(msgs)[..i + 1])|
  }

  lemma ReceivedTakes(msgs: seq<WriteRequest>, n: nat)
    requires n < |msgs| && NoneFinishes(msgs, n)
    ensures n < |Received(msgs)| && Received(msgs)[..n + 1] == msgs[..n + 1] && Received(msgs)[..n] == msgs[..n]
  {
    if n > 0 {
      assert NoneFinishes(msgs[1..], n - 1);
      ReceivedTakes(msgs[1..], n - 1);
      assert msgs[..n + 1] == [msgs[0]] + msgs[1..][..n];
      assert Received(msgs)[..n + 1] == [msgs[0]] + Received(msgs[1..])[..n];
      assert msgs[..n] == msgs[..n + 1][..n] && Received(msgs)[..n] == Received(msgs)[..n + 1][..n];
    }
  }

  /** The receive loop, once the first message has started it. It takes data in the order it comes, whatever offset the
      messages claim, and hands it to the store through a pipe without a buffer: a store that takes no more than `stops`
      bytes leaves it stuck. */
  method Receive(msgs: seq<WriteRequest>, stops: Option<nat>)
    returns (piped: Bytes, totalWritten: nat, finished: bool, stuck: Option<nat>)
    ensures stuck.Some? ==> stops.Some? && SticksAt(stops.value, msgs, stuck.value)
    ensures stuck.None? ==>
      && piped == Payload(Received(msgs)) && totalWritten == |piped| && (finished <==> Finishes(msgs))
      && (stops.Some? ==> |piped| <= stops.value)
  {
    piped, totalWritten, finished := [], 0, false;
    var i := 0;
    while i < |msgs| && !finished
      invariant 0 <= i <= |msgs|
      invariant piped == Payload(msgs[..i]) && totalWritten == |piped| && (stops.Some? ==> |piped| <= stops.value)
      invariant if finished then i > 0 && NoneFinishes(msgs, i - 1) && msgs[i - 1].finish else NoneFinishes(msgs, i)
      decreases |msgs| - i
    {
      var sticks;
      piped, totalWritten, sticks := PipeOne(msgs, i, piped, totalWritten, stops);
      if sticks { return piped, totalWritten, finished, Some(i); }
      finished := msgs[i].finish;
      i := i + 1;
    }
    assert Received(msgs) == msgs[..i] && (finished <==> Finishes(msgs)) by { ReceivedExactly(msgs, i, finished); }
    stuck := None;
  }

  /** Writes the data of one message to the pipe. */
  method PipeOne(msgs: seq<WriteRequest>, i: nat, piped: Bytes, totalWritten: nat, stops: Option<nat>)
    returns (piped': Bytes, totalWritten': nat, sticks: bool)
    requires i < |msgs| && NoneFinishes(msgs, i) && piped == Payload(msgs[..i]) && totalWritten == |piped|
    requires stops.Some? ==> |piped| <= stops.value
    ensures sticks ==> stops.Some? && SticksAt(stops.value, msgs, i)
    ensures !sticks ==>
              piped' == Payload(msgs[..i + 1]) && totalWritten' == |piped'| && (stops.Some? ==> |piped'| <= stops.value)
  {
    piped', totalWritten' := piped + msgs[i].data, totalWritten + |msgs[i].data|;
    assert piped' == Payload(msgs[..i + 1]) by { PayloadNext(msgs, i); }
    sticks := stops.Some? && stops.value < |piped'|;
    if sticks {
      assert SticksAt(stops.value, msgs, i) by { ReceivedTakes(msgs, i); }
    }
  }

  /** The store gives up before it has taken everything. */
  predicate Blocks(stops: Option<nat>, msgs: seq<WriteRequest>) {
    stops.Some? && stops.value < |Payload(Received(msgs))|
  }

  lemma {:induction false} PayloadGrows(msgs: seq<WriteRequest>, n: nat)
    requires n <= |msgs|
    ensures |Payload(msgs[..n])| <= |Payload(msgs)|
    decreases |msgs| - n
  {
    if n < |msgs| {
      PayloadNext(msgs, n);
      PayloadGrows(msgs, n + 1);
    } else {
      assert msgs[..n] == msgs;
    }
  }

  /** Sticking anywhere is giving up too early. */
  lemma SticksMeansBlocks(stops: nat, msgs: seq<WriteRequest>, i: nat)
    requires SticksAt(stops, msgs, i)
    ensures Blocks(Some(stops), msgs)
  {
    PayloadGrows(Received(msgs), i + 1);
  }

  /** What the store is given: everything, if the server got it to the end, under the digest of the first message. */
  function Given(msgs: seq<WriteRequest>, cut: bool, stops: Option<nat>, inflate: Bytes -> Option<Bytes>)
    : Option<(Digest, Bytes)>
  {
    if Started(msgs).None? || (cut && !Finishes(msgs)) || Blocks(stops, msgs) then None
    else
      var input := Unwire(Payload(Received(msgs)), Started(msgs).value.compressed, inflate);
      if input.None? then None else Some((Started(msgs).value.digest, input.value))
  }

  /** The committed size the server replies, if it replies without an error. */
  function Reply(msgs: seq<WriteRequest>, cut: bool, stops: Option<nat>,
                 inflate: Bytes -> Option<Bytes>, accepts: (Digest, Bytes) -> bool): Option<int>
  {
    match Given(msgs, cut, stops, inflate)
    case None => None
    case Some((digest, data)) => if accepts(digest, data) then Some(|Payload(Received(msgs))|) else None
  }

  /** A first message that starts a write: named and not resumed, its name matched by the expression for writes, with a
      size that fits an int64. */
  ghost predicate Starts(msg: WriteRequest, k: Kind, hash: string, digits: string) {
    && msg.resourceName != "" && msg.offset <= 0
    && WriteRegex(msg.resourceName, k, hash, digits) && Value(digits) < 0x8000_0000_0000_0000
  }

  ghost predicate StartsAny(msg: WriteRequest) {
    exists k, hash, digits :: Starts(msg, k, hash, digits)
  }

  /** What is stored is the payload, decompressed if the name says it is compressed, under the digest in the name. */
  ghost predicate StoredAs(msg: WriteRequest, payload: Bytes, inflate: Bytes -> Option<Bytes>, d: Digest, data: Bytes) {
    && StartsAny(msg)
    && forall k, hash, digits :: Starts(msg, k, hash, digits) ==>
         && d == Digest(hash, Value(digits))
         && (k == Plain ==> data == payload)
         && (k == Zstd ==> inflate(payload) == Some(data))
  }

  lemma StartsExactly(msg: WriteRequest)
    ensures StartedBy(msg).Some? <==> StartsAny(msg)
    ensures forall k, hash, digits :: Starts(msg, k, hash, digits) ==>
              StartedBy(msg) == Some(Parsed(Digest(hash, Value(digits)), k == Zstd))
  {
    var name := msg.resourceName;
    assert StartedBy(msg).Some? ==> StartsAny(msg) by {
      if StartedBy(msg).Some? {
        ParseExactly(name, true);
        var k, hash, digits :| Regex(name, true, k, hash, digits) && Value(digits) < INT64_LIMIT;
        assert Starts(msg, k, hash, digits);
      }
    }
    forall k, hash, digits | Starts(msg, k, hash, digits)
      ensures StartedBy(msg) == Some(Parsed(Digest(hash, Value(digits)), k == Zstd))
    {
      ParseComplete(name, true, k, hash, digits);
    }
  }

  lemma GivenStored(msgs: seq<WriteRequest>, cut: bool, stops: Option<nat>, inflate: Bytes -> Option<Bytes>)
    requires Given(msgs, cut, stops, inflate).Some?
    ensures var (d, data) := Given(msgs, cut, stops, inflate).value;
            msgs != [] && StoredAs(msgs[0], Payload(Received(msgs)), inflate, d, data)
  {
    StartsExactly(msgs[0]);
  }

  /** `Write`. `cut` says that the stream breaks after these messages instead of being closed; `stops` that the store
      takes only so many bytes from the pipe; `accepts` is the store's answer to a `Put` that was given all of its
      input; `put` is that input. */
  method ServeWrite(msgs: seq<WriteRequest>, cut: bool, stops: Option<nat>,
                    inflate: Bytes -> Option<Bytes>, accepts: (Digest, Bytes) -> bool)
    returns (r: Result<int, WriteError>, put: Option<(Digest, Bytes)>)
    ensures Reply(msgs, cut, stops, inflate, accepts) == if r.Ok? then Some(r.value) else None
    ensures r == Err(Broken) ==> cut && !Finishes(msgs)
    ensures Started(msgs).None? ==> put.None? && r == Err(if msgs == [] && cut then Broken else InvalidArgument)
    ensures Started(msgs).Some? ==> (r.Err? && r.error.Stuck? <==> Blocks(stops, msgs))
    ensures r.Err? && r.error.Stuck? ==> stops.Some? && SticksAt(stops.value, msgs, r.error.message)
    ensures put == Given(msgs, cut, stops, inflate)
    ensures msgs != [] ==> (r == Err(InvalidArgument) && put.None? <==> !StartsAny(msgs[0]))
    ensures put.Some? ==> msgs != [] && StoredAs(msgs[0], Payload(Received(msgs)), inflate, put.value.0, put.value.1)
  {
    if msgs == [] { return Err(if cut then Broken else InvalidArgument), None; }
    var initialized := StartedBy(msgs[0]);
    assert initialized.Some? <==> StartsAny(msgs[0]) by { StartsExactly(msgs[0]); }
    if initialized.None? { return Err(InvalidArgument), None; }
    r, put := ServeStarted(msgs, initialized.value, cut, stops, inflate, accepts);
    if put.Some? { GivenStored(msgs, cut, stops, inflate); }
  }

  /** The rest, once the first message has named what is written. */
  method ServeStarted(msgs: seq<WriteRequest>, p: Parsed, cut: bool, stops: Option<nat>,
                      inflate: Bytes -> Option<Bytes>, accepts: (Digest, Bytes) -> bool)
    returns (r: Result<int, WriteError>, put: Option<(Digest, Bytes)>)
    requires Started(msgs) == Some(p)
    ensures Reply(msgs, cut, stops, inflate, accepts) == if r.Ok? then Some(r.value) else None
    ensures r == Err(Broken) ==> cut && !Finishes(msgs)
    ensures r != Err(InvalidArgument)
    ensures r.Err? && r.error.Stuck? <==> Blocks(stops, msgs)
    ensures r.Err? && r.error.Stuck? ==> stops.Some? && SticksAt(stops.value, msgs, r.error.message)
    ensures put == Given(msgs, cut, stops, inflate)
  {
    var piped, totalWritten, finished, stuck := Receive(msgs, stops);
    if stuck.Some? {
      assert Blocks(stops, msgs) by { SticksMeansBlocks(stops.value, msgs, stuck.value); }
      return Err(Stuck(stuck.value)), None;
    }
    if !finished && cut { return Err(Broken), None; }
    var input := Unwire(piped, p.compressed, inflate);
    if input.None? { return Err(Internal), None; }
    put := Some((p.digest, input.value));
    r := if accepts(p.digest, input.value) then Ok(totalWritten) else Err(Internal);
  }

  // Both together.

  lemma CompleteReceived(msgs: seq<WriteRequest>, name: string, content: Bytes)
    requires Complete(msgs, name, content)
    ensures Received(msgs) == msgs && Finishes(msgs)
    ensures Started(msgs) == if name == "" then None else Parse(name, true)
  {
    var n := |msgs| - 1;
    forall i | 0 <= i < n ensures !msgs[i].finish {
      assert msgs[i] == msgs[..n][i];
    }
    ReceivedPrefix(msgs, n);
    assert msgs[..n + 1] == msgs;
    if n > 0 { assert InPlace(msgs[..n], 0, name) && msgs[..n][0] == msgs[0]; }
  }

  lemma CarryingUnfinished(msgs: seq<WriteRequest>, name: string)
    requires Carrying(msgs, name)
    ensures !Finishes(msgs)
  {
  }

  /** What travels: the data, or its compressed form. */
  function Wire(k: Kind, data: Bytes, deflate: Bytes -> Bytes): Bytes {
    if k == Zstd then deflate(data) else data
  }

  /** Whether the client accepts the committed size: any but zero if compressed, the declared one otherwise. */
  predicate SizePasses(k: Kind, d: Digest, data: Bytes, deflate: Bytes -> Bytes) {
    if k == Zstd then deflate(data) != [] else |data| == d.size
  }

  /** What becomes of the messages of an upload: of all of them, or of some that do not finish. */
  predicate Outcome(k: Kind, d: Digest, data: Bytes, msgs: seq<WriteRequest>, stops: Option<nat>,
                    deflate: Bytes -> Bytes,
                    inflate: Bytes -> Option<Bytes>, accepts: (Digest, Bytes) -> bool, complete: bool)
  {
    var wire := Wire(k, data, deflate);
    var given := complete && d.size >= 0 && (stops.None? || stops.value >= |wire|);
    && Given(msgs, !Finishes(msgs), stops, inflate) == (if given then Some((d, data)) else None)
    && Reply(msgs, !Finishes(msgs), stops, inflate, accepts) == if given && accepts(d, data) then Some(|wire|) else None
  }

  lemma CompleteOutcome(name: string, k: Kind, d: Digest, data: Bytes, msgs: seq<WriteRequest>, stops: Option<nat>,
                        deflate: Bytes -> Bytes, inflate: Bytes -> Option<Bytes>, accepts: (Digest, Bytes) -> bool)
    requires Complete(msgs, name, Wire(k, data, deflate)) && name != ""
    requires Parse(name, true) == if d.size < 0 then None else Some(Parsed(d, k == Zstd))
    requires inflate(deflate(data)) == Some(data)
    ensures Outcome(k, d, data, msgs, stops, deflate, inflate, accepts, true)
  {
    CompleteReceived(msgs, name, Wire(k, data, deflate));
  }

  /** Uploading `data` under its digest: a store that is given anything is given exactly the data, under exactly that
      digest; and on a stream that does not break the client reports success exactly when the store takes all of it and
      accepts it, and the committed size passes. This server never answers early except with an error, so when a send
      fails there is no reply. */
  method Upload(instanceName: string, uuid: string, k: Kind, d: Digest, data: Bytes, script: seq<Attempt>,
                breaks: Option<nat>, stops: Option<nat>,
                deflate: Bytes -> Bytes, inflate: Bytes -> Option<Bytes>, accepts: (Digest, Bytes) -> bool)
    returns (ok: bool, put: Option<(Digest, Bytes)>)
    requires HexString(d.hash) && Segment(uuid) && d.size < INT64_LIMIT
    requires inflate(deflate(data)) == Some(data)
    ensures put.Some? ==> put.value == (d, data)
    ensures ok ==> put.Some? && accepts(d, data) && SizePasses(k, d, data, deflate)
    ensures FaultFree(script) && breaks.None? ==>
      (put.Some? <==> d.size >= 0 && (stops.None? || stops.value >= |Wire(k, data, deflate)|))
    ensures FaultFree(script) && breaks.None? ==>
              (ok <==> put.Some? && accepts(d, data) && SizePasses(k, d, data, deflate))
  {
    NameRoundTrip(instanceName, uuid, k, d);
    ok, put := UploadAs(WriteName(instanceName, uuid, k, d), k, d, data, script, breaks, stops, deflate, inflate,
                        accepts);
  }

  /** The same under a name that the server reads as that digest. */
  method UploadAs(name: string, k: Kind, d: Digest, data: Bytes, script: seq<Attempt>, breaks: Option<nat>,
                  stops: Option<nat>,
                  deflate: Bytes -> Bytes, inflate: Bytes -> Option<Bytes>, accepts: (Digest, Bytes) -> bool)
    returns (ok: bool, put: Option<(Digest, Bytes)>)
    requires name != "" && Parse(name, true) == if d.size < 0 then None else Some(Parsed(d, k == Zstd))
    requires inflate(deflate(data)) == Some(data)
    ensures put.Some? ==> put.value == (d, data)
    ensures ok ==> put.Some? && accepts(d, data) && SizePasses(k, d, data, deflate)
    ensures FaultFree(script) && breaks.None? ==>
      (put.Some? <==> d.size >= 0 && (stops.None? || stops.value >= |Wire(k, data, deflate)|))
    ensures FaultFree(script) && breaks.None? ==>
              (ok <==> put.Some? && accepts(d, data) && SizePasses(k, d, data, deflate))
  {
    var reader := new Reader(Wire(k, data, deflate), script);
    var msgs;
    ok, msgs := Put(reader, name, k, d, breaks, m => Reply(m, !Finishes(m), stops, inflate, accepts));
    assert Outcome(k, d, data, msgs, stops, deflate, inflate, accepts, Complete(msgs, name, reader.content)) by {
      if Complete(msgs, name, reader.content) {
        CompleteOutcome(name, k, d, data, msgs, stops, deflate, inflate, accepts);
      } else {
        CarryingUnfinished(msgs, name);
      }
    }
    var r;
    r, put := ServeWrite(msgs, !Finishes(msgs), stops, inflate, accepts);
  }

  /** An encoder that makes nothing of an empty blob: the store accepts it, and the client reports a failure. */
  method EmptyUploadFails(instanceName: string, uuid: string, hash: string, accepts: (Digest, Bytes) -> bool)
    returns (ok: bool, put: Option<(Digest, Bytes)>)
    requires HexString(hash) && Segment(uuid) && accepts(Digest(hash, 0), [])
    ensures put == Some((Digest(hash, 0), [])) && !ok
  {
    ok, put := Upload(instanceName, uuid, Zstd, Digest(hash, 0), [], [], None, None, x => x, x => Some(x),
                      accepts);
  }
}
