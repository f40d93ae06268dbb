/**
 `ByteStreamServer.Read`: the responses of one read carry exactly the requested
 range of the blob, whatever the sizes of the underlying reads; and
 `RemoteStore.Get` against such a server.
 */
module ByteStreamRead {
  import opened Wrappers
  import opened Content
  import opened Readers
  import opened ResourceNames

  const READ_BUFFER_SIZE: nat := 64 * 1024
  const COPY_BUFFER_SIZE: nat := 32 * 1024
  const MAX_INT64 := INT64_LIMIT - 1

  /** The bytes a request names: from `offset` on, at most `limit` of them. An offset that is
      not positive means the start, a limit that is not positive means the largest int64. */
  function Range(content: Bytes, offset: int, limit: int): Bytes {
    var from := if offset > 0 then offset else 0;
    Slice(content, from, from + if limit > 0 then limit else MAX_INT64)
  }

  /** `io.CopyN` into nothing. */
  method Skip(r: Reader, n: nat) returns (ok: bool)
    modifies r
    ensures ok ==> r.pos == old(r.pos) + n
    ensures ok && n > 0 ==> r.pos <= |r.content|
    ensures old(FaultFree(r.script)) ==> FaultFree(r.script)
    ensures old(FaultFree(r.script)) && old(r.pos) + n <= |r.content| ==> ok
  {
    var remaining := n;
    while remaining > 0
      invariant 0 <= remaining <= n && r.pos == old(r.pos) + n - remaining
      invariant remaining < n ==> r.pos <= |r.content|
      invariant old(FaultFree(r.script)) ==> FaultFree(r.script)
      decreases r.Measure()
    {
      var data, err := r.Read(if remaining < COPY_BUFFER_SIZE then remaining else COPY_BUFFER_SIZE);
      remaining := remaining - |data|;
      if !err.NoError? {
        return remaining == 0;
      }
    }
    return true;
  }

  /** Every response carries something and fits the buffer. */
  predicate Sized(responses: seq<Bytes>) {
    forall i :: 0 <= i < |responses| ==> 0 < |responses[i]| <= 65536
  }

  lemma SizedAppend(responses: seq<Bytes>, data: Bytes)
    requires Sized(responses) && 0 < |data| <= READ_BUFFER_SIZE
    ensures Sized(responses + [data])
  {
  }

  /** One turn of the loop: reads once and sends what was read, if anything. */
  method SendOnce(r: Reader, responses: seq<Bytes>, ghost start: nat, max: nat)
    returns (responses': seq<Bytes>, n: nat, err: ReadError)
    requires Sized(responses) && 0 < max <= READ_BUFFER_SIZE
    requires start <= r.pos && Concat(responses) == Slice(r.content, start, r.pos)
    modifies r
    ensures Sized(responses') && n <= max && r.pos == old(r.pos) + n
    ensures Concat(responses') == Slice(r.content, start, r.pos)
    ensures err.Eof? ==> |r.content| <= r.pos
    ensures err.NoError? ==> r.Measure() < old(r.Measure())
    ensures old(FaultFree(r.script)) ==> !err.Failed? && FaultFree(r.script)
  {
    var data;
    data, err := r.Read(max);
    n, responses' := |data|, responses;
    SliceAppend(r.content, start, old(r.pos), r.pos);
    if n > 0 {
      ConcatAppend(responses, data);
      SizedAppend(responses, data);
      responses' := responses + [data];
    }
  }

  /** The loop that answers a read, from where `r` stands: it stops at the limit, at the end or at a failure. */
  method SendUpTo(r: Reader, limit: nat) returns (responses: seq<Bytes>, totalSent: nat, ok: bool)
    modifies r
    ensures totalSent <= limit && Sized(responses)
    ensures Concat(responses) == Slice(r.content, old(r.pos), old(r.pos) + totalSent)
    ensures ok ==> totalSent == limit || |r.content| <= old(r.pos) + totalSent
    ensures old(FaultFree(r.script)) ==> ok
  {
    responses, totalSent := [], 0;
    while totalSent < limit
      invariant totalSent <= limit && r.pos == old(r.pos) + totalSent
      invariant Concat(responses) == Slice(r.content, old(r.pos), r.pos)
      invariant Sized(responses)
      invariant old(FaultFree(r.script)) ==> FaultFree(r.script)
      decreases r.Measure()
    {
      var toRead := READ_BUFFER_SIZE;
      if limit - totalSent < toRead { toRead := limit - totalSent; }
      var n, err;
      responses, n, err := SendOnce(r, responses, old(r.pos), toRead);
      totalSent := totalSent + n;
      if !err.NoError? { return responses, totalSent, err.Eof?; }
    }
    return responses, totalSent, true;
  }

  /** Moves to the offset, by seeking where the blob is a plain file and by reading otherwise. */
  method Position(r: Reader, offset: int, seekable: bool) returns (ok: bool)
    requires r.pos == 0
    modifies r
    ensures ok ==> r.pos == if offset > 0 then offset else 0
    ensures OutOfReach(r.content, offset, seekable) ==> !ok
    ensures old(FaultFree(r.script)) ==> FaultFree(r.script) && (ok <==> !OutOfReach(r.content, offset, seekable))
  {
    ok := true;
    if offset > 0 {
      if seekable {
        r.pos := offset;
      } else {
        ok := Skip(r, offset);
      }
    }
  }

  /** Whether moving to the offset fails: only where it is done by reading, past the end. */
  predicate OutOfReach(content: Bytes, offset: int, seekable: bool) {
    !seekable && offset > 0 && offset > |content|
  }

  datatype Status = Success | InvalidArgument | NotFound | Internal

  /** The blob as sent: as it is, or compressed. */
  function Wire(content: Bytes, compressed: bool, deflate: Bytes -> Bytes): Bytes {
    if compressed then deflate(content) else content
  }

  function Blob(store: map<Digest, Bytes>, name: string): Option<Bytes> {
    match Parse(name, false)
    case None => None
    case Some(p) => if p.digest in store then Some(store[p.digest]) else None
  }

  lemma SentIsRange(content: Bytes, offset: int, limit: int, sent: nat)
    requires sent <= if limit > 0 then limit else MAX_INT64
    ensures var from := if offset > 0 then offset else 0; var most := if limit > 0 then limit else MAX_INT64;
            && Slice(content, from, from + sent) <= Range(content, offset, limit)
            && (sent == most || |content| <= from + sent ==>
                  Slice(content, from, from + sent) == Range(content, offset, limit))
  {
    var from := if offset > 0 then offset else 0;
    SliceAppend(content, from, from + sent, from + if limit > 0 then limit else MAX_INT64);
  }

  /** The range of one blob, for a reader at its start. */
  method SendRange(r: Reader, offset: int, limit: int, seekable: bool) returns (responses: seq<Bytes>, ok: bool)
    requires r.pos == 0
    modifies r
    ensures Sized(responses) && Concat(responses) <= Range(r.content, offset, limit)
    ensures ok ==> Concat(responses) == Range(r.content, offset, limit)
    ensures OutOfReach(r.content, offset, seekable) ==> !ok
    ensures old(FaultFree(r.script)) ==> (ok <==> !OutOfReach(r.content, offset, seekable))
  {
    var positioned := Position(r, offset, seekable);
    if !positioned { return [], false; }
    var sent;
    responses, sent, ok := SendUpTo(r, if limit > 0 then limit else MAX_INT64);
    SentIsRange(r.content, offset, limit, sent);
  }

  /** A client that asks for `limit` bytes from `offset` on, or for all of them, is sent these bytes. It is refused,
      unless reading fails, exactly if it asks for an offset past the end that cannot be reached by seeking. */
  predicate Serves(wire: Bytes, offset: int, limit: int, seekable: bool, faultFree: bool, responses: seq<Bytes>,
                   ok: bool)
  {
    var from := if offset > 0 then offset else 0;
    var most := if limit > 0 then limit else 0x7FFF_FFFF_FFFF_FFFF;
    && (ok ==> Concat(responses) == if from >= |wire| then []
                                    else if most < |wire| - from then wire[from..from + most] else wire[from..])
    && (faultFree ==> (ok <==> from <= |wire| || seekable))
  }

  lemma RangeServes(wire: Bytes, offset: int, limit: int, seekable: bool, faultFree: bool, responses: seq<Bytes>,
                    ok: bool)
    requires ok ==> Concat(responses) == Range(wire, offset, limit)
    requires faultFree ==> (ok <==> !OutOfReach(wire, offset, seekable))
    ensures Serves(wire, offset, limit, seekable, faultFree, responses, ok)
  {
  }

  /** `Read`: a malformed name, a missing blob, a store that fails for another reason, or the requested range of what is
      sent for the blob. */
  method ServeRead(store: map<Digest, Bytes>, fails: bool, deflate: Bytes -> Bytes, files: bool,
                   name: string, offset: int, limit: int, script: seq<Attempt>)
    returns (responses: seq<Bytes>, status: Status)
    ensures status == InvalidArgument <==> Parse(name, false).None?
    ensures status == NotFound <==> Parse(name, false).Some? && !fails && Blob(store, name).None?
    ensures Parse(name, false).Some? && fails ==> status == Internal && responses == []
    ensures status in {InvalidArgument, NotFound} ==> responses == []
    ensures Sized(responses)
    ensures Blob(store, name).Some? && !fails ==>
      var compressed := Parse(name, false).value.compressed;
      var wire := Wire(Blob(store, name).value, compressed, deflate);
      && Concat(responses) <= Range(wire, offset, limit)
      && (status == Success ==> Concat(responses) == Range(wire, offset, limit))
      && (FaultFree(script) ==> (status == Success <==> !OutOfReach(wire, offset, files && !compressed)))
    ensures Blob(store, name).Some? && !fails ==>
      var p := Parse(name, false).value;
      Serves(if p.compressed then deflate(store[p.digest]) else store[p.digest], offset, limit, files && !p.compressed,
             FaultFree(script), responses, status == Success)
  {
    responses := [];
    var parsed := Parse(name, false);
    if parsed.None? { return [], InvalidArgument; }
    if fails { return [], Internal; }
    if parsed.value.digest !in store { return [], NotFound; }
    var compressed := parsed.value.compressed;
    var wire := Wire(store[parsed.value.digest], compressed, deflate);
    var r := new Reader(wire, script);
    var ok;
    responses, ok := SendRange(r, offset, limit, files && !compressed);
    status := if ok then Success else Internal;
    assert Serves(wire, offset, limit, files && !compressed, FaultFree(script), responses, ok) by {
      RangeServes(wire, offset, limit, files && !compressed, FaultFree(script), responses, ok);
    }
  }

  lemma WholeRange(content: Bytes)
    requires |content| <= MAX_INT64
    ensures Range(content, 0, 0) == content
  {
  }

  /** `RemoteStore.Get` against such a server: asking for a digest by its printed name delivers
      the stored blob, compressed on the way or not, exactly when it is stored. */
  method Fetch(store: map<Digest, Bytes>, fails: bool, deflate: Bytes -> Bytes, inflate: Bytes -> Option<Bytes>,
               files: bool, instanceName: string, k: Kind, d: Digest, script: seq<Attempt>)
    returns (blob: Option<Bytes>)
    requires HexString(d.hash) && d.size < INT64_LIMIT
    requires d in store ==> inflate(deflate(store[d])) == Some(store[d])
    requires d in store ==> |store[d]| <= MAX_INT64 && |deflate(store[d])| <= MAX_INT64
    ensures blob.Some? ==> d in store && blob.value == store[d]
    ensures FaultFree(script) && d.size >= 0 && d in store && !fails ==> blob.Some?
  {
    NameRoundTrip(instanceName, "u", k, d);
    var responses, status := ServeRead(store, fails, deflate, files, ReadName(instanceName, k, d), 0, 0, script);
    if status != Success { return None; }
    var wire := Concat(responses);
    WholeRange(Wire(store[d], k == Zstd, deflate));
    return if k == Zstd then inflate(wire) else Some(wire);
  }
}
