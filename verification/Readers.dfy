/**
 Go's `io.Reader`: a source of bytes whose reads may be short, may deliver the end
 of the data together with its last bytes, and may fail.
 */
module Readers {
  import opened Content

  datatype ReadError = NoError | Eof | Failed

  /** What one read does: it delivers at most `most` bytes, and then ends or fails early or not. */
  datatype Attempt = Short(most: nat, endsWithData: bool) | Fault(most: nat)

  predicate FaultFree(script: seq<Attempt>) {
    forall i :: 0 <= i < |script| ==> script[i].Short?
  }

  /** `content[from..to]`, where both may lie past the end. */
  function Slice(content: Bytes, from: nat, to: nat): Bytes
    requires from <= to
  {
    if |content| <= from then [] else if |content| <= to then content[from..] else content[from..to]
  }

  lemma SliceAppend(content: Bytes, from: nat, mid: nat, to: nat)
    requires from <= mid <= to
    ensures Slice(content, from, mid) + Slice(content, mid, to) == Slice(content, from, to)
    ensures Slice(content, from, mid) <= Slice(content, from, to)
  {
  }

  /** Reads follow `script`; after that every read delivers as much as it can. */
  class Reader {
    const content: Bytes
    var pos: nat
    var script: seq<Attempt>

    constructor (content: Bytes, script: seq<Attempt>)
      ensures this.content == content && this.script == script && pos == 0
    {
      this.content, this.script, pos := content, script, 0;
    }

    /** Bounds the number of reads that can still succeed. */
    ghost function Measure(): nat
      reads this
    {
      (if pos < |content| then |content| - pos else 0) + |script|
    }

    /** The position moves over exactly the bytes delivered, and only the end is reported as such. */
    method Read(max: nat) returns (data: Bytes, err: ReadError)
      modifies this
      ensures pos == old(pos) + |data| && |data| <= max
      ensures |data| > 0 ==> pos <= |content|
      ensures data == Slice(content, old(pos), pos)
      ensures err.Eof? ==> |content| <= pos
      ensures err.NoError? && max > 0 ==> Measure() < old(Measure())
      ensures old(FaultFree(script)) ==> !err.Failed? && FaultFree(script)
    {
      var left: nat := if pos < |content| then |content| - pos else 0;
      var n := if max < left then max else left;
      err := NoError;
      if script == [] {
        if left == 0 { err := Eof; }
      } else {
        if script[0].most < n { n := script[0].most; }
        match script[0] {
          case Short(_, endsWithData) =>
            if endsWithData && n == left { err := Eof; }
          case Fault(_) =>
            err := Failed;
        }
        script := script[1..];
      }
      data := Slice(content, pos, pos + n);
      pos := pos + n;
    }
  }

  /** The bytes of a sequence of messages. */
  function Concat(parts: seq<Bytes>): Bytes {
    if parts == [] then [] else Concat(parts[..|parts| - 1]) + parts[|parts| - 1]
  }

  lemma ConcatAppend(parts: seq<Bytes>, part: Bytes)
    ensures Concat(parts + [part]) == Concat(parts) + part
  {
    assert (parts + [part])[..|parts|] == parts;
  }
}
