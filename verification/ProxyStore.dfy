/**
 `ProxyStore`: a local store in front of an authoritative remote store.

 One call of the proxy is one step, and the remote keeps what it accepts. The
 local store addresses blobs by hash alone; the declared size is only compared
 with the number of bytes written.
 */
module ProxyStore {
  import opened Wrappers
  import opened Content

  /** `orphans`: hashes for which a local commit was not followed by a successful remote upload. */
  datatype Tiers = Tiers(local: map<string, Bytes>, remote: map<string, Bytes>, orphans: set<string>)

  /** The three outcomes of a write-through. `committed`: the local blob is published (the call may
      still fail after that). `accepted`: the remote reported success. `arrived`: the remote has the
      blob now, which an unsuccessful upload does not rule out. */
  datatype Outcome = Outcome(committed: bool, accepted: bool, arrived: bool)

  /** What one call, or one event around the proxy, turned out to do. */
  datatype Event =
    | PutSkipped(digest: Digest)
    | PutThrough(digest: Digest, data: Bytes, out: Outcome)
    | PutFileThrough(digest: Digest, data: Bytes, found: bool, out: Outcome)
    | Fetched(digest: Digest)
    | NoChange
    | Evicted(gone: set<string>)
    | RemoteUpload(hash: string, data: Bytes)

  predicate Possible(s: Tiers, e: Event) {
    match e
    case PutSkipped(d) => d.hash in s.local
    // The remote sees the end of the data only once the local store has succeeded.
    case PutThrough(d, data, out) =>
      (out.committed ==> |data| == d.size) && (out.accepted ==> out.arrived) && (out.arrived ==> out.committed)
    case PutFileThrough(d, data, found, out) => (found ==> d.hash in s.local) && (out.accepted ==> out.arrived)
    case Fetched(d) => d.hash in s.remote && |s.remote[d.hash]| == d.size
    case NoChange => true
    case Evicted(_) => true
    case RemoteUpload(_, _) => true
  }

  function Wrote(s: Tiers, h: string, data: Bytes, keepLocal: bool, out: Outcome): Tiers {
    Tiers(
      if out.committed && !keepLocal then s.local[h := data] else s.local,
      if out.arrived then s.remote[h := data] else s.remote,
      if out.committed && !out.accepted then s.orphans + {h} else s.orphans)
  }

  function After(s: Tiers, e: Event): Tiers
    requires Possible(s, e)
  {
    match e
    case PutSkipped(_) => s
    case PutThrough(d, data, out) => Wrote(s, d.hash, data, false, out)
    case PutFileThrough(d, data, found, out) => Wrote(s, d.hash, data, found, out)
    case Fetched(d) => s.(local := s.local[d.hash := s.remote[d.hash]])
    case NoChange => s
    case Evicted(gone) => s.(local := s.local - gone)
    case RemoteUpload(h, data) => s.(remote := s.remote[h := data])
  }

  // The answers of a healthy proxy (no I/O or network error).

  function HasAnswer(s: Tiers, d: Digest): bool {
    d.hash in s.local || d.hash in s.remote
  }

  function GetAnswer(s: Tiers, d: Digest): Option<Bytes> {
    if d.hash in s.local then Some(s.local[d.hash])
    else if d.hash in s.remote && |s.remote[d.hash]| == d.size then Some(s.remote[d.hash])
    else None
  }

  class Proxy {
    // False if a disk or network operation may fail.
    const healthy: bool
    const putRetryCount: int
    var local: map<string, Bytes>
    var remote: map<string, Bytes>
    ghost var orphans: set<string>

    constructor (putRetryCount: int, healthy: bool)
      ensures this.putRetryCount >= 1 && this.healthy == healthy
      ensures State() == Tiers(map[], map[], {})
    {
      this.putRetryCount, this.healthy := if putRetryCount < 1 then 1 else putRetryCount, healthy;
      local, remote, orphans := map[], map[], {};
    }

    ghost function State(): Tiers
      reads this
    {
      Tiers(local, remote, orphans)
    }

    method Fails() returns (fails: bool)
      ensures healthy ==> !fails
    {
      fails := *;
      fails := fails && !healthy;
    }

    /** `found` is false if the blob is absent, and possibly also when stat fails. */
    method LocalHas(h: string) returns (found: bool, failed: bool)
      ensures found ==> h in local
      ensures !failed ==> found == (h in local)
      ensures healthy ==> !failed
    {
      failed := Fails();
      found := !failed && h in local;
    }

    method LocalPut(d: Digest, data: Bytes) returns (ok: bool, committed: bool)
      modifies this`local
      ensures local == if committed then old(local)[d.hash := data] else old(local)
      ensures ok ==> committed
      ensures committed ==> |data| == d.size
      ensures healthy && |data| == d.size ==> ok
    {
      var fails := Fails();
      committed := !fails && |data| == d.size;
      if committed {
        local := local[d.hash := data];
      }
      fails := Fails();
      ok := committed && !fails;
    }

    method RemotePut(h: string, data: Bytes) returns (ok: bool, ghost arrived: bool)
      modifies this`remote
      ensures remote == if arrived then old(remote)[h := data] else old(remote)
      ensures ok ==> arrived
      ensures healthy ==> ok
    {
      var fails := Fails();
      if !fails {
        remote := remote[h := data];
      }
      arrived := !fails;
      var lost := Fails();
      ok := !fails && !lost;
    }

    method Has(d: Digest) returns (r: Result<bool, ()>)
      ensures r.Ok? ==> r.value == HasAnswer(State(), d) == (d.hash in local || d.hash in remote)
      ensures healthy ==> r.Ok?
    {
      var found, failed := LocalHas(d.hash);
      if failed {
        return Err(());
      }
      if found {
        return Ok(true);
      }
      var remoteFailed := Fails();
      if remoteFailed {
        return Err(());
      }
      return Ok(d.hash in remote);
    }

    method Get(d: Digest) returns (r: Option<Bytes>, ghost e: Event)
      modifies this`local
      ensures e == NoChange || e == Fetched(d)
      ensures Possible(old(State()), e) && State() == After(old(State()), e)
      ensures r.Some? ==> d.hash in local && r == Some(local[d.hash]) && (d.hash in old(local) || e == Fetched(d))
      ensures healthy ==> r == GetAnswer(old(State()), d)
    {
      e := NoChange;
      var found, _ := LocalHas(d.hash);
      if found {
        return Some(local[d.hash]), NoChange;
      }
      var remoteFailed := Fails();
      if remoteFailed || d.hash !in remote {
        return None, NoChange;
      }
      var ok, committed := LocalPut(d, remote[d.hash]);
      e := if committed then Fetched(d) else NoChange;
      r := if ok then Some(local[d.hash]) else None;
    }

    method Put(d: Digest, data: Bytes) returns (ok: bool, ghost e: Event)
      modifies this
      ensures e == PutSkipped(d) || (e.PutThrough? && e.digest == d && e.data == data)
      ensures Possible(old(State()), e) && State() == After(old(State()), e)
      ensures ok ==> e.PutSkipped? || (e.out.committed && e.out.accepted)
      ensures ok ==> d.hash in local
      ensures ok && !e.PutSkipped? ==> local[d.hash] == data && d.hash in remote && remote[d.hash] == data
      ensures e.PutSkipped? ==> local == old(local) && remote == old(remote)
      ensures healthy ==>
                (ok <==> d.hash in old(local) || |data| == d.size) && (e.PutSkipped? <==> d.hash in old(local))
    {
      var found, _ := LocalHas(d.hash);
      if found {
        return true, PutSkipped(d);
      }
      ok, e := PutImpl(d, data);
    }

    /** Tees the data to both tiers and waits for both. If the local half fails, the pipe to the remote is closed with
        that error instead of at the end of the data, so the remote does not take it. */
    method PutImpl(d: Digest, data: Bytes) returns (ok: bool, ghost e: Event)
      modifies this
      ensures e.PutThrough? && e.digest == d && e.data == data
      ensures Possible(old(State()), e) && State() == After(old(State()), e)
      ensures ok ==> e.out.committed && e.out.accepted
      ensures healthy ==> (ok <==> |data| == d.size)
    {
      var localOk, committed := LocalPut(d, data);
      var remoteOk := false;
      ghost var arrived := false;
      if localOk {
        remoteOk, arrived := RemotePut(d.hash, data);
      }
      e := PutThrough(d, data, Outcome(committed, remoteOk, arrived));
      if committed && !remoteOk {
        orphans := orphans + {d.hash};
      }
      ok := localOk && remoteOk;
    }

    /** PutFile: the local step succeeds at once if the blob exists; the upload is tried up to
        `putRetryCount` times and given up early if the source vanishes or the context is cancelled. */
    method PutFile(d: Digest, data: Bytes) returns (ok: bool, ghost e: Event, ghost tries: nat, ghost gaveUp: bool)
      requires putRetryCount >= 1
      modifies this
      ensures e == NoChange || (e.PutFileThrough? && e.digest == d && e.data == data && e.out.committed)
      ensures Possible(old(State()), e) && State() == After(old(State()), e)
      ensures ok ==> e.PutFileThrough? && e.out.accepted
      ensures ok ==> d.hash in local && d.hash in remote && remote[d.hash] == data
      ensures e.PutFileThrough? && d.hash !in old(local) ==> d.hash in local && local[d.hash] == data
      ensures tries <= putRetryCount && (!ok && !gaveUp ==> tries == putRetryCount)
      ensures healthy ==> ok && (e.found <==> d.hash in old(local))
    {
      tries, gaveUp := 0, false;
      var found, _ := LocalHas(d.hash);
      if !found {
        var failed := Fails();
        if failed {
          return false, NoChange, 0, true;
        }
        local := local[d.hash := data];
      }
      ghost var arrived := false;
      var attempt := 1;
      while attempt <= putRetryCount
        invariant local == old(if found then local else local[d.hash := data])
        invariant remote == if arrived then old(remote)[d.hash := data] else old(remote)
        invariant orphans == old(orphans)
        invariant healthy ==> attempt == 1
        invariant !gaveUp && tries == attempt - 1 <= putRetryCount
      {
        var unreadable := Fails();
        if unreadable {
          gaveUp := true;
          break;
        }
        var accepted;
        ghost var now;
        accepted, now := RemotePut(d.hash, data);
        tries, arrived := tries + 1, arrived || now;
        if accepted {
          return true, PutFileThrough(d, data, found, Outcome(true, true, true)), tries, false;
        }
        var cancelled := Fails();
        if cancelled {
          gaveUp := true;
          break;
        }
        attempt := attempt + 1;
      }
      orphans := orphans + {d.hash};
      return false, PutFileThrough(d, data, found, Outcome(true, false, arrived)), tries, gaveUp;
    }
  }

  // Runs.

  ghost predicate IsRun(states: seq<Tiers>, events: seq<Event>) {
    && |states| == |events| + 1
    && states[0] == Tiers(map[], map[], {})
    && forall i :: 0 <= i < |events| ==> IsStep(states[i], events[i], states[i + 1])
  }

  predicate IsStep(s: Tiers, e: Event, s': Tiers) {
    Possible(s, e) && s' == After(s, e)
  }

  /** Every upload in the run supplies the bytes its hash stands for. */
  ghost predicate Genuine(events: seq<Event>, content: string -> Bytes) {
    forall i :: 0 <= i < |events| ==> GenuineEvent(events[i], content)
  }

  predicate GenuineEvent(e: Event, content: string -> Bytes) {
    match e
    case PutThrough(d, data, _) => data == content(d.hash)
    case PutFileThrough(d, data, _, _) => data == content(d.hash)
    case RemoteUpload(h, data) => data == content(h)
    case _ => true
  }

  /** Local blobs are in the remote, or are orphans. */
  predicate Contained(s: Tiers) {
    s.local.Keys <= s.remote.Keys + s.orphans
  }

  ghost predicate Contents(s: Tiers, content: string -> Bytes) {
    && (forall h :: h in s.local ==> s.local[h] == content(h))
    && (forall h :: h in s.remote ==> s.remote[h] == content(h))
  }

  /** In every run, whatever fails and whatever is evicted, the local keys are among the remote
      keys and the hashes whose remote upload failed after the local commit. */
  lemma {:induction false} LocalContained(states: seq<Tiers>, events: seq<Event>, i: nat)
    requires IsRun(states, events) && i < |states|
    ensures Contained(states[i])
  {
    if i > 0 {
      LocalContained(states, events, i - 1);
      assert IsStep(states[i - 1], events[i - 1], states[i]);
    }
  }

  lemma {:induction false} ContentsKept(states: seq<Tiers>, events: seq<Event>, content: string -> Bytes, i: nat)
    requires IsRun(states, events) && Genuine(events, content) && i < |states|
    ensures Contents(states[i], content)
  {
    if i > 0 {
      ContentsKept(states, events, content, i - 1);
      assert IsStep(states[i - 1], events[i - 1], states[i]) && GenuineEvent(events[i - 1], content);
    }
  }

  /** A write whose local commit was not followed by a successful upload. */
  predicate Orphaning(e: Event) {
    (e.PutThrough? || e.PutFileThrough?) && e.out.committed && !e.out.accepted
  }

  lemma OrphanHistory(states: seq<Tiers>, events: seq<Event>, i: nat)
    requires IsRun(states, events) && i < |states|
    ensures states[i].orphans == {} <==> forall j :: 0 <= j < i ==> !Orphaning(events[j])
  {
    forall j | 0 <= j < i && Orphaning(events[j]) ensures events[j].digest.hash in states[i].orphans {
      OrphanFrom(states, events, i, events[j].digest.hash);
    }
    forall h | h in states[i].orphans ensures exists j :: 0 <= j < i && Orphaning(events[j]) {
      OrphanFrom(states, events, i, h);
    }
  }

  /** Refinement: in runs without such failures the two-tier store answers as the remote alone
      would, for every digest whose size is right; so evicting any local blobs at any
      time changes no answer. */
  lemma TwoTierRefinesRemote(states: seq<Tiers>, events: seq<Event>, content: string -> Bytes, i: nat, d: Digest,
                             gone: set<string>)
    requires IsRun(states, events) && Genuine(events, content) && i < |states|
    requires forall j :: 0 <= j < i ==> !Orphaning(events[j])
    requires d.size == |content(d.hash)|
    ensures var s := states[i]; var evicted := After(s, Evicted(gone));
            && HasAnswer(s, d) == (d.hash in s.remote) == HasAnswer(evicted, d)
            && GetAnswer(s, d) == (if d.hash in s.remote then Some(s.remote[d.hash]) else None)
            && GetAnswer(evicted, d) == GetAnswer(s, d)
  {
    LocalContained(states, events, i);
    ContentsKept(states, events, content, i);
    OrphanHistory(states, events, i);
  }

  /** An event that brings a hash to the remote. */
  predicate Carries(e: Event, h: string) {
    match e
    case PutThrough(d, _, out) => d.hash == h && out.arrived
    case PutFileThrough(d, _, _, out) => d.hash == h && out.arrived
    case RemoteUpload(g, _) => g == h
    case _ => false
  }

  /** What the remote has is what was carried there. */
  lemma {:induction false} RemoteHistory(states: seq<Tiers>, events: seq<Event>, i: nat, h: string)
    requires IsRun(states, events) && i < |states|
    ensures h in states[i].remote <==> exists j :: 0 <= j < i && Carries(events[j], h)
  {
    if i > 0 {
      RemoteHistory(states, events, i - 1, h);
      assert IsStep(states[i - 1], events[i - 1], states[i]);
      if Carries(events[i - 1], h) { assert h in states[i].remote; }
    }
  }

  /** Evicting a blob changes nothing for a digest if and only if the digest states the right size and some event of the
      run had carried the hash to the remote; for Has the size does not matter. */
  lemma EvictionInvisibleExactly(states: seq<Tiers>, events: seq<Event>, content: string -> Bytes, i: nat, d: Digest)
    requires IsRun(states, events) && Genuine(events, content) && i < |states| && d.hash in states[i].local
    ensures var s, evicted := states[i], After(states[i], Evicted({d.hash}));
            && (GetAnswer(evicted, d) == GetAnswer(s, d)
                <==> d.size == |content(d.hash)| && exists j :: 0 <= j < i && Carries(events[j], d.hash))
            && (HasAnswer(evicted, d) == HasAnswer(s, d) <==> exists j :: 0 <= j < i && Carries(events[j], d.hash))
  {
    ContentsKept(states, events, content, i);
    RemoteHistory(states, events, i, d.hash);
  }

  /** A call of Put or PutFile that reports success. */
  predicate Reports(e: Event, d: Digest) {
    match e
    case PutSkipped(x) => x == d
    case PutThrough(x, _, out) => x == d && out.committed && out.accepted
    case PutFileThrough(x, _, _, out) => x == d && out.accepted
    case _ => false
  }

  /** After a write that reported success, the remote lacks the blob if and only if the write was skipped and no earlier
      event of the run had carried that hash there. The blob is then an orphan of an earlier upload. */
  lemma PutSuccessMeansRemote(states: seq<Tiers>, events: seq<Event>, i: nat, d: Digest)
    requires IsRun(states, events) && i < |events| && Reports(events[i], d)
    ensures d.hash !in states[i + 1].remote
            <==> events[i].PutSkipped? && forall j :: 0 <= j < i ==> !Carries(events[j], d.hash)
    ensures d.hash !in states[i + 1].remote ==>
              && d.hash in states[i].orphans
              && exists j :: 0 <= j < i && Orphaning(events[j]) && events[j].digest.hash == d.hash
  {
    assert IsStep(states[i], events[i], states[i + 1]);
    RemoteHistory(states, events, i, d.hash);
    LocalContained(states, events, i);
    OrphanFrom(states, events, i, d.hash);
  }

  /** Each orphan has an upload that left it. */
  lemma {:induction false} OrphanFrom(states: seq<Tiers>, events: seq<Event>, i: nat, h: string)
    requires IsRun(states, events) && i < |states|
    ensures h in states[i].orphans <==> exists j :: 0 <= j < i && Orphaning(events[j]) && events[j].digest.hash == h
  {
    if i > 0 {
      OrphanFrom(states, events, i - 1, h);
      assert IsStep(states[i - 1], events[i - 1], states[i]);
      if Orphaning(events[i - 1]) && events[i - 1].digest.hash == h { assert h in states[i].orphans; }
    }
  }

  ghost predicate CarriedBefore(events: seq<Event>, i: nat, h: string)
    requires i <= |events|
  {
    exists j :: 0 <= j < i && Carries(events[j], h)
  }

  ghost predicate ReportedBefore(events: seq<Event>, i: nat, d: Digest)
    requires i <= |events|
  {
    exists j :: 0 <= j < i && Reports(events[j], d)
  }

  /** Digests whose uploads were all reported to have succeeded, such as those an action cache entry names, are all in
      the remote if and only if each was carried there by some event of the run. One that is not there was only ever
      reported by skipped writes, after an upload that left it as an orphan. */
  lemma AllInRemoteExactly(states: seq<Tiers>, events: seq<Event>, i: nat, ds: set<Digest>)
    requires IsRun(states, events) && i <= |events| && forall d :: d in ds ==> ReportedBefore(events, i, d)
    ensures (forall d :: d in ds ==> d.hash in states[i].remote)
            <==> forall d :: d in ds ==> CarriedBefore(events, i, d.hash)
    ensures forall d :: d in ds && d.hash !in states[i].remote ==>
              && (forall j :: 0 <= j < i && Reports(events[j], d) ==> events[j].PutSkipped?)
              && exists j :: 0 <= j < i && Orphaning(events[j]) && events[j].digest.hash == d.hash
  {
    forall d | d in ds
      ensures d.hash in states[i].remote <==> CarriedBefore(events, i, d.hash)
      ensures d.hash !in states[i].remote ==>
                && (forall j :: 0 <= j < i && Reports(events[j], d) ==> events[j].PutSkipped?)
                && exists j :: 0 <= j < i && Orphaning(events[j]) && events[j].digest.hash == d.hash
    {
      RemoteHistory(states, events, i, d.hash);
      if d.hash !in states[i].remote {
        ReportedMissing(states, events, i, d);
      }
    }
  }

  lemma ReportedMissing(states: seq<Tiers>, events: seq<Event>, i: nat, d: Digest)
    requires IsRun(states, events) && i <= |events| && ReportedBefore(events, i, d) && !CarriedBefore(events, i, d.hash)
    ensures forall j :: 0 <= j < i && Reports(events[j], d) ==> events[j].PutSkipped?
    ensures exists j :: 0 <= j < i && Orphaning(events[j]) && events[j].digest.hash == d.hash
  {
    var k :| 0 <= k < i && Reports(events[k], d);
    assert d.hash !in states[k + 1].remote by { RemoteHistory(states, events, k + 1, d.hash); }
    PutSuccessMeansRemote(states, events, k, d);
    forall j | 0 <= j < i && Reports(events[j], d) ensures events[j].PutSkipped? {
      assert IsStep(states[j], events[j], states[j + 1]);
      assert !Carries(events[j], d.hash);
    }
  }

  /** The exception is real: after an upload that fails past the local commit, a second Put
      of the same blob is skipped and succeeds, and the remote still lacks it. */
  lemma OrphanPutReportsSuccess(d: Digest, data: Bytes)
    requires |data| == d.size
    ensures exists states: seq<Tiers>, events: seq<Event> :: IsRun(states, events) && |events| == 2
              && events[1] == PutSkipped(d) && d.hash !in states[2].remote
              && After(states[2], Evicted({d.hash})).local == map[]
  {
    var s0 := Tiers(map[], map[], {});
    var e0 := PutThrough(d, data, Outcome(true, false, false));
    var s1 := After(s0, e0);
    var states, events := [s0, s1, s1], [e0, PutSkipped(d)];
    assert IsStep(s0, e0, s1) && IsStep(s1, PutSkipped(d), s1);
    assert IsRun(states, events);
  }

  /** A digest that overstates its size by one is answered until the blob is evicted. */
  lemma WrongSizeSeesEviction(h: string, data: Bytes)
    ensures var d := Digest(h, |data| + 1);
      exists states: seq<Tiers>, events: seq<Event> :: IsRun(states, events) && |events| == 1
        && GetAnswer(states[1], d) == Some(data) && GetAnswer(After(states[1], Evicted({h})), d) == None
  {
    var s0 := Tiers(map[], map[], {});
    var e0 := PutThrough(Digest(h, |data|), data, Outcome(true, true, true));
    var states, events := [s0, After(s0, e0)], [e0];
    assert IsStep(s0, e0, states[1]);
    assert IsRun(states, events);
  }

  /** So is one with the right size, if the upload failed after its local commit. */
  lemma OrphanSeesEviction(d: Digest, data: Bytes)
    requires |data| == d.size
    ensures exists states: seq<Tiers>, events: seq<Event> :: IsRun(states, events) && |events| == 1
              && GetAnswer(states[1], d) == Some(data) && GetAnswer(After(states[1], Evicted({d.hash})), d) == None
  {
    var s0 := Tiers(map[], map[], {});
    var e0 := PutThrough(d, data, Outcome(true, false, false));
    var states, events := [s0, After(s0, e0)], [e0];
    assert IsStep(s0, e0, states[1]);
    assert IsRun(states, events);
  }
}
