/**
 The action cache of `ProxyStore`: read-through fetches and write-through updates
 of concurrent callers, interleaved at the granularity of single store calls.
 */
module ActionCacheHistory {

  type Key = string
  type Value = int

  /** A caller between its remote call and its local write. Fetching: `GetActionResult` holds the
      value the remote returned. Updating: the remote accepted the caller's own value. */
  datatype Caller = Free | Fetching(key: Key, value: Value) | Updating(key: Key, value: Value)

  datatype State = State(
    local: map<Key, Value>,
    remote: map<Key, Value>,
    callers: map<nat, Caller>,
    returned: seq<(Key, Value)>)

  datatype Action =
    | LocalHit(c: nat, key: Key)
    | RemoteFetch(c: nat, key: Key)
    | FetchDone(c: nat, cached: bool)
    | RemoteUpdate(c: nat, key: Key, value: Value)
    | UpdateDone(c: nat, cached: bool)
    | LostUpdate(c: nat, key: Key, value: Value)
    | OtherUpdate(key: Key, value: Value)
    | RemoteDrop(key: Key)
    | LocalDrop(key: Key)

  predicate Idle(s: State, c: nat) {
    c !in s.callers || s.callers[c].Free?
  }

  predicate Enabled(s: State, a: Action) {
    match a
    case LocalHit(c, k) => Idle(s, c) && k in s.local
    case RemoteFetch(c, k) => Idle(s, c) && k in s.remote
    case FetchDone(c, _) => c in s.callers && s.callers[c].Fetching?
    case RemoteUpdate(c, _, _) => Idle(s, c)
    case UpdateDone(c, _) => c in s.callers && s.callers[c].Updating?
    case LostUpdate(c, _, _) => Idle(s, c)
    case OtherUpdate(_, _) => true
    case RemoteDrop(_) => true
    case LocalDrop(_) => true
  }

  function Apply(s: State, a: Action): State
    requires Enabled(s, a)
  {
    match a
    case LocalHit(_, k) => s.(returned := s.returned + [(k, s.local[k])])
    case RemoteFetch(c, k) => s.(callers := s.callers[c := Fetching(k, s.remote[k])])
    // The local write is best effort; the fetched value is returned either way.
    case FetchDone(c, cached) =>
      var k, v := s.callers[c].key, s.callers[c].value;
      s.(local := if cached then s.local[k := v] else s.local,
         callers := s.callers[c := Free],
         returned := s.returned + [(k, v)])
    case RemoteUpdate(c, k, v) => s.(remote := s.remote[k := v], callers := s.callers[c := Updating(k, v)])
    case UpdateDone(c, cached) =>
      var k, v := s.callers[c].key, s.callers[c].value;
      s.(local := if cached then s.local[k := v] else s.local, callers := s.callers[c := Free])
    // The update reaches the remote but the reply is an error: nothing is written locally.
    case LostUpdate(_, k, v) => s.(remote := s.remote[k := v])
    case OtherUpdate(k, v) => s.(remote := s.remote[k := v])
    case RemoteDrop(k) => s.(remote := s.remote - {k})
    case LocalDrop(k) => s.(local := s.local - {k})
  }

  ghost predicate IsRun(states: seq<State>, acts: seq<Action>) {
    && |states| == |acts| + 1
    && states[0].local == map[] && states[0].callers == map[] && states[0].returned == []
    && forall i :: 0 <= i < |acts| ==> IsStep(states[i], acts[i], states[i + 1])
  }

  predicate IsStep(s: State, a: Action, s': State) {
    Enabled(s, a) && s' == Apply(s, a)
  }

  /** The remote held this value for this key at or before step i. */
  ghost predicate HeldBy(states: seq<State>, i: nat, k: Key, v: Value)
    requires i < |states|
  {
    exists j :: 0 <= j <= i && k in states[j].remote && states[j].remote[k] == v
  }

  lemma HeldLater(states: seq<State>, i: nat, j: nat, k: Key, v: Value)
    requires i <= j < |states| && HeldBy(states, i, k, v)
    ensures HeldBy(states, j, k, v)
  {
  }

  ghost predicate AllHeld(states: seq<State>, i: nat)
    requires i < |states|
  {
    && (forall k :: k in states[i].local ==> HeldBy(states, i, k, states[i].local[k]))
    && (forall c :: c in states[i].callers && !states[i].callers[c].Free? ==>
          HeldBy(states, i, states[i].callers[c].key, states[i].callers[c].value))
    && (forall n :: 0 <= n < |states[i].returned| ==>
          HeldBy(states, i, states[i].returned[n].0, states[i].returned[n].1))
  }

  /** In every interleaving, with any failures and evictions on either side, each value in the local
      action cache and each value ever returned was held by the remote at some earlier moment. */
  lemma {:induction false} EveryValueWasRemote(states: seq<State>, acts: seq<Action>, i: nat)
    requires IsRun(states, acts) && i < |states|
    ensures AllHeld(states, i)
  {
    if i > 0 {
      EveryValueWasRemote(states, acts, i - 1);
      var s, a, s' := states[i - 1], acts[i - 1], states[i];
      assert IsStep(s, a, s');
      forall k, v | HeldBy(states, i - 1, k, v) ensures HeldBy(states, i, k, v) { HeldLater(states, i - 1, i, k, v); }
      if a.RemoteFetch? {
        assert HeldBy(states, i, a.key, s.remote[a.key]);
      }
      if a.RemoteUpdate? {
        assert a.key in s'.remote && s'.remote[a.key] == a.value;
        assert HeldBy(states, i, a.key, a.value);
      }
    }
  }

  /** Caller c fetched at step j, and has not finished by step i. */
  ghost predicate FetchedAt(states: seq<State>, acts: seq<Action>, j: nat, i: nat, c: nat, k: Key, v: Value) {
    && |states| == |acts| + 1 && j < i <= |acts|
    && acts[j] == RemoteFetch(c, k) && k in states[j].remote && states[j].remote[k] == v
    && forall m :: j < m < i ==> !Finishes(acts[m], c)
  }

  /** Caller c gave the remote a value at step j, and has not finished by step i. */
  ghost predicate UpdatedAt(states: seq<State>, acts: seq<Action>, j: nat, i: nat, c: nat, k: Key, v: Value) {
    && |states| == |acts| + 1 && j < i <= |acts|
    && acts[j] == RemoteUpdate(c, k, v) && k in states[j + 1].remote && states[j + 1].remote[k] == v
    && forall m :: j < m < i ==> !Finishes(acts[m], c)
  }

  predicate Finishes(a: Action, c: nat) {
    (a.FetchDone? || a.UpdateDone?) && a.c == c
  }

  /** What a caller holds between its two steps is what the remote gave it, or what it gave the remote. */
  lemma {:induction false} HoldsWhatItGot(states: seq<State>, acts: seq<Action>, i: nat, c: nat)
    requires IsRun(states, acts) && i < |states| && c in states[i].callers
    ensures match states[i].callers[c]
            case Free => true
            case Fetching(k, v) => exists j :: FetchedAt(states, acts, j, i, c, k, v)
            case Updating(k, v) => exists j :: UpdatedAt(states, acts, j, i, c, k, v)
  {
    assert i > 0;
    var s, a := states[i - 1], acts[i - 1];
    assert IsStep(s, a, states[i]);
    if states[i].callers[c].Free? {
    } else if c in s.callers && states[i].callers[c] == s.callers[c] && a != RemoteFetch(c, s.callers[c].key) {
      HoldsWhatItGot(states, acts, i - 1, c);
      match s.callers[c]
      case Fetching(k, v) =>
        var j :| FetchedAt(states, acts, j, i - 1, c, k, v);
        assert FetchedAt(states, acts, j, i, c, k, v);
      case Updating(k, v) =>
        var j :| UpdatedAt(states, acts, j, i - 1, c, k, v);
        assert UpdatedAt(states, acts, j, i, c, k, v);
    } else {
      match states[i].callers[c]
      case Fetching(k, v) => assert FetchedAt(states, acts, i - 1, i, c, k, v);
      case Updating(k, v) => assert UpdatedAt(states, acts, i - 1, i, c, k, v);
    }
  }

  /** In every run, a hit returns what the local cache has for its key, and a fetch returns, cached or not, what the
      remote had for its key when it was asked; nothing else returns a value. What a fetch or an update then writes to
      the local cache is that value, or the one the update was called with. */
  lemma ReturnsExactly(states: seq<State>, acts: seq<Action>, i: nat)
    requires IsRun(states, acts) && i < |acts|
    ensures var s, s' := states[i], states[i + 1];
            match acts[i]
            case LocalHit(_, k) => k in s.local && s'.returned == s.returned + [(k, s.local[k])] && s'.local == s.local
            case FetchDone(c, cached) =>
              exists j, k, v :: FetchedAt(states, acts, j, i, c, k, v) && s'.returned == s.returned + [(k, v)]
                                && s'.local == if cached then s.local[k := v] else s.local
            case UpdateDone(c, cached) =>
              && s'.returned == s.returned
              && exists j, k, v :: UpdatedAt(states, acts, j, i, c, k, v)
                                   && s'.local == if cached then s.local[k := v] else s.local
            case LocalDrop(k) => s'.returned == s.returned && s'.local == s.local - {k}
            case _ => s'.returned == s.returned && s'.local == s.local
  {
    var s, a := states[i], acts[i];
    assert IsStep(s, a, states[i + 1]);
    if a.FetchDone? {
      HoldsWhatItGot(states, acts, i, a.c);
      var k, v := s.callers[a.c].key, s.callers[a.c].value;
      var j :| FetchedAt(states, acts, j, i, a.c, k, v);
    } else if a.UpdateDone? {
      HoldsWhatItGot(states, acts, i, a.c);
      var k, v := s.callers[a.c].key, s.callers[a.c].value;
      var j :| UpdatedAt(states, acts, j, i, a.c, k, v);
    }
  }

  /** Earlier is all that can be said: without any failure or eviction, a fetch that overlaps another
      client's update leaves an outdated value in the local cache. */
  lemma LocalMayLagBehindRemote()
    ensures exists states: seq<State>, acts: seq<Action>, k ::
              && IsRun(states, acts)
              && k in states[|acts|].local && k in states[|acts|].remote
              && states[|acts|].local[k] != states[|acts|].remote[k]
  {
    var s0 := State(map[], map["k" := 1], map[], []);
    var a0, a1, a2 := RemoteFetch(0, "k"), OtherUpdate("k", 2), FetchDone(0, true);
    var s1 := Apply(s0, a0);
    var s2 := Apply(s1, a1);
    var s3 := Apply(s2, a2);
    var states, acts := [s0, s1, s2, s3], [a0, a1, a2];
    assert IsStep(s0, a0, s1) && IsStep(s1, a1, s2) && IsStep(s2, a2, s3);
    assert IsRun(states, acts);
    assert "k" in states[|acts|].local && "k" in states[|acts|].remote;
  }
}
