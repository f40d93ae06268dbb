/**
 Subscriber channels: every handler of a completed operation gets to see it,
 although sends are dropped when a buffer is full, and no channel is misused.
 */
module SchedulerWakeup {
  import opened Wrappers
  import opened SchedulerCore
  import opened SchedulerSystem
  import opened SchedulerConservation

  ghost predicate Distinct<T>(s: seq<T>) {
    forall i, j :: 0 <= i < j < |s| ==> s[i] != s[j]
  }

  predicate IsSub(c: Core<nat>, n: string, ch: nat) {
    ch in Subs(c, n)
  }

  /** A registered channel is open, belongs to a handler of that operation, and is registered once. */
  ghost predicate Registered(s: Sys) {
    && s.readers.Keys == s.core.chans.Keys
    && (forall n, ch :: IsSub(s.core, n, ch) ==>
          ch in s.core.chans && !s.core.chans[ch].closed && s.readers[ch].name == n && !s.readers[ch].pc.Left?)
    && (forall n :: n in s.core.subscribers ==> Distinct(s.core.subscribers[n]))
  }

  /** A channel carries only pointers to the record of the operation its handler watches. */
  ghost predicate Pointers(s: Sys) {
    && (forall ch :: ch in s.core.chans && ch in s.readers ==>
          && |s.core.chans[ch].buf| <= CHANNEL_CAPACITY
          && (s.core.chans[ch].buf != [] ==> Known(s, s.readers[ch].name))
          && forall i :: 0 <= i < |s.core.chans[ch].buf| ==> s.core.chans[ch].buf[i] == s.readers[ch].name)
    && (forall ch :: ch in s.readers && (s.readers[ch].pc.Received? || s.readers[ch].pc.Looked?) ==>
          s.readers[ch].pc.msg == s.readers[ch].name && Known(s, s.readers[ch].name))
  }

  /** The handler of `ch` is bound to test the record's state again. */
  predicate WillTest(s: Sys, ch: nat) {
    ch in s.readers && ch in s.core.chans
    && (s.core.chans[ch].buf != [] || s.readers[ch].pc.Received? || s.readers[ch].pc.Looked?)
  }

  /** No lost wake-up. */
  ghost predicate Awake(s: Sys) {
    forall n, ch :: n in s.core.operations && s.core.operations[n].state == Completed && IsSub(s.core, n, ch)
      ==> ch in s.readers && (s.readers[ch].pc.Observed? || WillTest(s, ch))
  }

  ghost predicate Wired(s: Sys) {
    Registered(s) && Pointers(s) && Awake(s)
  }

  /** Removing a registered channel removes it alone. */
  lemma {:induction false} WithoutElement(s: seq<nat>, x: nat, y: nat)
    requires Distinct(s)
    ensures y in Without(s, x) <==> y in s && y != x
  {
    if s == [] {
    } else {
      assert s == [s[0]] + s[1..];
      assert s[0] !in s[1..];
      if s[0] != x { WithoutElement(s[1..], x, y); }
    }
  }

  lemma {:induction false} WithoutDistinct(s: seq<nat>, x: nat)
    requires Distinct(s)
    ensures Distinct(Without(s, x))
  {
    if s != [] && s[0] != x {
      var r := Without(s[1..], x);
      WithoutDistinct(s[1..], x);
      assert s[0] !in s[1..];
      forall i | 0 <= i < |r| ensures r[i] != s[0] { WithoutElement(s[1..], x, r[i]); }
    }
  }

  /** What a stored record does to channels: subscribers of that name end up with a message. */
  lemma StoredChans(c: Core<nat>, r: Record, ch: nat)
    requires r.name in c.operations && ch in c.chans
    ensures var c' := Stored(c, r);
            && ch in c'.chans
            && c'.chans[ch] == (if IsSub(c, r.name, ch) then TrySend(c.chans[ch], r.name) else c.chans[ch])
            && (IsSub(c, r.name, ch) ==> c'.chans[ch].buf != [])
  {
  }

  lemma StoredWired(s: Sys, s': Sys, r: Record)
    requires Conserved(s) && Wired(s)
    requires r.name in s.core.operations && s'.core == Stored(s.core, r)
    requires s'.readers == s.readers && s'.detached == s.detached
    ensures Wired(s')
  {
    forall n, ch ensures IsSub(s'.core, n, ch) == IsSub(s.core, n, ch) {}
    forall n ensures Known(s', n) == Known(s, n) {}
    forall ch | ch in s.core.chans
      ensures ch in s'.core.chans
      ensures s'.core.chans[ch] == if IsSub(s.core, r.name, ch) then TrySend(s.core.chans[ch], r.name)
              else s.core.chans[ch]
      ensures IsSub(s.core, r.name, ch) ==> s'.core.chans[ch].buf != []
    {
      StoredChans(s.core, r, ch);
    }
    assert Registered(s');
    StoredPointers(s, s', r);
    forall n, ch | n in s'.core.operations && s'.core.operations[n].state == Completed && IsSub(s'.core, n, ch)
      ensures ch in s'.readers && (s'.readers[ch].pc.Observed? || WillTest(s', ch))
    {
      assert IsSub(s.core, n, ch);
      if n != r.name { assert WillTest(s, ch) || s.readers[ch].pc.Observed?; }
    }
  }

  lemma StoredPointers(s: Sys, s': Sys, r: Record)
    requires Registered(s) && Pointers(s) && r.name in s.core.operations
    requires s'.readers == s.readers && s'.detached == s.detached && s'.core.operations.Keys == s.core.operations.Keys
    requires s'.core.chans.Keys == s.core.chans.Keys
    requires forall ch :: ch in s.core.chans ==>
               s'.core.chans[ch] == if IsSub(s.core, r.name, ch) then TrySend(s.core.chans[ch], r.name)
                 else s.core.chans[ch]
    ensures Pointers(s')
  {
    forall n ensures Known(s', n) == Known(s, n) {}
  }

  /** The table may grow or shrink, and names leave the subscriber map, as long as
      nothing becomes completed and no pointer dangles. */
  lemma TableWired(s: Sys, s': Sys)
    requires Wired(s)
    requires s'.readers == s.readers && s'.core.chans == s.core.chans
    requires forall n :: n in s'.core.subscribers ==>
               n in s.core.subscribers && s'.core.subscribers[n] == s.core.subscribers[n]
    requires forall n :: Known(s, n) ==> Known(s', n)
    requires forall n :: n in s'.core.operations && s'.core.operations[n].state == Completed ==>
                           n in s.core.operations && s.core.operations[n].state == Completed
    ensures Wired(s')
  {
    forall n, ch | IsSub(s'.core, n, ch) ensures IsSub(s.core, n, ch) {}
    forall ch ensures WillTest(s', ch) == WillTest(s, ch) {}
  }

  lemma SubscribeRegistered(s: Sys, n: string, ch: nat)
    requires Keyed(s.core) && Registered(s) && Enabled(s, Subscribe(n, ch))
    ensures var s' := Apply(s, Subscribe(n, ch));
            Registered(s') && forall m, x :: IsSub(s'.core, m, x) ==> if x == ch then m == n else IsSub(s.core, m, x)
  {
    var s' := Apply(s, Subscribe(n, ch));
    var before := Subs(s.core, n);
    assert Subs(s'.core, n) == before + [ch];
    forall m, x | IsSub(s'.core, m, x) ensures if x == ch then m == n else IsSub(s.core, m, x) {
      if m != n { assert IsSub(s.core, m, x); }
    }
    forall k | 0 <= k < |before| ensures before[k] != ch { assert IsSub(s.core, n, before[k]); }
  }

  lemma SubscribeWired(s: Sys, n: string, ch: nat)
    requires Keyed(s.core) && Wired(s) && Enabled(s, Subscribe(n, ch))
    ensures Wired(Apply(s, Subscribe(n, ch)))
  {
    var s' := Apply(s, Subscribe(n, ch));
    SubscribeRegistered(s, n, ch);
    forall m ensures Known(s', m) == Known(s, m) {}
    forall x | x != ch ensures WillTest(s', x) == WillTest(s, x) {}
    assert Pointers(s');
    assert n in s.core.operations ==> WillTest(s', ch);
  }

  lemma UnsubscribeWired(s: Sys, ch: nat)
    requires Conserved(s) && Wired(s) && Enabled(s, Unsubscribe(ch))
    ensures Wired(Apply(s, Unsubscribe(ch)))
  {
    var s' := Apply(s, Unsubscribe(ch));
    var n := s.readers[ch].name;
    if IsSub(s.core, n, ch) {
      assert Distinct(Subs(s.core, n));
      WithoutDistinct(Subs(s.core, n), ch);
      forall x ensures IsSub(s'.core, n, x) <==> IsSub(s.core, n, x) && x != ch {
        WithoutElement(Subs(s.core, n), ch, x);
      }
    }
    forall m, x | IsSub(s'.core, m, x) ensures x != ch && IsSub(s.core, m, x) {
      if m != n { assert IsSub(s.core, m, x); }
    }
    forall m ensures Known(s', m) == Known(s, m) {}
    forall x | x != ch ensures WillTest(s', x) == WillTest(s, x) {}
  }

  lemma ReceiveWired(s: Sys, ch: nat)
    requires Wired(s) && Keyed(s.core) && Enabled(s, Receive(ch))
    ensures Wired(Apply(s, Receive(ch)))
  {
    var s' := Apply(s, Receive(ch));
    forall n, x ensures IsSub(s'.core, n, x) == IsSub(s.core, n, x) {}
    forall m ensures Known(s', m) == Known(s, m) {}
    forall x | x != ch ensures WillTest(s', x) == WillTest(s, x) {}
  }

  /** A handler moves on: it must not lose its claim on a completed operation. */
  lemma MovedWired(s: Sys, s': Sys, ch: nat, r: Reader)
    requires Wired(s) && ch in s.readers
    requires s' == s.(readers := s.readers[ch := r])
    requires r.name == s.readers[ch].name
    requires r.pc.AtReceive? || r.pc.Observed? || (r.pc.Looked? && Known(s, r.name) && r.pc.msg == r.name)
    requires r.pc.AtReceive? ==> !(r.name in s.core.operations && s.core.operations[r.name].state == Completed)
    ensures Wired(s')
  {
    forall n, x ensures IsSub(s'.core, n, x) == IsSub(s.core, n, x) {}
    forall m ensures Known(s', m) == Known(s, m) {}
    forall x | x != ch ensures WillTest(s', x) == WillTest(s, x) {}
  }

  lemma WiredStep(s: Sys, a: Action)
    requires Conserved(s) && Wired(s) && Enabled(s, a)
    ensures Wired(Apply(s, a))
  {
    var s' := Apply(s, a);
    match a
    case StartTask(w, now) =>
      var task := s.workers[w].task;
      if task.name in s.core.operations {
        StoredWired(s, s',
                    s.core.operations[task.name].(state := Executing, updatedAt := now,
                                                  metadata := Metadata(StageExecuting, task.actionDigest)));
      } else { TableWired(s, s'); }
    case FinishTask(w, outcome, now) => FinishedWired(s, s', s.workers[w].task.name, outcome, now);
    case CompleteCached(n, r, now) => FinishedWired(s, s', n, Ok(r), now);
    case Cancel(n, now) => StoredWired(s, s', CompletedRecord(s.core.operations[n], now).(error := Some(Canceled)));
    case Subscribe(n, ch) => SubscribeWired(s, n, ch);
    case Unsubscribe(ch) => UnsubscribeWired(s, ch);
    case Receive(ch) => ReceiveWired(s, ch);
    case Look(ch) => MovedWired(s, s', ch, s'.readers[ch]);
    case Test(ch) => MovedWired(s, s', ch, s'.readers[ch]);
    case _ => TableWired(s, s');
  }

  lemma FinishedWired(s: Sys, s': Sys, n: string, outcome: Result<Response, Error>, now: int)
    requires Conserved(s) && Wired(s)
    requires s'.core == Finished(s.core, n, outcome, now)
    requires s'.readers == s.readers && s'.detached == s.detached
    ensures Wired(s')
  {
    if n in s.core.operations {
      var r := CompletedRecord(s.core.operations[n], now);
      StoredWired(s, s', if outcome.Ok? then r.(result := Some(outcome.value)) else r.(error := Some(outcome.error)));
    } else {
      TableWired(s, s');
    }
  }

  lemma {:induction false} RunWired(states: seq<Sys>, acts: seq<Action>, i: nat)
    requires IsRun(states, acts) && i < |states|
    ensures Wired(states[i])
  {
    if i > 0 {
      RunWired(states, acts, i - 1);
      RunConserves(states, acts, i - 1);
      assert StepAt(states, acts, i - 1);
      WiredStep(states[i - 1], acts[i - 1]);
    }
  }

  /** In every run, while a tracked operation is Completed, each registered handler that has
      not observed it has a message waiting or is about to test; so it is never stuck at an
      empty channel. */
  lemma NoLostWakeup(states: seq<Sys>, acts: seq<Action>, i: nat, n: string, ch: nat)
    requires IsRun(states, acts) && i < |states|
    requires n in states[i].core.operations && states[i].core.operations[n].state == Completed
    requires ch in Subs(states[i].core, n)
    ensures var s := states[i];
            && ch in s.readers && ch in s.core.chans
            && (s.readers[ch].pc.Observed? || s.core.chans[ch].buf != []
                || s.readers[ch].pc.Received? || s.readers[ch].pc.Looked?)
            && (s.readers[ch].pc.AtReceive? ==> Enabled(s, Receive(ch)))
            && Keyed(s.core)
            && (s.readers[ch].pc.Looked? ==> Apply(s, Test(ch)).readers[ch].pc.Observed?)
  {
    assert IsSub(states[i].core, n, ch);
    RunWired(states, acts, i);
    RunConserves(states, acts, i);
  }

  lemma StoredClosed(s: Sys, r: Record, ch: nat)
    requires Wired(s) && r.name in s.core.operations && ch in s.core.chans && s.core.chans[ch].closed
    ensures ch in Stored(s.core, r).chans && Stored(s.core, r).chans[ch] == s.core.chans[ch]
  {
    assert !IsSub(s.core, r.name, ch);
    StoredChans(s.core, r, ch);
  }

  /** A closed channel is only ever drained. */
  lemma ClosedSteps(s: Sys, a: Action, ch: nat)
    requires Conserved(s) && Wired(s) && Enabled(s, a) && ch in s.core.chans && s.core.chans[ch].closed
    ensures var c, c' := s.core, Apply(s, a).core;
            && ch in c'.chans && c'.chans[ch].closed
            && (c'.chans[ch].buf == c.chans[ch].buf
                || (c.chans[ch].buf != [] && c'.chans[ch].buf == c.chans[ch].buf[1..]))
  {
    match a
    case StartTask(w, now) =>
      var t := s.workers[w].task;
      if t.name in s.core.operations {
        StoredClosed(s,
                     s.core.operations[t.name].(state := Executing, updatedAt := now,
                                                metadata := Metadata(StageExecuting, t.actionDigest)), ch);
      }
    case FinishTask(w, o, now) => FinishedClosed(s, s.workers[w].task.name, o, now, ch);
    case CompleteCached(n, r, now) => FinishedClosed(s, n, Ok(r), now, ch);
    case Cancel(n, now) => StoredClosed(s, CompletedRecord(s.core.operations[n], now).(error := Some(Canceled)), ch);
    case Unsubscribe(x) => assert !IsSub(s.core, s.readers[x].name, ch);
    case _ =>
  }

  lemma FinishedClosed(s: Sys, n: string, o: Result<Response, Error>, now: int, ch: nat)
    requires Wired(s) && Keyed(s.core) && ch in s.core.chans && s.core.chans[ch].closed
    ensures ch in Finished(s.core, n, o, now).chans && Finished(s.core, n, o, now).chans[ch] == s.core.chans[ch]
  {
    if n in s.core.operations {
      var r := CompletedRecord(s.core.operations[n], now);
      StoredClosed(s, if o.Ok? then r.(result := Some(o.value)) else r.(error := Some(o.error)), ch);
    }
  }

  /** In every run a registered channel is open (so a notification never sends on a closed
      channel, and `unsubscribe` never closes one twice), a closed channel is only drained,
      and a new subscription's immediate send finds an empty buffer. */
  lemma ChannelDiscipline(states: seq<Sys>, acts: seq<Action>, i: nat, ch: nat)
    requires IsRun(states, acts) && i < |acts|
    ensures var c, c' := states[i].core, states[i + 1].core;
            && (forall n :: ch in Subs(c, n) ==> ch in c.chans && !c.chans[ch].closed)
            && (ch in c.chans && c.chans[ch].closed ==>
                  && ch in c'.chans && c'.chans[ch].closed
                  && (c'.chans[ch].buf == c.chans[ch].buf
                      || (c.chans[ch].buf != [] && c'.chans[ch].buf == c.chans[ch].buf[1..])))
            && (ch !in c.chans && ch in c'.chans ==> acts[i].Subscribe? && |c'.chans[ch].buf| <= 1 < CHANNEL_CAPACITY)
            && (ch in c'.chans ==> |c'.chans[ch].buf| <= CHANNEL_CAPACITY)
  {
    RunWired(states, acts, i);
    RunWired(states, acts, i + 1);
    RunConserves(states, acts, i);
    var s, a := states[i], acts[i];
    assert StepAt(states, acts, i);
    assert forall n :: ch in Subs(s.core, n) ==> IsSub(s.core, n, ch);
    if ch in s.core.chans && s.core.chans[ch].closed {
      ClosedSteps(s, a, ch);
    }
    assert ch in states[i + 1].core.chans ==> ch in states[i + 1].readers;
  }
}
