/**
 Handlers that wait forever. A record that is deleted or expires is not announced to
 the channels subscribed to it, so a handler that has not observed its completion may
 be left at an empty channel that nobody sends on or closes.
 */
module SchedulerStall {
  import opened Wrappers
  import opened SchedulerCore
  import opened SchedulerSystem
  import opened SchedulerConservation
  import opened SchedulerDone
  import opened SchedulerLoad
  import opened SchedulerWakeup

  /** The operation is in the table, or about to be. */
  predicate Present(s: Sys, n: string) {
    n in s.core.operations || (s.sending.Some? && s.sending.value.name == n)
  }

  /** The channel is empty, and the handler's registration or its operation is gone. */
  predicate Stalled(s: Sys, ch: nat)
    requires ch in s.readers
  {
    && ch in s.core.chans && s.core.chans[ch].buf == []
    && !(IsSub(s.core, s.readers[ch].name, ch) && Present(s, s.readers[ch].name))
  }

  /** A handler of an accepted operation that waits at such a channel, or has left since. */
  ghost predicate Stranded(s: Sys, ch: nat) {
    && ch in s.readers && NamesIn(s.accepted, s.readers[ch].name)
    && (s.readers[ch].pc.Left? || (s.readers[ch].pc.AtReceive? && Stalled(s, ch)))
  }

  lemma AcceptedGrows(s: Sys, a: Action, n: string)
    requires Keyed(s.core) && Enabled(s, a) && NamesIn(s.accepted, n)
    ensures NamesIn(Apply(s, a).accepted, n)
  {
    if a.EnqueueSend? || a.EnqueueHandoff? { NamesInAppend(s.accepted, a.task, n); }
  }

  /** An accepted operation that is not in the table never returns to it. */
  lemma AbsentStays(s: Sys, a: Action, n: string)
    requires Records(s) && Enabled(s, a) && NamesIn(s.accepted, n) && !Present(s, n)
    ensures !Present(Apply(s, a), n)
  {
    if Stores(a) { TableSame(s, a); }
  }

  /** A stored record reaches its own subscribers only. */
  lemma StoredElsewhere(c: Core<nat>, r: Record, ch: nat)
    requires r.name in c.operations && ch in c.chans && !IsSub(c, r.name, ch)
    ensures ch in Stored(c, r).chans && Stored(c, r).chans[ch] == c.chans[ch]
    ensures Stored(c, r).subscribers == c.subscribers
  {
    StoredChans(c, r, ch);
  }

  /** The steps that notify leave a stalled channel alone. */
  lemma StoresElsewhere(s: Sys, a: Action, ch: nat)
    requires Wired(s) && Keyed(s.core) && Enabled(s, a) && Stores(a) && ch in s.readers && Stalled(s, ch)
    ensures var c := Apply(s, a).core; ch in c.chans && c.chans[ch].buf == [] && c.subscribers == s.core.subscribers
  {
    var n := match a
      case StartTask(w, _) => s.workers[w].task.name
      case FinishTask(w, _, _) => s.workers[w].task.name
      case CompleteCached(m, _, _) => m
      case Cancel(m, _) => m;
    if n in s.core.operations {
      assert !IsSub(s.core, n, ch);
      forall r: Record | r.name == n
        ensures ch in Stored(s.core, r).chans && Stored(s.core, r).chans[ch] == s.core.chans[ch]
                                             && Stored(s.core, r).subscribers == s.core.subscribers {
        StoredElsewhere(s.core, r, ch);
      }
    }
  }

  /** Nobody else registers or wakes this channel. */
  lemma RegistrationStays(s: Sys, a: Action, ch: nat)
    requires Wired(s) && Keyed(s.core) && Enabled(s, a) && ch in s.readers && !Stores(a)
    requires a != Unsubscribe(ch) && a != Receive(ch) && Stalled(s, ch)
    ensures var s' := Apply(s, a);
            && ch in s'.core.chans && s'.core.chans[ch].buf == []
            && (IsSub(s'.core, s.readers[ch].name, ch) ==> IsSub(s.core, s.readers[ch].name, ch))
  {
    var n := s.readers[ch].name;
    match a
    case Subscribe(m, x) => SubscribeRegistered(s, m, x);
    case Unsubscribe(x) =>
      if s.readers[x].name == n {
        assert n in s.core.subscribers ==> Distinct(Subs(s.core, n));
        WithoutElement(Subs(s.core, n), x, ch);
      }
    case _ =>
  }

  lemma StrandedStep(s: Sys, a: Action, ch: nat)
    requires Records(s) && Wired(s) && Enabled(s, a) && Stranded(s, ch)
    ensures Stranded(Apply(s, a), ch) && a != Receive(ch)
  {
    AcceptedGrows(s, a, s.readers[ch].name);
    if s.readers[ch].pc.AtReceive? && a != Unsubscribe(ch) {
      if Stores(a) {
        StoresElsewhere(s, a, ch);
      } else {
        RegistrationStays(s, a, ch);
      }
      if !Present(s, s.readers[ch].name) { AbsentStays(s, a, s.readers[ch].name); }
      ReaderStays(s, a, ch);
    }
  }

  lemma ReaderStays(s: Sys, a: Action, ch: nat)
    requires Keyed(s.core) && Enabled(s, a) && ch in s.readers && a != Unsubscribe(ch) && a != Receive(ch)
    requires s.readers[ch].pc.AtReceive?
    ensures ch in Apply(s, a).readers && Apply(s, a).readers[ch] == s.readers[ch]
  {
  }

  lemma {:induction false} StrandedForever(states: seq<Sys>, acts: seq<Action>, i: nat, j: nat, ch: nat)
    requires IsRun(states, acts) && i <= j < |states| && Stranded(states[i], ch)
    ensures Stranded(states[j], ch) && forall k :: i <= k < j ==> acts[k] != Receive(ch)
    decreases j - i
  {
    if i < j {
      StrandedForever(states, acts, i, j - 1, ch);
      StrandedNext(states, acts, j - 1, ch);
    }
  }

  lemma StrandedNext(states: seq<Sys>, acts: seq<Action>, j: nat, ch: nat)
    requires IsRun(states, acts) && j < |acts| && Stranded(states[j], ch)
    ensures Stranded(states[j + 1], ch) && acts[j] != Receive(ch)
  {
    RunConserves(states, acts, j);
    RunWired(states, acts, j);
    assert StepAt(states, acts, j);
    StrandedStep(states[j], acts[j], ch);
  }

  // The other direction: a handler that is not stalled can be woken.

  lemma Extended(states: seq<Sys>, acts: seq<Action>, a: Action)
    requires IsRun(states, acts) && Keyed(states[|acts|].core) && Enabled(states[|acts|], a)
    ensures IsRun(states + [Apply(states[|acts|], a)], acts + [a])
  {
    var states', acts' := states + [Apply(states[|acts|], a)], acts + [a];
    assert states'[0] == states[0];
    forall i | 0 <= i < |acts'| ensures StepAt(states', acts', i) {
      if i < |acts| { assert StepAt(states, acts, i); }
    }
  }

  /** The step that will announce a tracked operation that is not yet Completed. */
  lemma Announcement(states: seq<Sys>, acts: seq<Action>, ch: nat) returns (a: Action)
    requires IsRun(states, acts)
    requires var s := states[|acts|];
             && Unlocked(s) && ch in s.readers && s.readers[ch].pc.AtReceive? && ch in s.core.chans
                && s.core.chans[ch].buf == []
             && IsSub(s.core, s.readers[ch].name, ch) && s.readers[ch].name in s.core.operations
    ensures var s := states[|acts|];
            && Keyed(s.core) && Enabled(s, a) && Enabled(Apply(s, a), Receive(ch)) && a != Unsubscribe(ch)
  {
    var s := states[|acts|];
    var n := s.readers[ch].name;
    RunWired(states, acts, |acts|);
    RunConserves(states, acts, |acts|);
    ExecutingCountExact(states, acts, |acts|);
    assert s.core.operations[n].state != Completed;
    if s.core.operations[n].state == Queued {
      a := Cancel(n, 0);
      StoredChans(s.core, CompletedRecord(s.core.operations[n], 0).(error := Some(Canceled)), ch);
    } else {
      assert n in ExecutingNames(s.core);
      var w :| RunsIt(s, w, n);
      a := FinishTask(w, Err(Canceled), 0);
      StoredChans(s.core, CompletedRecord(s.core.operations[n], 0).(error := Some(Canceled)), ch);
    }
  }

  ghost predicate CanReceive(states: seq<Sys>, acts: seq<Action>, ch: nat) {
    exists states': seq<Sys>, acts': seq<Action> :: IsRun(states', acts') && states <= states' && acts < acts'
       && acts'[|acts'| - 1] == Receive(ch)
  }

  lemma ReceivesNext(states: seq<Sys>, acts: seq<Action>, more: seq<Sys>, steps: seq<Action>, ch: nat)
    requires states <= more && acts <= steps && IsRun(more, steps)
    requires Keyed(more[|steps|].core) && Enabled(more[|steps|], Receive(ch))
    ensures CanReceive(states, acts, ch)
  {
    Extended(more, steps, Receive(ch));
    var states', acts' := more + [Apply(more[|steps|], Receive(ch))], steps + [Receive(ch)];
    assert states <= states' && acts < acts' && acts'[|acts'| - 1] == Receive(ch);
  }

  lemma WokenFromTable(states: seq<Sys>, acts: seq<Action>, more: seq<Sys>, steps: seq<Action>, ch: nat)
    requires states <= more && acts <= steps && IsRun(more, steps)
    requires var s := more[|steps|];
             && Unlocked(s) && ch in s.readers && s.readers[ch].pc.AtReceive? && ch in s.core.chans
                && s.core.chans[ch].buf == []
             && IsSub(s.core, s.readers[ch].name, ch) && s.readers[ch].name in s.core.operations
    ensures CanReceive(states, acts, ch)
  {
    var a := Announcement(more, steps, ch);
    var t := Apply(more[|steps|], a);
    Extended(more, steps, a);
    RunConserves(more + [t], steps + [a], |steps| + 1);
    ReceivesNext(states, acts, more + [t], steps + [a], ch);
  }

  lemma CanBeWoken(states: seq<Sys>, acts: seq<Action>, ch: nat)
    requires IsRun(states, acts)
    requires var s := states[|acts|]; ch in s.readers && s.readers[ch].pc.AtReceive? && !Stalled(s, ch)
    ensures CanReceive(states, acts, ch)
  {
    var s := states[|acts|];
    RunConserves(states, acts, |acts|);
    RunWired(states, acts, |acts|);
    if s.core.chans[ch].buf != [] {
      ReceivesNext(states, acts, states, acts, ch);
    } else if s.sending.Some? {
      Extended(states, acts, EnqueueInsert);
      WokenFromTable(states, acts, states + [Apply(s, EnqueueInsert)], acts + [EnqueueInsert], ch);
    } else {
      WokenFromTable(states, acts, states, acts, ch);
    }
  }

  /** A waiting handler of an accepted operation can never receive again, however the run goes on, if and only if its
      channel is empty and its registration or its record is gone. */
  lemma StallsExactly(states: seq<Sys>, acts: seq<Action>, ch: nat)
    requires IsRun(states, acts)
    requires var s := states[|acts|];
             ch in s.readers && s.readers[ch].pc.AtReceive? && NamesIn(s.accepted, s.readers[ch].name)
    ensures !CanReceive(states, acts, ch) <==> Stalled(states[|acts|], ch)
  {
    RunWired(states, acts, |acts|);
    if Stalled(states[|acts|], ch) {
      forall states': seq<Sys>, acts': seq<Action> | IsRun(states', acts') && states <= states' && acts < acts'
        ensures acts'[|acts'| - 1] != Receive(ch)
      {
        assert states'[|acts|] == states[|acts|];
        StrandedForever(states', acts', |acts|, |acts'|, ch);
      }
    } else {
      CanBeWoken(states, acts, ch);
    }
  }

  /** Deleting an operation between a handler's receive and its look leaves the handler stalled. */
  lemma DeletedOperationStallsHandler()
    ensures exists s :: Reachable(s) && 0 in s.readers && s.readers[0].pc.AtReceive?
                        && NamesIn(s.accepted, s.readers[0].name) && Stalled(s, 0)
  {
    var s := OneReceived();
    StepReachable(s, Delete("op"));
    s := Apply(s, Delete("op"));
    StepReachable(s, Look(0));
    s := Apply(s, Look(0));
    assert s.accepted[0].name == "op";
  }
}
