/**
 What clients can rely on about `done`, `error` and `response` over whole runs.
 Completed is not terminal: an operation completed before its worker's first
 UpdateState is revived by it, once.
 */
module SchedulerDone {
  import opened Wrappers
  import opened SchedulerCore
  import opened SchedulerSystem
  import opened SchedulerConservation
  import opened SchedulerWakeup

  predicate Done(s: Sys, n: string) {
    n in s.core.operations && ToProto(s.core.operations[n]).done
  }

  /** The operation is still tracked and its `done` flag falls. */
  predicate FallsBack(s: Sys, s': Sys, n: string) {
    Done(s, n) && n in s'.core.operations && !Done(s', n)
  }

  ghost predicate Outcomes(s: Sys) {
    && (forall n :: Known(s, n) && Live(s, n).state == Completed ==> Live(s, n).error.Some? || Live(s, n).result.Some?)
    && (forall n :: n in s.cancelled ==> Known(s, n) && Live(s, n).error.Some?)
    && (forall n :: n in s.finished && n in s.core.operations ==> Done(s, n))
  }

  /** How a tracked record may change in one step. */
  predicate Evolves(r: Record, r': Record, startedNow: bool) {
    && (r.error.Some? ==> r'.error.Some?)
    && (r.result.Some? ==> r'.result.Some?)
    && (|| r'.state == r.state
        || (r'.state == Completed && (r'.error.Some? || r'.result.Some?))
        || (r'.state == Executing && startedNow))
  }

  predicate Starts(s: Sys, a: Action, n: string) {
    a.StartTask? && a.worker in s.workers && s.workers[a.worker].Holding? && s.workers[a.worker].task.name == n
  }

  lemma StoredRecords(c: Core<nat>, r: Record)
    requires r.name in c.operations
    ensures Stored(c, r).operations == c.operations[r.name := r]
  {
  }

  lemma QuietSteps(s: Sys, a: Action, s': Sys, n: string)
    requires Conserved(s) && Enabled(s, a) && s' == Apply(s, a) && !Stores(a)
    ensures n in s.core.operations && n in s'.core.operations ==> s'.core.operations[n] == s.core.operations[n]
  {
  }

  lemma StartSteps(s: Sys, a: Action, s': Sys, n: string)
    requires Conserved(s) && a.StartTask? && Enabled(s, a) && s' == Apply(s, a)
    requires n in s.core.operations
    ensures n in s'.core.operations && Evolves(s.core.operations[n], s'.core.operations[n], Starts(s, a, n))
    ensures Starts(s, a, n) ==> s'.core.operations[n].state == Executing
  {
    var t := s.workers[a.worker].task;
    if t.name in s.core.operations {
      StoredRecords(s.core,
                    s.core.operations[t.name].(state := Executing, metadata := Metadata(StageExecuting, t.actionDigest),
                                               updatedAt := a.now));
    }
  }

  /** Records that stay in the table. */
  lemma TrackedSteps(s: Sys, a: Action, s': Sys, n: string)
    requires Conserved(s) && Enabled(s, a) && s' == Apply(s, a)
    requires n in s.core.operations && n in s'.core.operations
    ensures Evolves(s.core.operations[n], s'.core.operations[n], Starts(s, a, n))
    ensures Starts(s, a, n) ==> s'.core.operations[n].state == Executing
  {
    if a.StartTask? {
      StartSteps(s, a, s', n);
    } else if a.FinishTask? {
      FinishedRecords(s, s.workers[a.worker].task.name, a.outcome, a.now, n);
    } else if a.CompleteCached? {
      FinishedRecords(s, a.name, Ok(a.response), a.now, n);
    } else if a.Cancel? {
      StoredRecords(s.core, CompletedRecord(s.core.operations[a.name], a.now).(error := Some(Canceled)));
    } else {
      QuietSteps(s, a, s', n);
    }
  }

  lemma FinishedRecords(s: Sys, m: string, o: Result<Response, Error>, now: int, n: string)
    requires Keyed(s.core) && n in s.core.operations
    ensures var c' := Finished(s.core, m, o, now);
            n in c'.operations && Evolves(s.core.operations[n], c'.operations[n], false)
  {
    if m in s.core.operations {
      var r := CompletedRecord(s.core.operations[m], now);
      StoredRecords(s.core, if o.Ok? then r.(result := Some(o.value)) else r.(error := Some(o.error)));
    }
  }

  /** Records that enter or leave the table. */
  lemma MembershipSteps(s: Sys, a: Action, n: string)
    requires Conserved(s) && Enabled(s, a)
    ensures var s' := Apply(s, a);
            && (n !in s.core.operations && n in s'.core.operations ==>
                  a.EnqueueInsert? && s'.core.operations[n] == s.sending.value)
            && (n in s.core.operations && n !in s'.core.operations ==>
                  n in s'.detached && s'.detached[n] == s.core.operations[n])
            && (n in s.detached ==> n in s'.detached && s'.detached[n] == s.detached[n])
            && (n in s'.detached ==> Known(s, n))
  {
    match a
    case FinishTask(w, o, now) => OthersKept(s.core, s.workers[w].task.name, o, now);
    case CompleteCached(m, r, now) => OthersKept(s.core, m, Ok(r), now);
    case _ =>
  }

  lemma OutcomesStep(s: Sys, a: Action)
    requires Conserved(s) && Outcomes(s) && Enabled(s, a) && Conserved(Apply(s, a))
    ensures Outcomes(Apply(s, a))
  {
    var s' := Apply(s, a);
    forall n | Known(s', n)
      ensures Live(s', n).state == Completed ==> Live(s', n).error.Some? || Live(s', n).result.Some?
      ensures n in s.cancelled ==> Live(s', n).error.Some?
    {
      MembershipSteps(s, a, n);
      if n in s.core.operations && n in s'.core.operations { TrackedSteps(s, a, s', n); }
      if Known(s, n) {
        assert Live(s, n).state == Completed ==> Live(s, n).error.Some? || Live(s, n).result.Some?;
      } else {
        assert Live(s', n) == s.sending.value;
      }
    }
    forall n | n in s.cancelled ensures Known(s', n) { MembershipSteps(s, a, n); }
    FinishedStaysDone(s, a);
  }

  lemma FinishedStaysDone(s: Sys, a: Action)
    requires Conserved(s) && Outcomes(s) && Enabled(s, a) && Conserved(Apply(s, a))
    ensures var s' := Apply(s, a); forall n :: n in s'.finished && n in s'.core.operations ==> Done(s', n)
  {
    var s' := Apply(s, a);
    forall n | n in s'.finished && n in s'.core.operations ensures Done(s', n) {
      MembershipSteps(s, a, n);
      if n in s.core.operations { TrackedSteps(s, a, s', n); }
      if n in s.finished {
        assert n in s.started;
        if a.StartTask? { assert s.workers[a.worker].task.name !in s.started; }
      } else {
        OthersKept(s.core, n, a.outcome, a.now);
      }
    }
  }

  lemma {:induction false} RunOutcomes(states: seq<Sys>, acts: seq<Action>, i: nat)
    requires IsRun(states, acts) && i < |states|
    ensures Outcomes(states[i])
  {
    if i > 0 {
      RunOutcomes(states, acts, i - 1);
      RunConserves(states, acts, i - 1);
      RunConserves(states, acts, i);
      assert StepAt(states, acts, i - 1);
      OutcomesStep(states[i - 1], acts[i - 1]);
    }
  }

  lemma {:induction false} HistoryGrows(states: seq<Sys>, acts: seq<Action>, i: nat, j: nat)
    requires IsRun(states, acts) && i <= j < |states|
    ensures states[i].cancelled <= states[j].cancelled
    ensures states[i].finished <= states[j].finished
    ensures states[i].started <= states[j].started
    decreases j - i
  {
    if i < j {
      HistoryGrows(states, acts, i, j - 1);
      HistoryNext(states, acts, j - 1);
    }
  }

  lemma HistoryNext(states: seq<Sys>, acts: seq<Action>, j: nat)
    requires IsRun(states, acts) && j < |acts|
    ensures states[j].cancelled <= states[j + 1].cancelled
    ensures states[j].finished <= states[j + 1].finished
    ensures states[j].started <= states[j + 1].started
  {
    assert StepAt(states, acts, j);
    HistoryStep(states[j], acts[j]);
  }

  lemma HistoryStep(s: Sys, a: Action)
    requires Keyed(s.core) && Enabled(s, a)
    ensures s.cancelled <= Apply(s, a).cancelled && s.finished <= Apply(s, a).finished
            && s.started <= Apply(s, a).started
  {
  }

  /** Every Done snapshot of a tracked operation carries an error or a response; once a cancel
      of it has succeeded, every later Done snapshot carries an error, even after a worker ran it. */
  lemma DoneCarriesOutcome(states: seq<Sys>, acts: seq<Action>, i: nat, n: string)
    requires IsRun(states, acts) && i < |states| && Done(states[i], n)
    ensures var p := ToProto(states[i].core.operations[n]);
            && (p.result.ErrorResult? || p.result.ResponseResult?)
            && ((exists j :: 0 <= j < i && acts[j].Cancel? && acts[j].name == n) ==> p.result.ErrorResult?)
  {
    RunOutcomes(states, acts, i);
    assert Known(states[i], n);
    if j :| 0 <= j < i && acts[j].Cancel? && acts[j].name == n {
      assert StepAt(states, acts, j);
      HistoryGrows(states, acts, j + 1, i);
    }
  }

  /** After the worker has finished an operation it stays Done until its record is removed. */
  lemma DoneAfterFinish(states: seq<Sys>, acts: seq<Action>, i: nat, j: nat, n: string)
    requires IsRun(states, acts) && j < i < |states|
    requires acts[j].FinishTask? && StepAt(states, acts, j)
    requires states[j].workers[acts[j].worker].task.name == n
    ensures n in states[i].core.operations ==> Done(states[i], n)
  {
    HistoryGrows(states, acts, j + 1, i);
    RunOutcomes(states, acts, i);
  }

  /** `done` falls back at a step exactly when that step is the first UpdateState of
      the operation's worker and finds the operation tracked and already Done. */
  lemma FallsBackExactly(states: seq<Sys>, acts: seq<Action>, i: nat, n: string)
    requires IsRun(states, acts) && i < |acts|
    ensures FallsBack(states[i], states[i + 1], n)
            <==> Starts(states[i], acts[i], n) && Done(states[i], n)
  {
    RunConserves(states, acts, i);
    assert StepAt(states, acts, i);
    MembershipSteps(states[i], acts[i], n);
    if n in states[i].core.operations && n in states[i + 1].core.operations {
      TrackedSteps(states[i], acts[i], states[i + 1], n);
    }
  }

  /** Over a whole run `done` falls back at most once, and never before the worker has started. */
  lemma FallsBackAtMostOnce(states: seq<Sys>, acts: seq<Action>, i: nat, j: nat, n: string)
    requires IsRun(states, acts) && i < j < |acts| && FallsBack(states[i], states[i + 1], n)
    ensures n in states[i + 1].started && !FallsBack(states[j], states[j + 1], n)
  {
    FallsBackExactly(states, acts, i, n);
    FallsBackExactly(states, acts, j, n);
    StartIsFirst(states, acts, i, n);
    HistoryGrows(states, acts, i + 1, j);
    if Starts(states[j], acts[j], n) { StartIsFirst(states, acts, j, n); }
  }

  lemma StartIsFirst(states: seq<Sys>, acts: seq<Action>, i: nat, n: string)
    requires IsRun(states, acts) && i < |acts| && Starts(states[i], acts[i], n)
    ensures n !in states[i].started && n in states[i + 1].started
  {
    RunConserves(states, acts, i);
    assert StepAt(states, acts, i);
  }

  ghost predicate Reachable(s: Sys) {
    exists states, acts :: IsRun(states, acts) && states[|acts|] == s
  }

  lemma InitReachable(queueSize: nat, pool: set<nat>, retention: nat)
    ensures Reachable(Init(queueSize, pool, retention))
  {
    var states, acts: seq<Action> := [Init(queueSize, pool, retention)], [];
    assert IsRun(states, acts) && states[|acts|] == Init(queueSize, pool, retention);
  }

  lemma StepReachable(s: Sys, a: Action)
    requires Reachable(s) && Keyed(s.core) && Enabled(s, a)
    ensures Reachable(Apply(s, a))
  {
    var states, acts :| IsRun(states, acts) && states[|acts|] == s;
    var states', acts' := states + [Apply(s, a)], acts + [a];
    forall i | 0 <= i < |acts'| ensures StepAt(states', acts', i) {
      if i < |acts| { assert StepAt(states, acts, i); }
    }
    assert states'[0] == states[0];
    assert IsRun(states', acts');
  }

  /** A reachable state with one queued operation named "op". */
  lemma OneQueued(pool: set<nat>) returns (s: Sys)
    ensures Reachable(s) && Keyed(s.core) && Unlocked(s)
    ensures s.core.operations == map["op" := NewRecord(Task("op", "digest", false, 0), 0)]
    ensures s.core.queue == [Task("op", "digest", false, 0)] && s.core.executingCount == 0
    ensures s.accepted == [Task("op", "digest", false, 0)] && s.sending.None?
    ensures s.workers == map w | w in pool :: Idle
    ensures s.readers == map[] && s.core.chans == map[] && s.core.subscribers == map[]
  {
    var t := Task("op", "digest", false, 0);
    s := Init(1, pool, 0);
    InitReachable(1, pool, 0);
    StepReachable(s, EnqueueSend(t, 0));
    s := Apply(s, EnqueueSend(t, 0));
    StepReachable(s, EnqueueInsert);
    s := Apply(s, EnqueueInsert);
  }

  /** Completed is not terminal: a cancelled task is still in the queue, and its worker revives it. */
  lemma CancelledTaskIsRevived()
    ensures exists s, a, n ::
              Reachable(s) && n in s.cancelled && Keyed(s.core) && Enabled(s, a) && FallsBack(s, Apply(s, a), n)
  {
    var s := OneQueued({0});
    StepReachable(s, Cancel("op", 0));
    s := Apply(s, Cancel("op", 0));
    assert Done(s, "op");
    StepReachable(s, Dequeue(0));
    s := Apply(s, Dequeue(0));
    var a := StartTask(0, 0);
    assert FallsBack(s, Apply(s, a), "op");
  }

  /** Deleting an operation while it executes leaves it in the count: nothing is tracked and one is counted. */
  lemma DeletedExecutionStaysCounted()
    ensures exists s :: Reachable(s) && s.core.operations == map[] && s.core.executingCount == 1
  {
    var s := OneQueued({0});
    StepReachable(s, Dequeue(0));
    s := Apply(s, Dequeue(0));
    StepReachable(s, StartTask(0, 0));
    s := Apply(s, StartTask(0, 0));
    StepReachable(s, Delete("op"));
    s := Apply(s, Delete("op"));
    assert s.core.operations == map[];
  }

  predicate StoppedWithoutDone(s: Sys, ch: nat) {
    && ch in s.readers && s.readers[ch].pc.Observed?
    && s.readers[ch].snapshot.Some? && !s.readers[ch].snapshot.value.done
  }

  /** A reachable state in which a handler of a queued operation has received a message. */
  lemma OneReceived() returns (s: Sys)
    ensures Reachable(s) && Keyed(s.core) && Unlocked(s)
    ensures CanCancel(s.core, "op") && s.core.operations.Keys == {"op"}
            && s.accepted == [Task("op", "digest", false, 0)]
    ensures 0 in s.readers && s.readers[0] == Reader("op", Received("op"), None)
    ensures 0 in s.core.chans && s.core.chans[0].buf == []
  {
    s := OneQueued({});
    StepReachable(s, Subscribe("op", 0));
    s := Apply(s, Subscribe("op", 0));
    assert s.core.chans[0].buf == ["op"];
    StepReachable(s, Receive(0));
    s := Apply(s, Receive(0));
  }

  /** The snapshot is taken before the state is tested, so a handler can stop
      without ever having streamed a Done snapshot. */
  lemma LastSnapshotMayNotBeDone()
    ensures exists s, ch :: Reachable(s) && StoppedWithoutDone(s, ch)
  {
    var s := OneReceived();
    StepReachable(s, Look(0));
    s := Apply(s, Look(0));
    StepReachable(s, Cancel("op", 0));
    s := Apply(s, Cancel("op", 0));
    StepReachable(s, Test(0));
    s := Apply(s, Test(0));
    assert StoppedWithoutDone(s, 0);
  }

  /** A handler's snapshot changes at its own looks only. */
  lemma SnapshotStep(s: Sys, a: Action, ch: nat)
    requires Keyed(s.core) && Enabled(s, a) && ch in s.readers && a != Look(ch)
    ensures var s' := Apply(s, a);
            ch in s'.readers && s'.readers[ch].name == s.readers[ch].name
              && s'.readers[ch].snapshot == s.readers[ch].snapshot
  {
  }

  lemma {:induction false} SnapshotPersists(states: seq<Sys>, acts: seq<Action>, i: nat, j: nat, ch: nat)
    requires IsRun(states, acts) && i <= j < |states| && ch in states[i].readers
    requires forall k :: i <= k < j ==> acts[k] != Look(ch)
    ensures ch in states[j].readers && states[j].readers[ch].name == states[i].readers[ch].name
    ensures states[j].readers[ch].snapshot == states[i].readers[ch].snapshot
    decreases j - i
  {
    if i < j {
      SnapshotPersists(states, acts, i, j - 1, ch);
      assert StepAt(states, acts, j - 1);
      SnapshotStep(states[j - 1], acts[j - 1], ch);
    }
  }

  /** One turn of a handler's loop: it looks at step i, finds the operation tracked, and tests at step j. */
  ghost predicate Turn(states: seq<Sys>, acts: seq<Action>, i: nat, j: nat, ch: nat) {
    && |states| == |acts| + 1 && i < j < |acts|
    && acts[i] == Look(ch) && acts[j] == Test(ch)
    && ch in states[i].readers && states[i].readers[ch].name in states[i].core.operations
    && (forall k :: i < k < j ==> acts[k] != Look(ch))
  }

  /** What a turn streams and whether it ends the loop: the snapshot is done exactly when the operation is Completed
      at the look, and the loop ends exactly when it is Completed at the test. So the loop ends on a snapshot that is
      not done if and only if the operation is not Completed at the look and is at the test. */
  lemma TurnExactly(states: seq<Sys>, acts: seq<Action>, i: nat, j: nat, ch: nat)
    requires IsRun(states, acts) && Turn(states, acts, i, j, ch)
    ensures var n := states[i].readers[ch].name;
            && Known(states[j], n) && ch in states[j + 1].readers && states[j + 1].readers[ch].snapshot.Some?
            && (states[j + 1].readers[ch].snapshot.value.done <==> states[i].core.operations[n].state == Completed)
            && (states[j + 1].readers[ch].pc.Observed? <==> Live(states[j], n).state == Completed)
            && (StoppedWithoutDone(states[j + 1], ch)
                <==> states[i].core.operations[n].state != Completed && Live(states[j], n).state == Completed)
  {
    assert StepAt(states, acts, i);
    assert StepAt(states, acts, j);
    SnapshotPersists(states, acts, i + 1, j, ch);
    RunWired(states, acts, j);
  }

  /** How a handler comes to have looked, and to have observed. */
  lemma HandlerStep(s: Sys, a: Action, ch: nat)
    requires Keyed(s.core) && Enabled(s, a) && ch in Apply(s, a).readers
    ensures Apply(s, a).readers[ch].pc.Looked? && a != Look(ch) ==>
              ch in s.readers && s.readers[ch] == Apply(s, a).readers[ch]
    ensures Apply(s, a).readers[ch].pc.Looked? && a == Look(ch) ==>
              ch in s.readers && s.readers[ch].name in s.core.operations
    ensures Apply(s, a).readers[ch].pc.Observed? && a != Test(ch) ==>
              ch in s.readers && s.readers[ch] == Apply(s, a).readers[ch]
    ensures Apply(s, a).readers[ch].pc.Observed? && a == Test(ch) ==> ch in s.readers && s.readers[ch].pc.Looked?
  {
  }

  /** The turn that ends at a test. */
  lemma {:induction false} LookedAt(states: seq<Sys>, acts: seq<Action>, j: nat, ch: nat) returns (i: nat)
    requires IsRun(states, acts) && j < |states| && ch in states[j].readers && states[j].readers[ch].pc.Looked?
    ensures i < j && acts[i] == Look(ch) && ch in states[i].readers
            && states[i].readers[ch].name in states[i].core.operations
    ensures forall k :: i < k < j ==> acts[k] != Look(ch)
    decreases j
  {
    assert j > 0;
    assert StepAt(states, acts, j - 1);
    HandlerStep(states[j - 1], acts[j - 1], ch);
    if acts[j - 1] == Look(ch) {
      i := j - 1;
    } else {
      i := LookedAt(states, acts, j - 1, ch);
    }
  }

  lemma {:induction false} ObservedAt(states: seq<Sys>, acts: seq<Action>, k: nat, ch: nat) returns (j: nat)
    requires IsRun(states, acts) && k < |states| && ch in states[k].readers && states[k].readers[ch].pc.Observed?
    ensures j < k && acts[j] == Test(ch)
    ensures ch in states[j].readers && states[j].readers[ch].pc.Looked?
    ensures ch in states[j + 1].readers && states[j + 1].readers[ch] == states[k].readers[ch]
    decreases k
  {
    assert k > 0;
    assert StepAt(states, acts, k - 1);
    HandlerStep(states[k - 1], acts[k - 1], ch);
    if acts[k - 1] == Test(ch) {
      j := k - 1;
    } else {
      j := ObservedAt(states, acts, k - 1, ch);
    }
  }

  /** Every handler that has stopped did so in such a turn: its last snapshot is not done if and only if the operation
      was not yet Completed when it looked. It then became done, while tracked, between the look and the test. */
  lemma LastSnapshotExactly(states: seq<Sys>, acts: seq<Action>, k: nat, ch: nat) returns (i: nat, j: nat)
    requires IsRun(states, acts) && k < |states| && ch in states[k].readers && states[k].readers[ch].pc.Observed?
    ensures j < k && Turn(states, acts, i, j, ch)
    ensures var n := states[i].readers[ch].name;
            && (StoppedWithoutDone(states[k], ch) <==> states[i].core.operations[n].state != Completed)
            && (StoppedWithoutDone(states[k], ch) ==>
                  exists m :: i <= m < j && n in states[m].core.operations && !Done(states[m], n)
                     && Done(states[m + 1], n))
  {
    j := ObservedAt(states, acts, k, ch);
    i := LookedAt(states, acts, j, ch);
    TurnExactly(states, acts, i, j, ch);
    var n := states[i].readers[ch].name;
    if StoppedWithoutDone(states[k], ch) { CompletedBetween(states, acts, i, j, n); }
  }

  lemma {:induction false} CompletedBetween(states: seq<Sys>, acts: seq<Action>, i: nat, j: nat, n: string)
    requires IsRun(states, acts) && i < j < |states|
    requires Known(states[i], n) && Live(states[i], n).state != Completed
    requires Known(states[j], n) && Live(states[j], n).state == Completed
    ensures exists k :: i <= k < j && n in states[k].core.operations && !Done(states[k], n) && Done(states[k + 1], n)
    decreases j - i
  {
    var k := j - 1;
    assert StepAt(states, acts, k);
    RunConserves(states, acts, k);
    RunKnown(states, acts, i, k, n);
    MembershipSteps(states[k], acts[k], n);
    if Live(states[k], n).state == Completed {
      CompletedBetween(states, acts, i, k, n);
    } else {
      assert n in states[k].core.operations && !Done(states[k], n) && Done(states[k + 1], n);
    }
  }

  lemma {:induction false} RunKnown(states: seq<Sys>, acts: seq<Action>, i: nat, j: nat, n: string)
    requires IsRun(states, acts) && i <= j < |states| && Known(states[i], n)
    ensures Known(states[j], n)
    decreases j - i
  {
    if i < j {
      RunKnown(states, acts, i, j - 1, n);
      KnownNext(states, acts, j, n);
    }
  }

  lemma KnownNext(states: seq<Sys>, acts: seq<Action>, j: nat, n: string)
    requires IsRun(states, acts) && 0 < j < |states| && Known(states[j - 1], n)
    ensures Known(states[j], n)
  {
    RunConserves(states, acts, j - 1);
    assert StepAt(states, acts, j - 1);
    KnownStep(states[j - 1], acts[j - 1], n);
  }

  lemma KnownStep(s: Sys, a: Action, n: string)
    requires Conserved(s) && Enabled(s, a) && Known(s, n)
    ensures Known(Apply(s, a), n)
  {
    MembershipSteps(s, a, n);
  }
}
