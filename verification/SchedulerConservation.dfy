/**
 Where every accepted task is, in every interleaving.
 */
module SchedulerConservation {
  import opened Wrappers
  import opened SchedulerCore
  import opened SchedulerSystem

  ghost predicate DistinctNames(tasks: seq<Task>) {
    forall i, j :: 0 <= i < j < |tasks| ==> tasks[i].name != tasks[j].name
  }

  predicate InHands(s: Sys, w: nat, name: string) {
    w in s.workers && (s.workers[w].Holding? || s.workers[w].Running?) && s.workers[w].task.name == name
  }

  /** Tasks leave in acceptance order: what was taken, followed by what is
      queued, is what was accepted; the queue never exceeds its capacity. */
  ghost predicate Fifo(s: Sys) {
    && s.accepted == s.taken + s.core.queue
    && DistinctNames(s.accepted)
    && |s.core.queue| <= s.core.queueSize
  }

  /** A task in a worker's hands was taken, is in no other worker's hands, and
      is started exactly when that worker has passed its first UpdateState. */
  ghost predicate Hands(s: Sys) {
    && (forall w :: w in s.workers && s.workers[w].Holding? ==>
          && s.workers[w].task in s.taken
          && s.workers[w].task.name !in s.started)
    && (forall w :: w in s.workers && s.workers[w].Running? ==>
          && s.workers[w].task in s.taken
          && s.workers[w].task.name in s.started
          && s.workers[w].task.name !in s.finished)
    && (forall v, w, n :: InHands(s, v, n) && InHands(s, w, n) ==> v == w)
  }

  /** Every taken task is finished or in some worker's hands; only taken tasks start. */
  ghost predicate Taken(s: Sys) {
    && (forall i :: 0 <= i < |s.taken| ==>
          s.taken[i].name in s.finished || exists w :: InHands(s, w, s.taken[i].name))
    && (forall n :: n in s.started ==> NamesIn(s.taken, n))
    && s.finished <= s.started
  }

  /** Every accepted operation has its record in the table, on its way into the
      table, or removed from the table; no record is in two of these places. */
  ghost predicate Records(s: Sys) {
    && Keyed(s.core)
    && (forall n :: n in s.detached ==> s.detached[n].name == n && n !in s.core.operations)
    && (s.sending.Some? ==> !Known(s, s.sending.value.name) && s.sending.value.state == Queued)
    && (forall n :: NamesIn(s.accepted, n) <==>
          Known(s, n) || (s.sending.Some? && s.sending.value.name == n))
  }

  /** A record still Queued belongs to a task whose worker has not started it. */
  ghost predicate QueuedUnstarted(s: Sys) {
    && (forall n :: n in s.core.operations && s.core.operations[n].state == Queued ==> n !in s.started)
    && (s.sending.Some? ==> s.sending.value.name !in s.started)
  }

  ghost predicate Conserved(s: Sys) {
    Fifo(s) && Hands(s) && Taken(s) && Records(s) && QueuedUnstarted(s)
  }

  lemma NamesInAppend(tasks: seq<Task>, t: Task, n: string)
    ensures NamesIn(tasks + [t], n) <==> NamesIn(tasks, n) || t.name == n
  {
    if NamesIn(tasks, n) {
      var i :| 0 <= i < |tasks| && tasks[i].name == n;
      assert (tasks + [t])[i].name == n;
    }
    assert (tasks + [t])[|tasks|] == t;
  }

  lemma FifoStep(s: Sys, a: Action)
    requires Conserved(s) && Enabled(s, a)
    ensures Fifo(Apply(s, a))
  {
    var s' := Apply(s, a);
    match a
    case EnqueueSend(task, _) => assert s'.accepted == s'.taken + s'.core.queue;
    case EnqueueHandoff(task, _, w) => assert s'.accepted == s'.taken + s'.core.queue;
    case Dequeue(w) => assert s'.accepted == s'.taken + s'.core.queue;
    case _ =>
  }

  /** A worker takes a task that was never taken before. */
  lemma TakeStep(s: Sys, s': Sys, w: nat, task: Task)
    requires Hands(s) && Taken(s)
    requires w in s.workers && s.workers[w].Idle?
    requires !NamesIn(s.taken, task.name)
    requires s'.workers == s.workers[w := Holding(task)] && s'.taken == s.taken + [task]
    requires s'.started == s.started && s'.finished == s.finished
    ensures Hands(s') && Taken(s')
  {
    forall v, n | InHands(s', v, n) ensures if v == w then n == task.name else InHands(s, v, n) && n != task.name {
      if v != w { assert InHands(s, v, n); }
    }
    forall i | 0 <= i < |s'.taken|
      ensures s'.taken[i].name in s'.finished || exists v :: InHands(s', v, s'.taken[i].name)
    {
      if i == |s.taken| {
        assert InHands(s', w, task.name);
      } else if s.taken[i].name !in s.finished {
        var v :| InHands(s, v, s.taken[i].name);
        assert InHands(s', v, s.taken[i].name);
      }
    }
    forall n | n in s.started ensures NamesIn(s'.taken, n) { NamesInAppend(s.taken, task, n); }
  }

  /** A worker moves on with what it holds, or with nothing. */
  lemma AdvanceStep(s: Sys, s': Sys, w: nat)
    requires Hands(s) && Taken(s)
    requires w in s.workers && s'.taken == s.taken
    requires
      || (s.workers[w].Idle? && s'.workers == s.workers[w := Stopped] && s'.started == s.started
          && s'.finished == s.finished)
      || (s.workers[w].Holding? && s'.workers == s.workers[w := Running(s.workers[w].task)]
          && s'.started == s.started + {s.workers[w].task.name} && s'.finished == s.finished)
      || (s.workers[w].Running? && s'.workers == s.workers[w := Idle]
          && s'.started == s.started && s'.finished == s.finished + {s.workers[w].task.name})
    ensures Hands(s') && Taken(s')
  {
    forall v, n | InHands(s', v, n) ensures InHands(s, v, n) {}
    forall v | v in s.workers && v != w && (s.workers[v].Holding? || s.workers[v].Running?)
      ensures !InHands(s, w, s.workers[v].task.name)
    {
      assert InHands(s, v, s.workers[v].task.name);
    }
    if !s.workers[w].Idle? && !s.workers[w].Stopped? {
      assert InHands(s, w, s.workers[w].task.name);
      assert s.workers[w].task in s.taken;
      var k :| 0 <= k < |s.taken| && s.taken[k] == s.workers[w].task;
      assert NamesIn(s.taken, s.workers[w].task.name);
    }
    forall i | 0 <= i < |s.taken|
      ensures s.taken[i].name in s'.finished || exists v :: InHands(s', v, s.taken[i].name)
    {
      if s.taken[i].name !in s'.finished {
        var v :| InHands(s, v, s.taken[i].name);
        assert InHands(s', v, s.taken[i].name);
      }
    }
  }

  lemma StillHands(s: Sys, s': Sys)
    requires Hands(s) && Taken(s)
    requires s'.workers == s.workers && s'.taken == s.taken && s'.started == s.started && s'.finished == s.finished
    ensures Hands(s') && Taken(s')
  {
    forall v, n ensures InHands(s', v, n) == InHands(s, v, n) {}
  }

  lemma HandsStep(s: Sys, a: Action)
    requires Conserved(s) && Enabled(s, a)
    ensures Hands(Apply(s, a)) && Taken(Apply(s, a))
  {
    var s' := Apply(s, a);
    match a
    case EnqueueHandoff(task, _, w) =>
      assert s.accepted == s.taken;
      TakeStep(s, s', w, task);
    case Dequeue(w) =>
      assert s.accepted[|s.taken|] == s.core.queue[0];
      assert forall i :: 0 <= i < |s.taken| ==> s.accepted[i] == s.taken[i];
      TakeStep(s, s', w, s.core.queue[0]);
    case StopWorker(w) => AdvanceStep(s, s', w);
    case StartTask(w, _) => AdvanceStep(s, s', w);
    case FinishTask(w, _, _) => AdvanceStep(s, s', w);
    case _ => StillHands(s, s');
  }

  lemma RecordsStep(s: Sys, a: Action)
    requires Records(s) && Enabled(s, a)
    ensures Records(Apply(s, a))
  {
    if a.EnqueueSend? || a.EnqueueHandoff? {
      RecordsEnqueue(s, a);
    } else if a.EnqueueInsert? || a.Delete? || a.Expire? {
      RecordsMove(s, a);
    } else {
      RecordsSame(s, a);
    }
  }

  lemma RecordsMove(s: Sys, a: Action)
    requires Records(s) && Enabled(s, a) && (a.EnqueueInsert? || a.Delete? || a.Expire?)
    ensures Records(Apply(s, a))
  {
    assert forall n :: Known(Apply(s, a), n) <==> Known(s, n) || (a.EnqueueInsert? && s.sending.value.name == n);
  }

  predicate Stores(a: Action) {
    a.StartTask? || a.FinishTask? || a.CompleteCached? || a.Cancel?
  }

  lemma RecordsSame(s: Sys, a: Action)
    requires Records(s) && Enabled(s, a)
    requires !(a.EnqueueSend? || a.EnqueueHandoff? || a.EnqueueInsert? || a.Delete? || a.Expire?)
    ensures Records(Apply(s, a))
  {
    if Stores(a) {
      TableSame(s, a);
    } else {
      assert Apply(s, a).core.operations == s.core.operations;
    }
    SameRecords(s, Apply(s, a));
  }

  lemma TableSame(s: Sys, a: Action)
    requires Keyed(s.core) && Enabled(s, a) && Stores(a)
    ensures Keyed(Apply(s, a).core) && Apply(s, a).core.operations.Keys == s.core.operations.Keys
  {
    match a
    case StartTask(w, now) =>
    case FinishTask(w, outcome, now) => OthersKept(s.core, s.workers[w].task.name, outcome, now);
    case CompleteCached(n, r, now) => OthersKept(s.core, n, Ok(r), now);
    case Cancel(n, now) =>
  }

  lemma SameRecords(s: Sys, s': Sys)
    requires Records(s) && Keyed(s'.core) && s'.core.operations.Keys == s.core.operations.Keys
    requires s'.detached == s.detached && s'.sending == s.sending && s'.accepted == s.accepted
    ensures Records(s')
  {
    assert forall n :: Known(s', n) == Known(s, n);
  }

  lemma RecordsEnqueue(s: Sys, a: Action)
    requires Records(s) && Enabled(s, a) && (a.EnqueueSend? || a.EnqueueHandoff?)
    ensures Records(Apply(s, a))
  {
    var s' := Apply(s, a);
    forall n ensures NamesIn(s'.accepted, n) <==> NamesIn(s.accepted, n) || a.task.name == n {
      NamesInAppend(s.accepted, a.task, n);
    }
  }

  lemma QueuedUnstartedStep(s: Sys, a: Action)
    requires Conserved(s) && Enabled(s, a)
    ensures QueuedUnstarted(Apply(s, a))
  {
    var s' := Apply(s, a);
    match a
    case EnqueueSend(task, _) => UnseenUnstarted(s, task.name);
    case EnqueueHandoff(task, _, _) => UnseenUnstarted(s, task.name);
    case StartTask(w, now) =>
      var n := s.workers[w].task.name;
      forall m | m in s'.core.operations && m != n
        ensures m in s.core.operations && s'.core.operations[m] == s.core.operations[m] {}
    case FinishTask(w, outcome, now) => OthersKept(s.core, s.workers[w].task.name, outcome, now);
    case CompleteCached(n, r, now) => OthersKept(s.core, n, Ok(r), now);
    case Cancel(n, now) =>
      forall m | m in s'.core.operations && m != n
        ensures m in s.core.operations && s'.core.operations[m] == s.core.operations[m] {}
    case _ =>
  }

  lemma UnseenUnstarted(s: Sys, n: string)
    requires Fifo(s) && Taken(s) && Fresh(s, n)
    ensures n !in s.started
  {
    assert forall i :: 0 <= i < |s.taken| ==> s.accepted[i] == s.taken[i];
  }

  lemma OthersKept(c: Core<nat>, n: string, outcome: Result<Response, Error>, now: int)
    requires Keyed(c)
    ensures var ops := Finished(c, n, outcome, now).operations;
            && ops.Keys == c.operations.Keys
            && (n in ops ==> ops[n].state == Completed)
            && forall m :: m in ops && m != n ==> ops[m] == c.operations[m]
  {
  }

  /** Every state of every run conserves tasks. */
  lemma {:induction false} RunConserves(states: seq<Sys>, acts: seq<Action>, i: nat)
    requires IsRun(states, acts) && i < |states|
    ensures Conserved(states[i])
  {
    if i == 0 {
    } else {
      RunConserves(states, acts, i - 1);
      assert StepAt(states, acts, i - 1);
      FifoStep(states[i - 1], acts[i - 1]);
      HandsStep(states[i - 1], acts[i - 1]);
      RecordsStep(states[i - 1], acts[i - 1]);
      QueuedUnstartedStep(states[i - 1], acts[i - 1]);
    }
  }

  ghost predicate HeldByOne(s: Sys, n: string) {
    exists w :: InHands(s, w, n) && forall v :: InHands(s, v, n) ==> v == w
  }

  /** Each accepted task is in the queue, in exactly one worker's hands, or
      finished, and in only one of these. */
  lemma OnePlace(states: seq<Sys>, acts: seq<Action>, i: nat, n: string)
    requires IsRun(states, acts) && i < |states| && NamesIn(states[i].accepted, n)
    ensures var s := states[i];
            && (NamesIn(s.core.queue, n) || HeldByOne(s, n) || n in s.finished)
            && !(NamesIn(s.core.queue, n) && (exists w :: InHands(s, w, n)))
            && !(NamesIn(s.core.queue, n) && n in s.finished)
            && !((exists w :: InHands(s, w, n)) && n in s.finished)
  {
    RunConserves(states, acts, i);
    var s := states[i];
    var k :| 0 <= k < |s.accepted| && s.accepted[k].name == n;
    if k < |s.taken| {
      assert s.taken[k].name == n;
      if n !in s.finished {
        var w :| InHands(s, w, n);
        assert HeldByOne(s, n);
      }
    } else {
      assert s.core.queue[k - |s.taken|].name == n;
    }
    if NamesIn(s.core.queue, n) { QueuedNotTaken(s, n); }
  }

  lemma QueuedNotTaken(s: Sys, n: string)
    requires Conserved(s) && NamesIn(s.core.queue, n)
    ensures !NamesIn(s.taken, n) && n !in s.started && forall w :: !InHands(s, w, n)
  {
    var q :| 0 <= q < |s.core.queue| && s.core.queue[q].name == n;
    assert s.accepted[|s.taken| + q].name == n;
    assert forall i :: 0 <= i < |s.taken| ==> s.accepted[i] == s.taken[i];
    forall w ensures !InHands(s, w, n) {
      if InHands(s, w, n) { HeldWasTaken(s, w, n); }
    }
  }

  lemma HeldWasTaken(s: Sys, w: nat, n: string)
    requires Hands(s) && InHands(s, w, n)
    ensures NamesIn(s.taken, n)
  {
    var i :| 0 <= i < |s.taken| && s.taken[i] == s.workers[w].task;
  }

  /** A record still Queued has its task in the queue or with a worker that has
      not yet started it. */
  lemma QueuedHasTask(states: seq<Sys>, acts: seq<Action>, i: nat, n: string)
    requires IsRun(states, acts) && i < |states|
    requires n in states[i].core.operations && states[i].core.operations[n].state == Queued
    ensures var s := states[i];
            NamesIn(s.core.queue, n) || exists w :: InHands(s, w, n) && s.workers[w].Holding?
  {
    RunConserves(states, acts, i);
    OnePlace(states, acts, i, n);
    var s := states[i];
    if !NamesIn(s.core.queue, n) {
      var w :| InHands(s, w, n);
      assert s.workers[w].Holding?;
    }
  }

  /** When a worker is able to take the lock for its first UpdateState, the record is in
      the table unless Delete or Expire removed it: the send-before-insert window of
      Enqueue is never visible to it. */
  lemma FirstUpdateFindsRecord(states: seq<Sys>, acts: seq<Action>, i: nat, w: nat)
    requires IsRun(states, acts) && i < |states|
    requires w in states[i].workers && states[i].workers[w].Holding?
    requires Unlocked(states[i])
    ensures var s := states[i]; var n := s.workers[w].task.name;
            n in s.core.operations <==> n !in s.detached
  {
    RunConserves(states, acts, i);
    var s := states[i];
    var k :| 0 <= k < |s.taken| && s.taken[k] == s.workers[w].task;
    assert s.accepted[k].name == s.workers[w].task.name;
    assert NamesIn(s.accepted, s.workers[w].task.name);
  }
}
