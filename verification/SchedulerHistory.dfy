/**
 What a client is told about an operation, in terms of what happened to it: which task was
 accepted under its name, when its worker started, and what was reported for it.
 */
module SchedulerHistory {
  import opened Wrappers
  import opened SchedulerCore
  import opened SchedulerSystem
  import opened SchedulerConservation
  import opened SchedulerDone

  /** What a step means for one operation. Starting and reporting only count while it is tracked. */
  datatype Mark =
    | Nothing
    | Accepted(task: Task, now: int)
    | Started(now: int)
    | Reported(outcome: Result<Response, Error>, now: int)

  function MarkAt(s: Sys, a: Action, n: string): Mark {
    match a
    case EnqueueSend(task, now) => if task.name == n then Accepted(task, now) else Nothing
    case EnqueueHandoff(task, now, _) => if task.name == n then Accepted(task, now) else Nothing
    case StartTask(w, now) => if Starts(s, a, n) && n in s.core.operations then Started(now) else Nothing
    case FinishTask(w, outcome, now) =>
      if Ends(s, a, n) && n in s.core.operations then Reported(outcome, now) else Nothing
    case CompleteCached(m, response, now) =>
      if m == n && n in s.core.operations then Reported(Ok(response), now) else Nothing
    case Cancel(m, now) => if m == n && n in s.core.operations then Reported(Err(Canceled), now) else Nothing
    case _ => Nothing
  }

  predicate Ends(s: Sys, a: Action, n: string) {
    a.FinishTask? && a.worker in s.workers && s.workers[a.worker].Running? && s.workers[a.worker].task.name == n
  }

  // Which step was the last of its kind.

  datatype Kind = Success | Failing | Report | Start | Any

  predicate Is(m: Mark, kind: Kind) {
    match kind
    case Success => m.Reported? && m.outcome.Ok?
    case Failing => m.Reported? && m.outcome.Err?
    case Report => m.Reported?
    case Start => m.Started?
    case Any => !m.Nothing?
  }

  predicate Occurs(states: seq<Sys>, acts: seq<Action>, j: nat, n: string, kind: Kind)
    requires j < |acts| <= |states|
  {
    Is(MarkAt(states[j], acts[j], n), kind)
  }

  /** None of this kind from step j up to step i. */
  predicate NoneSince(states: seq<Sys>, acts: seq<Action>, j: nat, i: nat, n: string, kind: Kind)
    requires i <= |acts| <= |states|
  {
    forall k :: j <= k < i ==> !Occurs(states, acts, k, n, kind)
  }

  /** The last of this kind before step i. */
  predicate Last(states: seq<Sys>, acts: seq<Action>, j: nat, i: nat, n: string, kind: Kind)
    requires i <= |acts| <= |states|
  {
    j < i && Occurs(states, acts, j, n, kind) && NoneSince(states, acts, j + 1, i, n, kind)
  }

  ghost predicate LastIs(states: seq<Sys>, acts: seq<Action>, i: nat, n: string, kind: Kind, m: Mark)
    requires i <= |acts| <= |states|
  {
    exists j: nat :: Last(states, acts, j, i, n, kind) && MarkAt(states[j], acts[j], n) == m
  }

  ghost predicate HasAccepted(acts: seq<Action>, i: nat, n: string, task: Task, now: int)
    requires i <= |acts|
  {
    exists j :: 0 <= j < i && task.name == n &&
                (acts[j] == EnqueueSend(task, now)
                 || (acts[j].EnqueueHandoff? && acts[j].task == task && acts[j].now == now))
  }

  // What a record says.

  ghost predicate OutcomeTold(states: seq<Sys>, acts: seq<Action>, i: nat, n: string, r: Record)
    requires i <= |acts| <= |states|
  {
    && (match r.error
        case None => NoneSince(states, acts, 0, i, n, Failing)
        case Some(e) => exists now :: LastIs(states, acts, i, n, Failing, Reported(Err(e), now)))
    && (match r.result
        case None => NoneSince(states, acts, 0, i, n, Success)
        case Some(x) => exists now :: LastIs(states, acts, i, n, Success, Reported(Ok(x), now)))
  }

  /** Completed: reported, and not started since. Executing: started, and not reported since. Queued: neither. */
  ghost predicate StateTold(states: seq<Sys>, acts: seq<Action>, i: nat, n: string, r: Record)
    requires i <= |acts| <= |states|
  {
    match r.state
    case Completed =>
      && r.metadata.stage == StageCompleted
      && exists j: nat :: j < i && Occurs(states, acts, j, n, Report) && NoneSince(states, acts, j, i, n, Start)
    case Executing =>
      && r.metadata.stage == StageExecuting
      && exists j: nat :: j < i && Occurs(states, acts, j, n, Start) && NoneSince(states, acts, j, i, n, Report)
    case Queued =>
      && r.metadata.stage == StageQueued
      && NoneSince(states, acts, 0, i, n, Start) && NoneSince(states, acts, 0, i, n, Report)
  }

  ghost predicate TimesTold(states: seq<Sys>, acts: seq<Action>, i: nat, n: string, r: Record)
    requires i <= |acts| <= |states|
  {
    && (exists task :: HasAccepted(acts, i, n, task, r.createdAt) && r.metadata.actionDigest == task.actionDigest)
    && (exists j: nat :: Last(states, acts, j, i, n, Any) && MarkAt(states[j], acts[j], n).now == r.updatedAt)
  }

  ghost predicate Told(states: seq<Sys>, acts: seq<Action>, i: nat, n: string, r: Record)
    requires i <= |acts| <= |states|
  {
    && r.name == n
    && OutcomeTold(states, acts, i, n, r) && StateTold(states, acts, i, n, r) && TimesTold(states, acts, i, n, r)
  }

  ghost predicate History(states: seq<Sys>, acts: seq<Action>, i: nat, n: string)
    requires i <= |acts| < |states|
  {
    var s := states[i];
    && (!NamesIn(s.accepted, n) ==> NoneSince(states, acts, 0, i, n, Any))
    && (s.sending.Some? && s.sending.value.name == n ==> Told(states, acts, i, n, s.sending.value))
    && (n in s.core.operations ==> Told(states, acts, i, n, s.core.operations[n]))
  }

  // Records change as their marks say.

  function After(r: Record, m: Mark, digest: string): Record {
    match m
    case Nothing => r
    case Accepted(_, _) => r
    case Started(now) => r.(state := Executing, metadata := Metadata(StageExecuting, digest), updatedAt := now)
    case Reported(Ok(x), now) =>
      r.(state := Completed, metadata := Metadata(StageCompleted, r.metadata.actionDigest), result := Some(x),
         updatedAt := now)
    case Reported(Err(e), now) =>
      r.(state := Completed, metadata := Metadata(StageCompleted, r.metadata.actionDigest), error := Some(e),
         updatedAt := now)
  }

  function HeldDigest(s: Sys, a: Action): string {
    if a.StartTask? && a.worker in s.workers && s.workers[a.worker].Holding? then s.workers[a.worker].task.actionDigest
    else ""
  }

  lemma RecordStep(s: Sys, a: Action, n: string)
    requires Conserved(s) && Enabled(s, a)
    requires n in s.core.operations && n in Apply(s, a).core.operations
    ensures Apply(s, a).core.operations[n] == After(s.core.operations[n], MarkAt(s, a, n), HeldDigest(s, a))
  {
    if a.StartTask? {
      StartRecord(s, a, n);
    } else if a.FinishTask? || a.CompleteCached? || a.Cancel? {
      ReportRecord(s, a, n);
    } else {
      QuietSteps(s, a, Apply(s, a), n);
    }
  }

  lemma StartRecord(s: Sys, a: Action, n: string)
    requires Keyed(s.core) && Enabled(s, a) && a.StartTask? && n in s.core.operations
    ensures n in Apply(s, a).core.operations
    ensures Apply(s, a).core.operations[n] == After(s.core.operations[n], MarkAt(s, a, n), HeldDigest(s, a))
  {
    var t := s.workers[a.worker].task;
    if t.name in s.core.operations {
      StoredRecords(s.core, s.core.operations[t.name].(state := Executing, updatedAt := a.now,
                                                       metadata := Metadata(StageExecuting, t.actionDigest)));
    }
  }

  lemma ReportRecord(s: Sys, a: Action, n: string)
    requires Keyed(s.core) && Enabled(s, a) && (a.FinishTask? || a.CompleteCached? || a.Cancel?)
             && n in s.core.operations
    ensures n in Apply(s, a).core.operations
    ensures Apply(s, a).core.operations[n] == After(s.core.operations[n], MarkAt(s, a, n), HeldDigest(s, a))
  {
    if a.FinishTask? {
      FinishedRecord(s.core, s.workers[a.worker].task.name, a.outcome, a.now);
    } else if a.CompleteCached? {
      FinishedRecord(s.core, a.name, Ok(a.response), a.now);
    } else {
      StoredRecords(s.core, CompletedRecord(s.core.operations[a.name], a.now).(error := Some(Canceled)));
    }
  }

  lemma FinishedRecord(c: Core<nat>, m: string, o: Result<Response, Error>, now: int)
    requires Keyed(c)
    ensures Finished(c, m, o, now).operations ==
              if m in c.operations then c.operations[m := After(c.operations[m], Reported(o, now), "")]
              else c.operations
  {
    if m in c.operations {
      var r := CompletedRecord(c.operations[m], now);
      StoredRecords(c, if o.Ok? then r.(result := Some(o.value)) else r.(error := Some(o.error)));
    }
  }

  // One more step.

  lemma NoneNext(states: seq<Sys>, acts: seq<Action>, i: nat, n: string, kind: Kind)
    requires i < |acts| <= |states|
    ensures !Occurs(states, acts, i, n, kind) ==>
              forall j: nat :: NoneSince(states, acts, j, i, n, kind) ==> NoneSince(states, acts, j, i + 1, n, kind)
  {
  }

  lemma LastNext(states: seq<Sys>, acts: seq<Action>, i: nat, n: string, kind: Kind, m: Mark)
    requires i < |acts| <= |states|
    ensures !Occurs(states, acts, i, n, kind) && LastIs(states, acts, i, n, kind, m) ==>
              LastIs(states, acts, i + 1, n, kind, m)
    ensures Occurs(states, acts, i, n, kind) ==> LastIs(states, acts, i + 1, n, kind, MarkAt(states[i], acts[i], n))
  {
    if Occurs(states, acts, i, n, kind) {
      assert Last(states, acts, i, i + 1, n, kind);
    } else if LastIs(states, acts, i, n, kind, m) {
      var j: nat :| Last(states, acts, j, i, n, kind) && MarkAt(states[j], acts[j], n) == m;
      assert Last(states, acts, j, i + 1, n, kind);
    }
  }

  lemma OutcomeNext(states: seq<Sys>, acts: seq<Action>, i: nat, n: string, r: Record, digest: string)
    requires i < |acts| <= |states| && OutcomeTold(states, acts, i, n, r)
    ensures OutcomeTold(states, acts, i + 1, n, After(r, MarkAt(states[i], acts[i], n), digest))
  {
    var m := MarkAt(states[i], acts[i], n);
    ErrorNext(states, acts, i, n, r, digest);
    NoneNext(states, acts, i, n, Success);
    LastNext(states, acts, i, n, Success, m);
    if r.result.Some? && !Is(m, Success) {
      var now :| LastIs(states, acts, i, n, Success, Reported(Ok(r.result.value), now));
      LastNext(states, acts, i, n, Success, Reported(Ok(r.result.value), now));
    }
  }

  lemma ErrorNext(states: seq<Sys>, acts: seq<Action>, i: nat, n: string, r: Record, digest: string)
    requires i < |acts| <= |states| && OutcomeTold(states, acts, i, n, r)
    ensures match After(r, MarkAt(states[i], acts[i], n), digest).error
            case None => NoneSince(states, acts, 0, i + 1, n, Failing)
            case Some(e) => exists now :: LastIs(states, acts, i + 1, n, Failing, Reported(Err(e), now))
  {
    var m := MarkAt(states[i], acts[i], n);
    NoneNext(states, acts, i, n, Failing);
    LastNext(states, acts, i, n, Failing, m);
    if r.error.Some? && !Is(m, Failing) {
      var now :| LastIs(states, acts, i, n, Failing, Reported(Err(r.error.value), now));
      LastNext(states, acts, i, n, Failing, Reported(Err(r.error.value), now));
    }
  }

  lemma StateNext(states: seq<Sys>, acts: seq<Action>, i: nat, n: string, r: Record, digest: string)
    requires i < |acts| <= |states| && StateTold(states, acts, i, n, r)
    ensures StateTold(states, acts, i + 1, n, After(r, MarkAt(states[i], acts[i], n), digest))
  {
    NoneNext(states, acts, i, n, Start);
    NoneNext(states, acts, i, n, Report);
    match MarkAt(states[i], acts[i], n)
    case Started(_) => assert Occurs(states, acts, i, n, Start) && NoneSince(states, acts, i, i + 1, n, Report);
    case Reported(_, _) => assert Occurs(states, acts, i, n, Report) && NoneSince(states, acts, i, i + 1, n, Start);
    case _ =>
  }

  lemma AcceptedNext(acts: seq<Action>, i: nat, n: string, task: Task, now: int)
    requires i < |acts| && HasAccepted(acts, i, n, task, now)
    ensures HasAccepted(acts, i + 1, n, task, now)
  {
  }

  lemma TimesNext(states: seq<Sys>, acts: seq<Action>, i: nat, n: string, r: Record, digest: string)
    requires i < |acts| <= |states| && TimesTold(states, acts, i, n, r)
    requires var m := MarkAt(states[i], acts[i], n);
             !m.Accepted? && (m.Started? ==> digest == r.metadata.actionDigest)
    ensures TimesTold(states, acts, i + 1, n, After(r, MarkAt(states[i], acts[i], n), digest))
  {
    var m := MarkAt(states[i], acts[i], n);
    assert exists task ::
             HasAccepted(acts, i + 1, n, task, r.createdAt) && r.metadata.actionDigest == task.actionDigest by {
      var task :| HasAccepted(acts, i, n, task, r.createdAt) && r.metadata.actionDigest == task.actionDigest;
      AcceptedNext(acts, i, n, task, r.createdAt);
    }
    if Is(m, Any) {
      assert Last(states, acts, i, i + 1, n, Any);
    } else {
      var j: nat :| Last(states, acts, j, i, n, Any) && MarkAt(states[j], acts[j], n).now == r.updatedAt;
      assert Last(states, acts, j, i + 1, n, Any);
    }
  }

  lemma ToldNext(states: seq<Sys>, acts: seq<Action>, i: nat, n: string, r: Record, digest: string)
    requires i < |acts| <= |states| && Told(states, acts, i, n, r)
    requires var m := MarkAt(states[i], acts[i], n);
             !m.Accepted? && (m.Started? ==> digest == r.metadata.actionDigest)
    ensures Told(states, acts, i + 1, n, After(r, MarkAt(states[i], acts[i], n), digest))
  {
    OutcomeNext(states, acts, i, n, r, digest);
    StateNext(states, acts, i, n, r, digest);
    TimesNext(states, acts, i, n, r, digest);
  }

  /** A new record, of an operation to which nothing has happened before. */
  lemma ToldNew(states: seq<Sys>, acts: seq<Action>, i: nat, n: string, task: Task, now: int)
    requires i < |acts| <= |states| && NoneSince(states, acts, 0, i, n, Any) && task.name == n
    requires MarkAt(states[i], acts[i], n) == Accepted(task, now)
    ensures Told(states, acts, i + 1, n, NewRecord(task, now))
  {
    assert Last(states, acts, i, i + 1, n, Any);
    assert HasAccepted(acts, i + 1, n, task, now);
    OnlyAccepted(states, acts, i, n, Success);
    OnlyAccepted(states, acts, i, n, Failing);
    OnlyAccepted(states, acts, i, n, Report);
    OnlyAccepted(states, acts, i, n, Start);
  }

  lemma OnlyAccepted(states: seq<Sys>, acts: seq<Action>, i: nat, n: string, kind: Kind)
    requires i < |acts| <= |states| && NoneSince(states, acts, 0, i, n, Any)
    requires MarkAt(states[i], acts[i], n).Accepted? && kind != Any
    ensures NoneSince(states, acts, 0, i + 1, n, kind)
  {
    forall k | 0 <= k < i + 1 ensures !Occurs(states, acts, k, n, kind) {
      if k < i { assert !Occurs(states, acts, k, n, Any); }
    }
  }

  // Over runs.

  lemma {:induction false} AcceptedListed(states: seq<Sys>, acts: seq<Action>, i: nat, n: string, task: Task, now: int)
    requires IsRun(states, acts) && i < |states| && HasAccepted(acts, i, n, task, now)
    ensures task in states[i].accepted
  {
    var j :| 0 <= j < i && task.name == n &&
             (acts[j] == EnqueueSend(task, now)
              || (acts[j].EnqueueHandoff? && acts[j].task == task && acts[j].now == now));
    if j < i - 1 {
      assert HasAccepted(acts, i - 1, n, task, now);
      AcceptedListed(states, acts, i - 1, n, task, now);
    }
    AcceptedStays(states, acts, i - 1, task);
  }

  lemma AcceptedStays(states: seq<Sys>, acts: seq<Action>, i: nat, task: Task)
    requires IsRun(states, acts) && i < |acts|
    requires task in states[i].accepted || ((acts[i].EnqueueSend? || acts[i].EnqueueHandoff?) && acts[i].task == task)
    ensures task in states[i + 1].accepted
  {
    assert StepAt(states, acts, i);
    AcceptedGrows(states[i], acts[i], task);
  }

  lemma AcceptedGrows(s: Sys, a: Action, task: Task)
    requires Keyed(s.core) && Enabled(s, a)
    requires task in s.accepted || ((a.EnqueueSend? || a.EnqueueHandoff?) && a.task == task)
    ensures task in Apply(s, a).accepted
  {
    if (a.EnqueueSend? || a.EnqueueHandoff?) && a.task == task {
      assert Apply(s, a).accepted[|s.accepted|] == task;
    }
  }

  /** The task a worker starts is the one that was accepted under its name. */
  lemma StartedDigest(states: seq<Sys>, acts: seq<Action>, i: nat, n: string, r: Record)
    requires IsRun(states, acts) && i < |acts| && TimesTold(states, acts, i, n, r)
    requires MarkAt(states[i], acts[i], n).Started?
    ensures HeldDigest(states[i], acts[i]) == r.metadata.actionDigest
  {
    var s := states[i];
    var task :| HasAccepted(acts, i, n, task, r.createdAt) && r.metadata.actionDigest == task.actionDigest;
    AcceptedListed(states, acts, i, n, task, r.createdAt);
    RunConserves(states, acts, i);
    var held := s.workers[acts[i].worker].task;
    assert held in s.accepted by { assert held in s.taken; }
    assert held.name == task.name;
  }

  /** Everything a record says follows from what happened to its operation. */
  lemma {:induction false} RunHistory(states: seq<Sys>, acts: seq<Action>, i: nat, n: string)
    requires IsRun(states, acts) && i < |states|
    ensures History(states, acts, i, n)
  {
    if i == 0 {
      HistoryInit(states, acts, n);
    } else {
      RunHistory(states, acts, i - 1, n);
      HistoryNext(states, acts, i - 1, n);
    }
  }

  lemma HistoryInit(states: seq<Sys>, acts: seq<Action>, n: string)
    requires |acts| < |states| && states[0].sending.None? && states[0].core.operations == map[]
    ensures History(states, acts, 0, n)
  {
  }

  lemma HistoryNext(states: seq<Sys>, acts: seq<Action>, i: nat, n: string)
    requires IsRun(states, acts) && i < |acts| && History(states, acts, i, n)
    ensures History(states, acts, i + 1, n)
  {
    HistoryUnaccepted(states, acts, i, n);
    HistorySending(states, acts, i, n);
    HistoryTracked(states, acts, i, n);
  }

  lemma HistoryUnaccepted(states: seq<Sys>, acts: seq<Action>, i: nat, n: string)
    requires IsRun(states, acts) && i < |acts| && History(states, acts, i, n)
    ensures !NamesIn(states[i + 1].accepted, n) ==> NoneSince(states, acts, 0, i + 1, n, Any)
  {
    if !NamesIn(states[i + 1].accepted, n) {
      assert !NamesIn(states[i].accepted, n) && !Occurs(states, acts, i, n, Any) by {
        RunConserves(states, acts, i);
        assert StepAt(states, acts, i);
        Unmarked(states[i], acts[i], n);
      }
      NoneNext(states, acts, i, n, Any);
    }
  }

  /** Nothing happens to an operation that has not been accepted. */
  lemma Unmarked(s: Sys, a: Action, n: string)
    requires Conserved(s) && Enabled(s, a) && !NamesIn(Apply(s, a).accepted, n)
    ensures !NamesIn(s.accepted, n) && MarkAt(s, a, n) == Nothing
  {
    if a.EnqueueSend? || a.EnqueueHandoff? { NamesInAppend(s.accepted, a.task, n); }
    assert !Known(s, n);
  }

  lemma HistorySending(states: seq<Sys>, acts: seq<Action>, i: nat, n: string)
    requires IsRun(states, acts) && i < |acts| && History(states, acts, i, n)
    ensures var sending := states[i + 1].sending;
            sending.Some? && sending.value.name == n ==> Told(states, acts, i + 1, n, sending.value)
  {
    RunConserves(states, acts, i);
    assert StepAt(states, acts, i);
    var sending := states[i + 1].sending;
    if sending.Some? && sending.value.name == n {
      if acts[i].EnqueueSend? || acts[i].EnqueueHandoff? {
        ToldNew(states, acts, i, n, acts[i].task, acts[i].now);
      } else {
        assert MarkAt(states[i], acts[i], n) == Nothing;
        ToldNext(states, acts, i, n, sending.value, "");
      }
    }
  }

  lemma HistoryTracked(states: seq<Sys>, acts: seq<Action>, i: nat, n: string)
    requires IsRun(states, acts) && i < |acts| && History(states, acts, i, n)
    ensures n in states[i + 1].core.operations ==> Told(states, acts, i + 1, n, states[i + 1].core.operations[n])
  {
    RunConserves(states, acts, i);
    assert StepAt(states, acts, i);
    if n in states[i + 1].core.operations {
      MembershipSteps(states[i], acts[i], n);
      if n in states[i].core.operations {
        var r := states[i].core.operations[n];
        RecordStep(states[i], acts[i], n);
        if MarkAt(states[i], acts[i], n).Started? { StartedDigest(states, acts, i, n, r); }
        assert !MarkAt(states[i], acts[i], n).Accepted?;
        ToldNext(states, acts, i, n, r, HeldDigest(states[i], acts[i]));
      } else {
        assert MarkAt(states[i], acts[i], n) == Nothing;
        ToldNext(states, acts, i, n, states[i].sending.value, "");
      }
    }
  }

  // The results.

  /** What a client is shown of operation n at step i. It is done exactly if something was reported for it and its
      worker has not started since; then it carries the last error reported for it or, if there was none, the last
      response. */
  ghost predicate Shows(states: seq<Sys>, acts: seq<Action>, i: nat, n: string, p: Operation)
    requires i <= |acts| <= |states|
  {
    && p.name == n
    && (exists task, now :: HasAccepted(acts, i, n, task, now) && p.metadata.actionDigest == task.actionDigest)
    && (p.done <==> exists j: nat ::
          j < i && Occurs(states, acts, j, n, Report) && NoneSince(states, acts, j, i, n, Start))
    && (p.metadata.stage == StageCompleted <==> p.done)
    && (p.metadata.stage == StageQueued <==>
          NoneSince(states, acts, 0, i, n, Start) && NoneSince(states, acts, 0, i, n, Report))
    && match p.result
       case NoResult => !p.done
       case ErrorResult(e) => p.done && exists now :: LastIs(states, acts, i, n, Failing, Reported(Err(e), now))
       case ResponseResult(x) =>
         && p.done && NoneSince(states, acts, 0, i, n, Failing)
         && exists now :: LastIs(states, acts, i, n, Success, Reported(Ok(x), now))
  }

  lemma StateExactly(states: seq<Sys>, acts: seq<Action>, i: nat, n: string, r: Record)
    requires i <= |acts| <= |states| && StateTold(states, acts, i, n, r)
    ensures r.state == Completed
            <==> exists j: nat :: j < i && Occurs(states, acts, j, n, Report) && NoneSince(states, acts, j, i, n, Start)
    ensures r.state == Queued <==> NoneSince(states, acts, 0, i, n, Start) && NoneSince(states, acts, 0, i, n, Report)
  {
    if r.state == Executing {
      var j: nat :| j < i && Occurs(states, acts, j, n, Start) && NoneSince(states, acts, j, i, n, Report);
      forall k: nat | k < i && Occurs(states, acts, k, n, Report) ensures !NoneSince(states, acts, k, i, n, Start) {
        assert k < j;
      }
    } else if r.state == Queued {
      forall k: nat | k < i ensures !Occurs(states, acts, k, n, Report) {}
    }
  }

  lemma ShownRecord(states: seq<Sys>, acts: seq<Action>, i: nat, n: string)
    requires IsRun(states, acts) && i < |states| && n in states[i].core.operations
    ensures Shows(states, acts, i, n, ToProto(states[i].core.operations[n]))
  {
    var r := states[i].core.operations[n];
    RunHistory(states, acts, i, n);
    RunOutcomes(states, acts, i);
    assert Known(states[i], n);
    StateExactly(states, acts, i, n, r);
  }

  /** Every snapshot a handler takes, in every run. */
  lemma SnapshotExactly(states: seq<Sys>, acts: seq<Action>, i: nat, ch: nat)
    requires IsRun(states, acts) && i < |acts| && acts[i] == Look(ch)
    ensures ch in states[i].readers && ch in states[i + 1].readers
    ensures var n := states[i].readers[ch].name;
            n in states[i].core.operations ==>
              && states[i + 1].readers[ch].snapshot.Some?
              && Shows(states, acts, i, n, states[i + 1].readers[ch].snapshot.value)
  {
    assert StepAt(states, acts, i);
    var n := states[i].readers[ch].name;
    if n in states[i].core.operations {
      ShownRecord(states, acts, i, n);
    }
  }

  /** Once its worker has finished an operation, it is not started, cancelled or finished again. */
  lemma AfterFinish(states: seq<Sys>, acts: seq<Action>, j: nat, k: nat, n: string)
    requires IsRun(states, acts) && j < k < |acts| && Ends(states[j], acts[j], n)
    ensures !Occurs(states, acts, k, n, Start)
    ensures Occurs(states, acts, k, n, Report) ==> acts[k].CompleteCached? && acts[k].name == n
  {
    assert StepAt(states, acts, j);
    assert StepAt(states, acts, k);
    HistoryGrows(states, acts, j + 1, k);
    RunConserves(states, acts, k);
    assert n in states[k].started && n in states[k].finished by { RunConserves(states, acts, j + 1); }
  }

  lemma SameLast(states: seq<Sys>, acts: seq<Action>, j: nat, k: nat, i: nat, n: string, kind: Kind)
    requires i <= |acts| <= |states| && Last(states, acts, j, i, n, kind) && Last(states, acts, k, i, n, kind)
    ensures j == k
  {
  }

  /** The worker of operation n finishes it at step j, with a response or an error, while it is tracked. Every later
      snapshot is done. It carries that error; or that response, unless an error was reported before or the operation
      was completed from the cache since. */
  lemma FinishShown(states: seq<Sys>, acts: seq<Action>, j: nat, i: nat, n: string, ch: nat)
    requires IsRun(states, acts) && j < i < |acts| && acts[i] == Look(ch)
    requires Ends(states[j], acts[j], n) && n in states[j].core.operations
    requires ch in states[i].readers && states[i].readers[ch].name == n && n in states[i].core.operations
    ensures ch in states[i + 1].readers && states[i + 1].readers[ch].snapshot.Some?
    ensures var p := states[i + 1].readers[ch].snapshot.value;
            && p.name == n && p.done && p.metadata.stage == StageCompleted
            && match acts[j].outcome
               case Err(e) => p.result == ErrorResult(e)
               case Ok(x) =>
                 && (p.result.ResponseResult? <==> NoneSince(states, acts, 0, i, n, Failing))
                 && (p.result.ResponseResult? && NoneSince(states, acts, j + 1, i, n, Success) ==>
                       p.result == ResponseResult(x))
  {
    SnapshotExactly(states, acts, i, ch);
    QuietAfterFinish(states, acts, j, i, n);
    ShownOutcome(states, acts, j, i, n, states[i + 1].readers[ch].snapshot.value);
  }

  lemma QuietAfterFinish(states: seq<Sys>, acts: seq<Action>, j: nat, i: nat, n: string)
    requires IsRun(states, acts) && j < i <= |acts| && Ends(states[j], acts[j], n)
    ensures NoneSince(states, acts, j, i, n, Start) && NoneSince(states, acts, j + 1, i, n, Failing)
  {
    forall k | j < k < i ensures !Occurs(states, acts, k, n, Start) && !Occurs(states, acts, k, n, Failing) {
      AfterFinish(states, acts, j, k, n);
    }
  }

  lemma ShownOutcome(states: seq<Sys>, acts: seq<Action>, j: nat, i: nat, n: string, p: Operation)
    requires j < i <= |acts| <= |states| && Shows(states, acts, i, n, p) && MarkAt(states[j], acts[j], n).Reported?
    requires NoneSince(states, acts, j, i, n, Start) && NoneSince(states, acts, j + 1, i, n, Failing)
    ensures p.done
    ensures match MarkAt(states[j], acts[j], n).outcome
            case Err(e) => p.result == ErrorResult(e)
            case Ok(x) =>
              && (p.result.ResponseResult? <==> NoneSince(states, acts, 0, i, n, Failing))
              && (p.result.ResponseResult? && NoneSince(states, acts, j + 1, i, n, Success) ==>
                    p.result == ResponseResult(x))
  {
    assert Occurs(states, acts, j, n, Report);
    match MarkAt(states[j], acts[j], n).outcome
    case Err(e) =>
      assert Last(states, acts, j, i, n, Failing);
      LastIsAt(states, acts, j, i, n, Failing);
    case Ok(x) =>
      if NoneSince(states, acts, j + 1, i, n, Success) {
        assert Last(states, acts, j, i, n, Success);
        LastIsAt(states, acts, j, i, n, Success);
      }
  }

  lemma LastIsAt(states: seq<Sys>, acts: seq<Action>, j: nat, i: nat, n: string, kind: Kind)
    requires i <= |acts| <= |states| && Last(states, acts, j, i, n, kind)
    ensures forall m :: LastIs(states, acts, i, n, kind, m) ==> m == MarkAt(states[j], acts[j], n)
  {
    forall m | LastIs(states, acts, i, n, kind, m) ensures m == MarkAt(states[j], acts[j], n) {
      var k: nat :| Last(states, acts, k, i, n, kind) && MarkAt(states[k], acts[k], n) == m;
      SameLast(states, acts, j, k, i, n, kind);
    }
  }

  /** A cancel of operation n is accepted at step j. Every later snapshot that is done carries Canceled, unless its
      worker has run it all the same and failed: then that failure, as above. */
  lemma CancelShown(states: seq<Sys>, acts: seq<Action>, j: nat, i: nat, n: string, ch: nat)
    requires IsRun(states, acts) && j < i < |acts| && acts[i] == Look(ch)
    requires acts[j].Cancel? && acts[j].name == n
    requires ch in states[i].readers && states[i].readers[ch].name == n && n in states[i].core.operations
    ensures ch in states[i + 1].readers && states[i + 1].readers[ch].snapshot.Some?
    ensures var p := states[i + 1].readers[ch].snapshot.value;
            p.done ==>
              || p.result == ErrorResult(Canceled)
              || exists k :: j < k < i && Ends(states[k], acts[k], n) && acts[k].outcome.Err?
                             && p.result == ErrorResult(acts[k].outcome.error)
  {
    SnapshotExactly(states, acts, i, ch);
    var p := states[i + 1].readers[ch].snapshot.value;
    assert MarkAt(states[j], acts[j], n).Reported? by { assert StepAt(states, acts, j); }
    if p.done {
      FailureSince(states, acts, j, i, n, p.result);
    }
  }

  lemma FailureSince(states: seq<Sys>, acts: seq<Action>, j: nat, i: nat, n: string, result: OpResult)
    requires j < i <= |acts| <= |states| && Occurs(states, acts, j, n, Failing)
    requires match result
             case NoResult => false
             case ErrorResult(e) => exists now :: LastIs(states, acts, i, n, Failing, Reported(Err(e), now))
             case ResponseResult(_) => NoneSince(states, acts, 0, i, n, Failing)
    requires acts[j].Cancel?
    ensures || result == ErrorResult(Canceled)
            || exists k :: j < k < i && Ends(states[k], acts[k], n) && acts[k].outcome.Err?
                           && result == ErrorResult(acts[k].outcome.error)
  {
    var now :| LastIs(states, acts, i, n, Failing, Reported(Err(result.error), now));
    var k: nat :| Last(states, acts, k, i, n, Failing)
      && MarkAt(states[k], acts[k], n) == Reported(Err(result.error), now);
    assert j <= k;
    assert acts[k].Cancel? || Ends(states[k], acts[k], n);
  }

  lemma {:induction false} SameRetention(states: seq<Sys>, acts: seq<Action>, i: nat)
    requires IsRun(states, acts) && i < |states|
    ensures states[i].core.retention == states[0].core.retention
  {
    if i > 0 {
      SameRetention(states, acts, i - 1);
      assert StepAt(states, acts, i - 1);
    }
  }

  /** A cleanup removes an operation exactly if it is done, by what was reported for it, and the last thing that
      happened to it is longer ago than the retention the scheduler was set up with. */
  lemma ExpiresExactly(states: seq<Sys>, acts: seq<Action>, i: nat, n: string)
    requires IsRun(states, acts) && i < |acts| && acts[i].Expire? && n in states[i].core.operations
    ensures n !in states[i + 1].core.operations
            <==> && (exists j: nat ::
                       j < i && Occurs(states, acts, j, n, Report) && NoneSince(states, acts, j, i, n, Start))
                 && (exists j: nat ::
                       && Last(states, acts, j, i, n, Any)
                       && MarkAt(states[j], acts[j], n).now < acts[i].now - states[0].core.retention)
  {
    RunHistory(states, acts, i, n);
    SameRetention(states, acts, i);
    assert StepAt(states, acts, i);
    var r := states[i].core.operations[n];
    StateExactly(states, acts, i, n, r);
    var j: nat :| Last(states, acts, j, i, n, Any) && MarkAt(states[j], acts[j], n).now == r.updatedAt;
    forall k: nat | Last(states, acts, k, i, n, Any) ensures k == j { SameLast(states, acts, j, k, i, n, Any); }
  }
}
