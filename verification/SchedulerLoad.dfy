/**
 What `executingCount` counts, and how large the reported load can get.
 */
module SchedulerLoad {
  import opened Wrappers
  import opened SchedulerCore
  import opened SchedulerSystem
  import opened SchedulerConservation

  function ExecutingNames(c: Core<nat>): set<string> {
    set n | n in c.operations && c.operations[n].state == Executing
  }

  /** `GetPendingTaskCount`. */
  function ReportedLoad(s: Sys): int {
    PendingTasks(s.core)
  }

  ghost predicate RunsIt(s: Sys, w: nat, n: string) {
    w in s.workers && s.workers[w].Running? && s.workers[w].task.name == n
  }

  ghost predicate Accounted(s: Sys) {
    && s.core.executingCount == |ExecutingNames(s.core)| + |s.removedExecuting|
    && (forall n :: n in s.removedExecuting ==> n in s.detached)
    && (forall n :: n in ExecutingNames(s.core) ==> exists w :: RunsIt(s, w, n))
  }

  lemma StoredCount(c: Core<nat>, r: Record)
    requires Keyed(c) && r.name in c.operations
    ensures var c' := Stored(c, r);
            && c'.executingCount - c.executingCount == |ExecutingNames(c')| - |ExecutingNames(c)|
            && ExecutingNames(c') == if r.state == Executing then ExecutingNames(c) + {r.name}
                                     else ExecutingNames(c) - {r.name}
  {
    var c' := Stored(c, r);
    assert ExecutingNames(c') == if r.state == Executing then ExecutingNames(c) + {r.name}
                                 else ExecutingNames(c) - {r.name};
  }

  lemma StillRuns(s: Sys, s': Sys)
    requires forall n :: n in ExecutingNames(s.core) ==> exists w :: RunsIt(s, w, n)
    requires ExecutingNames(s'.core) <= ExecutingNames(s.core)
    requires forall w, n :: RunsIt(s, w, n) ==> n in ExecutingNames(s'.core) ==> RunsIt(s', w, n)
    ensures forall n :: n in ExecutingNames(s'.core) ==> exists w :: RunsIt(s', w, n)
  {
    forall n | n in ExecutingNames(s'.core) ensures exists w :: RunsIt(s', w, n) {
      var w :| RunsIt(s, w, n);
      assert RunsIt(s', w, n);
    }
  }

  lemma SameTableAccounted(s: Sys, s': Sys)
    requires Accounted(s)
    requires ExecutingNames(s'.core) == ExecutingNames(s.core) && s'.core.executingCount == s.core.executingCount
    requires s'.removedExecuting == s.removedExecuting && s.detached.Keys <= s'.detached.Keys
    requires forall w, n :: RunsIt(s, w, n) ==> RunsIt(s', w, n)
    ensures Accounted(s')
  {
    StillRuns(s, s');
  }

  lemma TableAccounted(s: Sys, a: Action)
    requires Conserved(s) && Accounted(s) && Enabled(s, a)
    requires a.CompleteCached? || a.Cancel?
    ensures Accounted(Apply(s, a))
  {
    var s' := Apply(s, a);
    match a
    case CompleteCached(n, r, now) =>
      if n in s.core.operations {
        StoredCount(s.core, CompletedRecord(s.core.operations[n], now).(result := Some(r)));
      }
      StillRuns(s, s');
    case Cancel(n, now) =>
      StoredCount(s.core, CompletedRecord(s.core.operations[n], now).(error := Some(Canceled)));
      StillRuns(s, s');
  }

  lemma DeletedCount(c: Core<nat>, n: string)
    requires n in c.operations
    ensures ExecutingNames(Deleted(c, n)) == ExecutingNames(c) - {n}
    ensures |ExecutingNames(c)| == |ExecutingNames(Deleted(c, n))| + if c.operations[n].state == Executing then 1 else 0
  {
    assert ExecutingNames(Deleted(c, n)) == ExecutingNames(c) - {n};
    if c.operations[n].state == Executing { assert ExecutingNames(c) == ExecutingNames(Deleted(c, n)) + {n}; }
  }

  lemma DeleteAccounted(s: Sys, n: string)
    requires Records(s) && Accounted(s) && Enabled(s, Delete(n))
    ensures Accounted(Apply(s, Delete(n)))
  {
    var s' := Apply(s, Delete(n));
    DeletedCount(s.core, n);
    assert n !in s.removedExecuting;
    assert s'.workers == s.workers;
    StillRuns(s, s');
  }

  /** Steps that neither start nor end an execution, and remove no executing record. */
  lemma QuietAccounted(s: Sys, a: Action)
    requires Records(s) && Accounted(s) && Enabled(s, a)
    requires !(a.StartTask? || a.FinishTask? || a.CompleteCached? || a.Cancel? || a.Delete?)
    ensures Accounted(Apply(s, a))
  {
    var s' := Apply(s, a);
    assert ExecutingNames(s'.core) == ExecutingNames(s.core);
    SameTableAccounted(s, s');
  }

  lemma AccountedStep(s: Sys, a: Action)
    requires Conserved(s) && Accounted(s) && Enabled(s, a)
    ensures Accounted(Apply(s, a))
  {
    if a.StartTask? {
      StartAccounted(s, a);
    } else if a.FinishTask? {
      FinishAccounted(s, a);
    } else if a.CompleteCached? || a.Cancel? {
      TableAccounted(s, a);
    } else if a.Delete? {
      DeleteAccounted(s, a.name);
    } else {
      QuietAccounted(s, a);
    }
  }

  lemma StartAccounted(s: Sys, a: Action)
    requires Conserved(s) && Accounted(s) && Enabled(s, a) && a.StartTask?
    ensures Accounted(Apply(s, a))
  {
    var s' := Apply(s, a);
    var task := s.workers[a.worker].task;
    var n := task.name;
    if n in s.core.operations {
      StoredCount(s.core,
                  s.core.operations[n].(state := Executing, metadata := Metadata(StageExecuting, task.actionDigest),
                                        updatedAt := a.now));
      assert RunsIt(s', a.worker, n);
    }
    forall m | m in ExecutingNames(s'.core) ensures exists w :: RunsIt(s', w, m) {
      if m != n {
        var w :| RunsIt(s, w, m);
        assert RunsIt(s', w, m);
      }
    }
  }

  lemma FinishAccounted(s: Sys, a: Action)
    requires Conserved(s) && Accounted(s) && Enabled(s, a) && a.FinishTask?
    ensures Accounted(Apply(s, a))
  {
    var s' := Apply(s, a);
    var n := s.workers[a.worker].task.name;
    if n in s.core.operations {
      var r := CompletedRecord(s.core.operations[n], a.now);
      StoredCount(s.core, if a.outcome.Ok? then r.(result := Some(a.outcome.value))
                  else r.(error := Some(a.outcome.error)));
    }
    assert n !in ExecutingNames(s'.core);
    forall w, m | RunsIt(s, w, m) && m in ExecutingNames(s'.core) ensures RunsIt(s', w, m) {}
    StillRuns(s, s');
  }

  lemma AccountedNext(states: seq<Sys>, acts: seq<Action>, i: nat)
    requires IsRun(states, acts) && 0 < i < |states| && Accounted(states[i - 1])
    ensures Accounted(states[i])
  {
    RunConserves(states, acts, i - 1);
    assert StepAt(states, acts, i - 1);
    AccountedStep(states[i - 1], acts[i - 1]);
  }

  /** In every state of every run, the count is the number of tracked records in
      StateExecuting plus the number of operations deleted while executing. */
  lemma {:induction false} ExecutingCountExact(states: seq<Sys>, acts: seq<Action>, i: nat)
    requires IsRun(states, acts) && i < |states|
    ensures Accounted(states[i]) && states[i].core.executingCount >= 0
  {
    if i == 0 {
      assert ExecutingNames(states[0].core) == {};
    } else {
      ExecutingCountExact(states, acts, i - 1);
      AccountedNext(states, acts, i);
    }
  }

  ghost predicate DeletesExecuting(s: Sys, a: Action) {
    a.Delete? && a.name in s.core.operations && s.core.operations[a.name].state == Executing
  }

  lemma {:induction false} RemovedExecutingHistory(states: seq<Sys>, acts: seq<Action>, i: nat)
    requires IsRun(states, acts) && i < |states|
    ensures states[i].removedExecuting == {} <==> forall j :: 0 <= j < i ==> !DeletesExecuting(states[j], acts[j])
  {
    if i == 0 {
    } else {
      RemovedExecutingHistory(states, acts, i - 1);
      assert StepAt(states, acts, i - 1);
      if DeletesExecuting(states[i - 1], acts[i - 1]) {
        assert acts[i - 1].name in states[i].removedExecuting;
      } else {
        assert states[i].removedExecuting == states[i - 1].removedExecuting;
      }
    }
  }

  /** The count equals the number of executing records exactly when no executing
      operation was ever deleted: each such deletion leaks one, for good. */
  lemma CountMatchesIffNoExecutingDelete(states: seq<Sys>, acts: seq<Action>, i: nat)
    requires IsRun(states, acts) && i < |states|
    ensures states[i].core.executingCount == |ExecutingNames(states[i].core)|
            <==> forall j :: 0 <= j < i ==> !DeletesExecuting(states[j], acts[j])
  {
    ExecutingCountExact(states, acts, i);
    RemovedExecutingHistory(states, acts, i);
  }

  /** Distinct tasks are run by distinct workers. */
  lemma {:induction false} RunningFit(s: Sys, names: set<string>, pool: set<nat>)
    requires forall n :: n in names ==> exists w :: w in pool && RunsIt(s, w, n)
    ensures |names| <= |pool|
    decreases |names|
  {
    if names == {} {
    } else {
      var n :| n in names;
      var w :| w in pool && RunsIt(s, w, n);
      forall m | m in names - {n} ensures exists v :: v in pool - {w} && RunsIt(s, v, m) {
        var v :| v in pool && RunsIt(s, v, m);
        assert v != w;
      }
      RunningFit(s, names - {n}, pool - {w});
    }
  }

  lemma {:induction false} PoolFixed(states: seq<Sys>, acts: seq<Action>, i: nat)
    requires IsRun(states, acts) && i < |states|
    ensures states[i].workers.Keys == states[0].workers.Keys && states[i].core.queueSize == states[0].core.queueSize
  {
    if i > 0 {
      PoolFixed(states, acts, i - 1);
      assert StepAt(states, acts, i - 1);
    }
  }

  /** Reported load is what is queued, what executes, and what was deleted while executing. It never exceeds the queue
      capacity plus the worker concurrency, plus one for each operation deleted while executing. */
  lemma LoadBound(states: seq<Sys>, acts: seq<Action>, i: nat)
    requires IsRun(states, acts) && i < |states|
    ensures var c := states[i].core;
            ReportedLoad(states[i]) == |c.queue| + |set n | n in c.operations && c.operations[n].state == Executing|
                                       + |states[i].removedExecuting|
    ensures ReportedLoad(states[i])
            <= states[0].core.queueSize + |states[0].workers| + |states[i].removedExecuting|
    ensures (forall j :: 0 <= j < i ==> !DeletesExecuting(states[j], acts[j]))
            ==> 0 <= ReportedLoad(states[i]) <= states[0].core.queueSize + |states[0].workers|
  {
    var s := states[i];
    RunConserves(states, acts, i);
    ExecutingCountExact(states, acts, i);
    RemovedExecutingHistory(states, acts, i);
    PoolFixed(states, acts, i);
    forall n | n in ExecutingNames(s.core) ensures exists w :: w in s.workers.Keys && RunsIt(s, w, n) {
      var w :| RunsIt(s, w, n);
      assert w in s.workers.Keys;
    }
    RunningFit(s, ExecutingNames(s.core), s.workers.Keys);
    assert |s.workers.Keys| == |s.workers|;
    assert |states[0].workers.Keys| == |states[0].workers|;
  }
}
