/**
 Scheduler, worker pool and streaming handlers as one transition system.

 A step is one critical section of the scheduler mutex, or one action that the
 source performs outside the mutex: the channel send inside `Enqueue` (which a
 worker may receive before the record is inserted), `Dequeue`, a handler's
 receive, and a handler's test of the record it received a pointer to.
 */
module SchedulerSystem {
  import opened Wrappers
  import opened SchedulerCore

  /** Holding: dequeued, first UpdateState still ahead. Running: after it. */
  datatype Worker = Idle | Holding(task: Task) | Running(task: Task) | Stopped

  /** Program counter of a handler's `range` loop. Received: a pointer was taken
      from the channel. Looked: a snapshot was taken, the state test is ahead.
      Observed: the test saw Completed. Left: unsubscribed. */
  datatype ReaderPc = AtReceive | Received(msg: string) | Looked(msg: string) | Observed | Left

  datatype Reader = Reader(name: string, pc: ReaderPc, snapshot: Option<Operation>)

  datatype Sys = Sys(
    core: Core<nat>,
    // The lock is held by an Enqueue that has sent its task and not yet inserted this record.
    sending: Option<Record>,
    workers: map<nat, Worker>,
    readers: map<nat, Reader>,
    // Records removed from the table; handlers may still hold pointers to them.
    detached: map<string, Record>,
    // History.
    accepted: seq<Task>,
    taken: seq<Task>,
    started: set<string>,
    finished: set<string>,
    cancelled: set<string>,
    removedExecuting: set<string>)

  datatype Action =
    | EnqueueSend(task: Task, now: int)
    | EnqueueHandoff(task: Task, now: int, worker: nat)
    | EnqueueInsert
    | Dequeue(worker: nat)
    | StopWorker(worker: nat)
    | StartTask(worker: nat, now: int)
    | FinishTask(worker: nat, outcome: Result<Response, Error>, now: int)
    | CompleteCached(name: string, response: Response, now: int)
    | Cancel(name: string, now: int)
    | Delete(name: string)
    | Expire(now: int)
    | Subscribe(name: string, ch: nat)
    | Unsubscribe(ch: nat)
    | Receive(ch: nat)
    | Look(ch: nat)
    | Test(ch: nat)

  /** The pool is the set of worker ids, one per unit of concurrency. */
  function Init(queueSize: nat, pool: set<nat>, retention: nat): Sys {
    Sys(Core(map[], map[], map[], [], queueSize, retention, 0), None,
        map w | w in pool :: Idle, map[], map[], [], [], {}, {}, {}, {})
  }

  predicate Known(s: Sys, name: string) {
    name in s.core.operations || name in s.detached
  }

  /** The record a pointer leads to, whether or not it is still in the table. */
  function Live(s: Sys, name: string): Record
    requires Known(s, name)
  {
    if name in s.core.operations then s.core.operations[name] else s.detached[name]
  }

  predicate NamesIn(tasks: seq<Task>, name: string) {
    exists i :: 0 <= i < |tasks| && tasks[i].name == name
  }

  /** The uuid oracle: a new operation's name was never used before. */
  predicate Fresh(s: Sys, name: string) {
    !NamesIn(s.accepted, name)
  }

  predicate Unlocked(s: Sys) {
    s.sending.None?
  }

  predicate Enabled(s: Sys, a: Action) {
    match a
    case EnqueueSend(task, _) => Unlocked(s) && Fresh(s, task.name) && CanSend(s.core)
    case EnqueueHandoff(task, _, w) =>
      Unlocked(s) && Fresh(s, task.name) && s.core.queue == [] && w in s.workers && s.workers[w].Idle?
    case EnqueueInsert => s.sending.Some?
    case Dequeue(w) => w in s.workers && s.workers[w].Idle? && s.core.queue != []
    case StopWorker(w) => w in s.workers && s.workers[w].Idle?
    case StartTask(w, _) => Unlocked(s) && w in s.workers && s.workers[w].Holding?
    case FinishTask(w, _, _) => Unlocked(s) && w in s.workers && s.workers[w].Running?
    case CompleteCached(_, _, _) => Unlocked(s)
    case Cancel(name, _) => Unlocked(s) && CanCancel(s.core, name)
    case Delete(name) => Unlocked(s) && name in s.core.operations
    case Expire(_) => Unlocked(s)
    case Subscribe(_, ch) => Unlocked(s) && ch !in s.readers && ch !in s.core.chans
    case Unsubscribe(ch) => Unlocked(s) && ch in s.readers
    case Receive(ch) =>
      ch in s.readers && s.readers[ch].pc.AtReceive? && ch in s.core.chans && s.core.chans[ch].buf != []
    case Look(ch) => Unlocked(s) && ch in s.readers && s.readers[ch].pc.Received?
    case Test(ch) => ch in s.readers && s.readers[ch].pc.Looked?
  }

  /** Every tracked record is filed under its own name. */
  predicate Keyed(c: Core<nat>) {
    forall n :: n in c.operations ==> c.operations[n].name == n
  }

  function Detach(s: Sys, names: set<string>): map<string, Record> {
    s.detached + map n | n in names && n in s.core.operations :: s.core.operations[n]
  }

  function Moved(s: Sys, ch: nat, pc: ReaderPc): Sys
    requires ch in s.readers
  {
    s.(readers := s.readers[ch := s.readers[ch].(pc := pc)])
  }

  function Apply(s: Sys, a: Action): Sys
    requires Keyed(s.core) && Enabled(s, a)
  {
    match a
    case EnqueueSend(task, now) =>
      s.(core := Sent(s.core, task), sending := Some(NewRecord(task, now)), accepted := s.accepted + [task])
    case EnqueueHandoff(task, now, w) =>
      s.(sending := Some(NewRecord(task, now)), accepted := s.accepted + [task],
         taken := s.taken + [task], workers := s.workers[w := Holding(task)])
    case EnqueueInsert =>
      s.(core := Inserted(s.core, s.sending.value), sending := None)
    case Dequeue(w) =>
      s.(core := s.core.(queue := s.core.queue[1..]), taken := s.taken + [s.core.queue[0]],
         workers := s.workers[w := Holding(s.core.queue[0])])
    case StopWorker(w) =>
      s.(workers := s.workers[w := Stopped])
    case StartTask(w, now) =>
      var task := s.workers[w].task;
      s.(core := StateUpdated(s.core, task.name, Executing, Metadata(StageExecuting, task.actionDigest), now),
         workers := s.workers[w := Running(task)], started := s.started + {task.name})
    case FinishTask(w, outcome, now) =>
      var task := s.workers[w].task;
      s.(core := Finished(s.core, task.name, outcome, now),
         workers := s.workers[w := Idle], finished := s.finished + {task.name})
    case CompleteCached(name, response, now) =>
      s.(core := Finished(s.core, name, Ok(response), now))
    case Cancel(name, now) =>
      s.(core := Cancelled(s.core, name, now), cancelled := s.cancelled + {name})
    case Delete(name) =>
      s.(core := Deleted(s.core, name), detached := Detach(s, {name}),
         removedExecuting := if s.core.operations[name].state == Executing
                             then s.removedExecuting + {name} else s.removedExecuting)
    case Expire(now) =>
      s.(core := CleanedUp(s.core, now), detached := Detach(s, ExpiredNames(s.core, now)))
    case Subscribe(name, ch) =>
      s.(core := Subscribed(s.core, name, ch), readers := s.readers[ch := Reader(name, AtReceive, None)])
    case Unsubscribe(ch) =>
      Moved(s, ch, Left).(core := Unsubscribed(s.core, s.readers[ch].name, ch))
    case Receive(ch) =>
      var buf := s.core.chans[ch].buf;
      Moved(s, ch, Received(buf[0])).(core :=
        s.core.(chans := s.core.chans[ch := s.core.chans[ch].(buf := buf[1..])]))
    case Look(ch) =>
      var r := s.readers[ch];
      if r.name in s.core.operations then
        s.(readers := s.readers[ch :=
          r.(pc := Looked(r.pc.msg), snapshot := Some(ToProto(s.core.operations[r.name])))])
      else Moved(s, ch, AtReceive)
    case Test(ch) =>
      var msg := s.readers[ch].pc.msg;
      Moved(s, ch, if Known(s, msg) && Live(s, msg).state == Completed then Observed else AtReceive)
  }

  /** A finite run from the initial state. */
  ghost predicate IsRun(states: seq<Sys>, acts: seq<Action>) {
    && |states| == |acts| + 1
    && (exists queueSize, pool, retention :: states[0] == Init(queueSize, pool, retention))
    && forall i :: 0 <= i < |acts| ==> StepAt(states, acts, i)
  }

  ghost predicate StepAt(states: seq<Sys>, acts: seq<Action>, i: nat)
    requires i < |acts| < |states|
  {
    IsStep(states[i], acts[i], states[i + 1])
  }

  predicate IsStep(s: Sys, a: Action, s': Sys) {
    Keyed(s.core) && Enabled(s, a) && s' == Apply(s, a)
  }
}
