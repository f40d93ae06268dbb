/**
 The state that `Scheduler` protects with its mutex, and what each critical
 section does to it.

 `Core` is parametric in the identity `C` of subscriber channels. The object in
 SchedulerObject instantiates it with heap references and proves that its
 methods compute these functions; the transition system in SchedulerSystem
 instantiates it with numbers and interleaves the same functions.
 */
module SchedulerCore {
  import opened Wrappers

  // Buffer capacity of a subscriber channel.
  const CHANNEL_CAPACITY := 10

  datatype OpState = Queued | Executing | Completed

  datatype Stage = StageQueued | StageExecuting | StageCompleted

  datatype Metadata = Metadata(stage: Stage, actionDigest: string)

  datatype Response = Response(exitCode: int, cached: bool)

  datatype Error = Canceled | Failure(message: string)

  datatype Lookup = NotFound | FailedPrecondition | ResourceExhausted

  /** A pending request. The worker addresses the operation by `name`. */
  datatype Task = Task(name: string, actionDigest: string, skipCache: bool, queuedAt: int)

  /** The fields of one `OperationStatus` object. */
  datatype Record = Record(
    name: string,
    state: OpState,
    metadata: Metadata,
    result: Option<Response>,
    error: Option<Error>,
    createdAt: int,
    updatedAt: int)

  /** A channel carries pointers to records; a pointer is identified by the
      name of the record it points to. */
  datatype Chan = Chan(buf: seq<string>, closed: bool)

  datatype Core<C> = Core(
    operations: map<string, Record>,
    subscribers: map<string, seq<C>>,
    chans: map<C, Chan>,
    queue: seq<Task>,
    queueSize: nat,
    retention: nat,
    executingCount: int)

  function Subs<C>(c: Core<C>, name: string): seq<C> {
    if name in c.subscribers then c.subscribers[name] else []
  }

  function NewRecord(task: Task, now: int): Record {
    Record(task.name, Queued, Metadata(StageQueued, task.actionDigest), None, None, now, now)
  }

  /** A non-blocking send: dropped when the buffer is full. */
  function TrySend(ch: Chan, msg: string): Chan {
    if |ch.buf| < CHANNEL_CAPACITY then ch.(buf := ch.buf + [msg]) else ch
  }

  function Notified<C>(c: Core<C>, name: string): Core<C> {
    c.(chans := map ch | ch in c.chans ::
      if ch in Subs(c, name) then TrySend(c.chans[ch], name) else c.chans[ch])
  }

  function CanSend<C>(c: Core<C>): bool {
    |c.queue| < c.queueSize
  }

  function Sent<C>(c: Core<C>, task: Task): Core<C> {
    c.(queue := c.queue + [task])
  }

  function Inserted<C>(c: Core<C>, r: Record): Core<C> {
    c.(operations := c.operations[r.name := r])
  }

  function CountDelta(from: OpState, to: OpState): int {
    if from != Executing && to == Executing then 1
    else if from == Executing && to != Executing then -1
    else 0
  }

  /** Replaces one tracked record, adjusts the executing count, and notifies. */
  function Stored<C>(c: Core<C>, r: Record): Core<C>
    requires r.name in c.operations
  {
    Notified(
      c.(operations := c.operations[r.name := r],
         executingCount := c.executingCount + CountDelta(c.operations[r.name].state, r.state)),
      r.name)
  }

  function StateUpdated<C>(c: Core<C>, name: string, state: OpState, metadata: Metadata, now: int): Core<C>
    requires name in c.operations ==> c.operations[name].name == name
  {
    if name !in c.operations then c
    else Stored(c, c.operations[name].(state := state, metadata := metadata, updatedAt := now))
  }

  function CompletedRecord(r: Record, now: int): Record {
    r.(state := Completed, metadata := r.metadata.(stage := StageCompleted), updatedAt := now)
  }

  /** `Complete` on success, `Fail` on error. */
  function Finished<C>(c: Core<C>, name: string, outcome: Result<Response, Error>, now: int): Core<C>
    requires name in c.operations ==> c.operations[name].name == name
  {
    if name !in c.operations then c
    else
      var r := CompletedRecord(c.operations[name], now);
      Stored(c, if outcome.Ok? then r.(result := Some(outcome.value)) else r.(error := Some(outcome.error)))
  }

  function CanCancel<C>(c: Core<C>, name: string): bool {
    name in c.operations && c.operations[name].state == Queued
  }

  function Cancelled<C>(c: Core<C>, name: string, now: int): Core<C>
    requires CanCancel(c, name) && c.operations[name].name == name
  {
    Stored(c, CompletedRecord(c.operations[name], now).(error := Some(Canceled)))
  }

  function Deleted<C>(c: Core<C>, name: string): Core<C> {
    c.(operations := c.operations - {name})
  }

  function ExpiredNames<C>(c: Core<C>, now: int): set<string> {
    set name | name in c.operations
               && c.operations[name].state == Completed
               && c.operations[name].updatedAt < now - c.retention
  }

  function CleanedUp<C>(c: Core<C>, now: int): Core<C> {
    var expired := ExpiredNames(c, now);
    c.(operations := c.operations - expired, subscribers := c.subscribers - expired)
  }

  function Subscribed<C>(c: Core<C>, name: string, ch: C): Core<C> {
    c.(subscribers := c.subscribers[name := Subs(c, name) + [ch]],
       chans := c.chans[ch := Chan(if name in c.operations then [name] else [], false)])
  }

  /** Removes the first occurrence. */
  function Without<C(==)>(s: seq<C>, ch: C): seq<C> {
    if s == [] then [] else if s[0] == ch then s[1..] else [s[0]] + Without(s[1..], ch)
  }

  function Unsubscribed<C>(c: Core<C>, name: string, ch: C): Core<C> {
    if ch in Subs(c, name) && ch in c.chans then
      c.(subscribers := c.subscribers[name := Without(Subs(c, name), ch)],
         chans := c.chans[ch := c.chans[ch].(closed := true)])
    else c
  }

  // What a client sees of a record.

  datatype OpResult = NoResult | ErrorResult(error: Error) | ResponseResult(response: Response)

  datatype Operation = Operation(name: string, metadata: Metadata, done: bool, result: OpResult)

  function ToProto(r: Record): Operation {
    Operation(
      r.name, r.metadata, r.state == Completed,
      if r.state == Completed then
        if r.error.Some? then ErrorResult(r.error.value)
        else if r.result.Some? then ResponseResult(r.result.value)
        else NoResult
      else NoResult)
  }

  /** What is reported as the load: queued and executing. */
  function PendingTasks<C>(c: Core<C>): int {
    |c.queue| + c.executingCount
  }
}
