/**
 The `Scheduler` object: records and channels are heap objects, a channel holds
 pointers to live records, and each method body is one critical section. Every
 method computes the corresponding function of SchedulerCore on the object's view.
 */
module SchedulerObject {
  import opened Wrappers
  import opened SchedulerCore
  import opened OperationNames

  class OperationStatus {
    const name: string
    const createdAt: int
    var state: OpState
    var metadata: Metadata
    var result: Option<Response>
    var error: Option<Error>
    var updatedAt: int

    constructor (r: Record)
      ensures Value() == r
    {
      name, createdAt := r.name, r.createdAt;
      state, metadata, result, error, updatedAt := r.state, r.metadata, r.result, r.error, r.updatedAt;
    }

    function Value(): Record
      reads this
    {
      Record(name, state, metadata, result, error, createdAt, updatedAt)
    }
  }

  /** A buffered Go channel of record pointers. */
  class Channel {
    var buf: seq<OperationStatus>
    var closed: bool

    constructor ()
      ensures buf == [] && !closed
    {
      buf, closed := [], false;
    }

    function Value(): Chan
      reads this
    {
      Chan(seq(|buf|, i requires 0 <= i < |buf| reads this => buf[i].name), closed)
    }

    /** Sending on a closed channel would panic. */
    method TrySend(op: OperationStatus)
      requires !closed
      modifies this
      ensures Value() == SchedulerCore.TrySend(old(Value()), op.name)
      ensures |buf| == if |old(buf)| < 10 then |old(buf)| + 1 else |old(buf)|
    {
      if |buf| < CHANNEL_CAPACITY {
        buf := buf + [op];
      }
    }

    /** Closing a closed channel would panic. */
    method Close()
      requires !closed
      modifies this
      ensures Value() == old(Value()).(closed := true)
    {
      closed := true;
    }
  }

  class Scheduler {
    const queueSize: nat
    const retention: nat
    const nodeID: string
    var operations: map<string, OperationStatus>
    var subscribers: map<string, seq<Channel>>
    var taskQueue: seq<Task>
    var executingCount: int
    // Every channel handed out, with the operation it was subscribed to.
    ghost var owner: map<Channel, string>

    ghost predicate Valid()
      reads this, owner.Keys
    {
      && (forall n :: n in operations ==> operations[n].name == n)
      && (forall n :: n in subscribers ==>
            forall i :: 0 <= i < |subscribers[n]| ==>
              subscribers[n][i] in owner && owner[subscribers[n][i]] == n && !subscribers[n][i].closed)
      && (forall n :: n in subscribers ==>
            forall i, j :: 0 <= i < j < |subscribers[n]| ==> subscribers[n][i] != subscribers[n][j])
    }

    ghost function View(): Core<Channel>
      reads this, operations.Values, owner.Keys
    {
      Core(map n | n in operations :: operations[n].Value(),
           subscribers,
           map ch | ch in owner :: ch.Value(),
           taskQueue, queueSize, retention, executingCount)
    }

    constructor (queueSize: nat, nodeID: string, retention: nat)
      ensures Valid() && fresh(owner.Keys)
      ensures View() == Core(map[], map[], map[], [], queueSize, retention, 0)
      ensures this.nodeID == nodeID
    {
      this.queueSize, this.nodeID, this.retention := queueSize, nodeID, retention;
      operations, subscribers, taskQueue, executingCount, owner := map[], map[], [], 0, map[];
    }

    method Enqueue(uuid: string, actionDigest: string, skipCache: bool, nodeIDOverride: string, now: int)
      returns (r: Result<Operation, Lookup>)
      requires Valid()
      modifies this
      ensures Valid() && owner == old(owner)
      ensures var task := Task(OperationName(nodeID, nodeIDOverride, uuid), actionDigest, skipCache, now);
              if CanSend(old(View()))
              then r == Ok(ToProto(NewRecord(task, now)))
                && View() == Inserted(Sent(old(View()), task), NewRecord(task, now))
              else r == Err(ResourceExhausted) && View() == old(View())
      ensures r.Ok? <==> |old(taskQueue)| < queueSize
      ensures r.Ok? ==>
                && r.value == Operation(OperationName(nodeID, nodeIDOverride, uuid),
                                        Metadata(StageQueued, actionDigest), false, NoResult)
                && taskQueue == old(taskQueue) + [Task(r.value.name, actionDigest, skipCache, now)]
                && r.value.name in operations
    {
      var task := Task(OperationName(nodeID, nodeIDOverride, uuid), actionDigest, skipCache, now);
      var status := new OperationStatus(NewRecord(task, now));
      if |taskQueue| < queueSize {
        Insert(task, status);
        r := Ok(ToProto(status.Value()));
      } else {
        r := Err(ResourceExhausted);
      }
    }

    /** The task is sent and its record inserted. */
    method Insert(task: Task, status: OperationStatus)
      requires Valid() && status.name == task.name
      modifies this`taskQueue, this`operations
      ensures Valid()
      ensures View() == Inserted(Sent(old(View()), task), status.Value())
      ensures taskQueue == old(taskQueue) + [task] && task.name in operations
    {
      taskQueue := taskQueue + [task];
      operations := operations[task.name := status];
      assert View().operations == old(View()).operations[task.name := status.Value()];
    }

    method Dequeue() returns (task: Option<Task>)
      requires Valid()
      modifies this
      ensures Valid() && owner == old(owner)
      ensures old(taskQueue) == [] ==> task.None? && View() == old(View())
      ensures old(taskQueue) != [] ==>
                task == Some(old(taskQueue)[0]) && View() == old(View()).(queue := old(taskQueue)[1..])
    {
      if taskQueue == [] {
        return None;
      }
      task := Some(taskQueue[0]);
      taskQueue := taskQueue[1..];
    }

    /** Sends the record's pointer to each subscriber, skipping full buffers. */
    method NotifySubscribers(name: string, op: OperationStatus)
      requires Valid() && op.name == name
      modifies owner.Keys
      ensures Valid()
      ensures View() == Notified(old(View()), name)
    {
      var subs := if name in subscribers then subscribers[name] else [];
      ghost var chans := View().chans;
      assert Told(chans, subs[..0], name) == chans;
      for i := 0 to |subs|
        invariant Valid()
        invariant View() == old(View()).(chans := Told(chans, subs[..i], name))
      {
        label before:
        subs[i].TrySend(op);
        ChannelReplaced@before(subs[i]);
        ToldMore(chans, subs, i, name);
      }
      assert subs[..|subs|] == subs == Subs(old(View()), name);
    }

    /** Sending on one channel changes that entry of the view alone. */
    twostate lemma ChannelReplaced(ch: Channel)
      requires old(Valid()) && ch in old(owner)
      requires operations == old(operations) && owner == old(owner) && subscribers == old(subscribers)
      requires taskQueue == old(taskQueue) && executingCount == old(executingCount)
      requires forall n :: n in operations ==> operations[n].Value() == old(operations[n].Value())
      requires forall other :: other in owner && other != ch ==> other.Value() == old(other.Value())
      ensures View() == old(View()).(chans := old(View()).chans[ch := ch.Value()])
    {
    }

    /** Writing the fields of one tracked record changes that entry of the view alone. */
    twostate lemma RecordReplaced(name: string)
      requires old(Valid()) && name in old(operations)
      requires operations == old(operations) && owner == old(owner) && subscribers == old(subscribers)
               && taskQueue == old(taskQueue)
      requires forall n :: n in operations && n != name ==> operations[n].Value() == old(operations[n].Value())
      requires forall ch :: ch in owner ==> ch.Value() == old(ch.Value())
      ensures View() == old(View()).(operations := old(View()).operations[name := operations[name].Value()],
                                     executingCount := executingCount)
    {
    }

    /** Accounts for the transition and overwrites the live record in place. */
    method Overwrite(r: Record)
      requires Valid() && r.name in operations && r.createdAt == operations[r.name].createdAt
      modifies this`executingCount, operations[r.name]
      ensures Valid()
      ensures View() == old(View()).(
                operations := old(View()).operations[r.name := r],
                executingCount := old(executingCount) + CountDelta(old(operations[r.name].state), r.state))
    {
      var op := operations[r.name];
      if op.state != Executing && r.state == Executing {
        executingCount := executingCount + 1;
      } else if op.state == Executing && r.state != Executing {
        executingCount := executingCount - 1;
      }
      op.state, op.metadata, op.result, op.error, op.updatedAt := r.state, r.metadata, r.result, r.error, r.updatedAt;
      RecordReplaced(r.name);
    }

    /** The common tail of the state-changing methods. */
    method Store(r: Record)
      requires Valid() && r.name in operations && r.createdAt == operations[r.name].createdAt
      modifies this`executingCount, operations[r.name], owner.Keys
      ensures Valid()
      ensures View() == Stored(old(View()), r)
    {
      Overwrite(r);
      NotifySubscribers(r.name, operations[r.name]);
    }

    method UpdateState(name: string, state: OpState, metadata: Metadata, now: int)
      requires Valid()
      modifies this, operations.Values, owner.Keys
      ensures Valid() && owner == old(owner) && operations == old(operations)
      ensures View() == StateUpdated(old(View()), name, state, metadata, now)
    {
      if name !in operations {
        return;
      }
      Store(operations[name].Value().(state := state, metadata := metadata, updatedAt := now));
    }

    method Complete(name: string, result: Response, now: int)
      requires Valid()
      modifies this, operations.Values, owner.Keys
      ensures Valid() && owner == old(owner) && operations == old(operations)
      ensures View() == Finished(old(View()), name, Ok(result), now)
    {
      if name !in operations {
        return;
      }
      Store(CompletedRecord(operations[name].Value(), now).(result := Some(result)));
    }

    method Fail(name: string, err: Error, now: int)
      requires Valid()
      modifies this, operations.Values, owner.Keys
      ensures Valid() && owner == old(owner) && operations == old(operations)
      ensures View() == Finished(old(View()), name, Err(err), now)
    {
      if name !in operations {
        return;
      }
      Store(CompletedRecord(operations[name].Value(), now).(error := Some(err)));
    }

    method GetOperation(name: string) returns (r: Result<Operation, Lookup>)
      requires Valid()
      ensures r == if name in View().operations then Ok(ToProto(View().operations[name])) else Err(NotFound)
      ensures r.Ok? ==>
                var op := operations[name];
                && r.value.name == name && r.value.metadata == op.metadata && (r.value.done <==> op.state == Completed)
                && match r.value.result
                   case NoResult => op.state != Completed || (op.error.None? && op.result.None?)
                   case ErrorResult(e) => op.state == Completed && op.error == Some(e)
                   case ResponseResult(x) => op.state == Completed && op.error.None? && op.result == Some(x)
    {
      if name in operations {
        r := Ok(ToProto(operations[name].Value()));
      } else {
        r := Err(NotFound);
      }
    }

    method CancelOperation(name: string, now: int) returns (r: Result<(), Lookup>)
      requires Valid()
      modifies this, operations.Values, owner.Keys
      ensures Valid() && owner == old(owner) && operations == old(operations)
      ensures if CanCancel(old(View()), name)
              then r.Ok? && View() == Cancelled(old(View()), name, now)
              else View() == old(View())
                   && r == Err(if name in old(operations) then FailedPrecondition else NotFound)
    {
      if name !in operations {
        return Err(NotFound);
      }
      if operations[name].state != Queued {
        return Err(FailedPrecondition);
      }
      Store(CompletedRecord(operations[name].Value(), now).(error := Some(Canceled)));
      return Ok(());
    }

    method DeleteOperation(name: string) returns (r: Result<(), Lookup>)
      requires Valid()
      modifies this
      ensures Valid() && owner == old(owner)
      ensures r == if name in old(operations) then Ok(()) else Err(NotFound)
      ensures View() == Deleted(old(View()), name)
      ensures operations == old(operations) - {name} && subscribers == old(subscribers)
      ensures taskQueue == old(taskQueue) && executingCount == old(executingCount)
    {
      if name !in operations {
        assert View().operations == View().operations - {name};
        return Err(NotFound);
      }
      operations := operations - {name};
      return Ok(());
    }

    method Register(name: string, ch: Channel)
      requires Valid() && ch !in owner && !ch.closed
      modifies this`subscribers, this`owner
      ensures Valid() && owner == old(owner)[ch := name]
      ensures View() == old(View()).(
                subscribers := old(subscribers)[name := Subs(old(View()), name) + [ch]],
                chans := old(View()).chans[ch := ch.Value()])
    {
      var subs := if name in subscribers then subscribers[name] else [];
      assert ch !in subs;
      subscribers := subscribers[name := subs + [ch]];
      owner := owner[ch := name];
      assert View().chans == old(View()).chans[ch := ch.Value()];
    }

    method Subscribe(name: string) returns (ch: Channel)
      requires Valid()
      modifies this
      ensures Valid() && fresh(ch) && owner == old(owner)[ch := name]
      ensures View() == Subscribed(old(View()), name, ch)
    {
      ch := new Channel();
      assert ch.Value() == Chan([], false);
      if name in operations {
        ch.TrySend(operations[name]);
      }
      assert ch.Value() == Chan(if name in operations then [name] else [], false);
      assert View() == old(View());
      Register(name, ch);
    }

    /** Drops position i of a subscriber list and closes the channel. */
    method Unregister(name: string, i: nat)
      requires Valid() && name in subscribers && i < |subscribers[name]|
      modifies this`subscribers, subscribers[name][i]
      ensures Valid()
      ensures View() == old(View()).(
                subscribers := old(subscribers)[name := old(subscribers[name][..i] + subscribers[name][i + 1..])],
                chans := old(View()).chans[old(subscribers[name][i]) :=
                                           old(subscribers[name][i].Value()).(closed := true)])
    {
      var subs := subscribers[name];
      var ch := subs[i];
      subscribers := subscribers[name := subs[..i] + subs[i + 1..]];
      ch.Close();
      forall n, k | n in subscribers && 0 <= k < |subscribers[n]| ensures subscribers[n][k] != ch {
        if n == name {
          assert subscribers[n][k] == if k < i then subs[k] else subs[k + 1];
        } else {
          assert subscribers[n] == old(subscribers)[n];
        }
      }
      assert View().chans == old(View()).chans[ch := old(ch.Value()).(closed := true)];
    }

    method Unsubscribe(name: string, ch: Channel)
      requires Valid() && ch in owner && owner[ch] == name
      modifies this`subscribers, ch
      ensures Valid()
      ensures View() == Unsubscribed(old(View()), name, ch)
    {
      var subs := if name in subscribers then subscribers[name] else [];
      var i := 0;
      while i < |subs| && subs[i] != ch
        invariant i <= |subs| && ch !in subs[..i]
      {
        i := i + 1;
      }
      if i < |subs| {
        WithoutAt(subs, i);
        Unregister(name, i);
      }
    }

    method Forget(name: string)
      requires Valid()
      modifies this`operations, this`subscribers
      ensures Valid()
      ensures operations == old(operations) - {name}
      ensures View() == old(View()).(operations := old(View()).operations - {name},
                                     subscribers := old(subscribers) - {name})
    {
      operations := operations - {name};
      subscribers := subscribers - {name};
      assert View().operations == old(View()).operations - {name};
    }

    method CleanupExpired(now: int)
      requires Valid()
      modifies this`operations, this`subscribers
      ensures Valid()
      ensures View() == CleanedUp(old(View()), now)
      ensures forall name :: name in operations <==>
                && name in old(operations)
                && !(old(operations[name].state) == Completed && old(operations[name].updatedAt) < now - retention)
      ensures forall name :: name in subscribers <==>
                && name in old(subscribers)
                && !(name in old(operations) && old(operations[name].state) == Completed
                     && old(operations[name].updatedAt) < now - retention)
    {
      ghost var before := View();
      ghost var gone: set<string> := {};
      var pending := operations.Keys;
      while pending != {}
        invariant Valid()
        invariant pending <= operations.Keys && operations.Values <= old(operations.Values)
        invariant gone == ExpiredNames(before, now) - pending
        invariant View() == before.(operations := before.operations - gone, subscribers := before.subscribers - gone)
        decreases pending
      {
        var name :| name in pending;
        var op := operations[name];
        assert name in View().operations && View().operations[name] == op.Value();
        assert name in before.operations && before.operations[name] == op.Value();
        if op.state == Completed && op.updatedAt < now - retention {
          ForgetMore(before, gone, name);
          Forget(name);
          gone := gone + {name};
        }
        pending := pending - {name};
      }
      Survivors(now);
    }

    twostate lemma Survivors(now: int)
      requires View() == CleanedUp(old(View()), now)
      ensures forall name :: name in operations <==>
                && name in old(operations)
                && !(old(operations[name].state) == Completed && old(operations[name].updatedAt) < now - retention)
      ensures forall name :: name in subscribers <==>
                && name in old(subscribers)
                && !(name in old(operations) && old(operations[name].state) == Completed
                     && old(operations[name].updatedAt) < now - retention)
    {
      forall name
        ensures name in operations <==>
                  && name in old(operations)
                  && !(old(operations[name].state) == Completed && old(operations[name].updatedAt) < now - retention)
      {
        assert name in operations <==> name in View().operations;
        if name in old(operations) { assert old(View()).operations[name] == old(operations[name].Value()); }
      }
    }

    method GetPendingTaskCount() returns (count: int)
      ensures count == PendingTasks(View()) == |taskQueue| + executingCount
    {
      count := |taskQueue| + executingCount;
    }
  }

  /** Channels once some of them have been sent a name. */
  function Told(chans: map<Channel, Chan>, subs: seq<Channel>, name: string): map<Channel, Chan> {
    map ch | ch in chans :: if ch in subs then SchedulerCore.TrySend(chans[ch], name) else chans[ch]
  }

  lemma ToldMore(chans: map<Channel, Chan>, subs: seq<Channel>, i: nat, name: string)
    requires i < |subs| && subs[i] in chans && subs[i] !in subs[..i]
    ensures Told(chans, subs[..i + 1], name)
            == Told(chans, subs[..i], name)[subs[i] := SchedulerCore.TrySend(chans[subs[i]], name)]
  {
    assert subs[..i + 1] == subs[..i] + [subs[i]];
  }

  lemma ForgetMore(before: Core<Channel>, gone: set<string>, name: string)
    ensures before.operations - gone - {name} == before.operations - (gone + {name})
    ensures before.subscribers - gone - {name} == before.subscribers - (gone + {name})
  {
  }

  lemma {:induction false} WithoutAt(s: seq<Channel>, i: nat)
    requires i < |s| && s[i] !in s[..i]
    ensures Without(s, s[i]) == s[..i] + s[i + 1..]
  {
    if i > 0 {
      assert s[0] in s[..i];
      assert s[1..][..i - 1] == s[..i][1..];
      WithoutAt(s[1..], i - 1);
      assert s[..i] + s[i + 1..] == [s[0]] + (s[1..][..i - 1] + s[1..][i..]);
    }
  }
}
