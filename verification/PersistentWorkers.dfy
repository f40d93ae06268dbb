/**
 The pool of persistent worker processes, as a transition system over concurrent
 `Execute` calls, worker processes and the readers that a cancelled call leaves behind.

 A worker answers the requests on its standard input in order, one response each; a
 response may be undecodable. Between the manager's own critical sections anything
 may interleave.
 */
module PersistentWorkers {
  import opened Wrappers

  /** One write of a request: which call, and its first or second attempt. */
  datatype Request = Request(call: nat, attempt: nat)

  /** A process that was started, and by which command: the requests written to it so far, how many it has answered, and
      how many answers have been read. `readable` is the manager's end of its output, `holder` the call that has its
      mutex. `orphans` counts the readers that cancelled calls have left on it; once such a reader and another have
      taken parts of one frame, its output is `torn` and makes no sense any more. */
  datatype Process = Process(
    key: string, cmd: string, alive: bool, reaped: bool, stdinOpen: bool, stdoutOpen: bool, readable: bool,
    written: seq<Request>, answered: nat, read: nat, holder: Option<nat>, orphans: nat, torn: bool)

  datatype Pool = Pool(processes: seq<Process>, workers: map<string, nat>, restart: map<string, string>)

  // The manager's critical sections.

  function Fresh(key: string, cmd: string): Process {
    Process(key, cmd, true, false, true, true, true, [], 0, 0, None, 0, false)
  }

  /** `startWorker`, where the process does start. */
  function Started(pool: Pool, key: string, cmd: string): Pool {
    pool.(processes := pool.processes + [Fresh(key, cmd)],
          workers := pool.workers[key := |pool.processes|],
          restart := if key in pool.restart then pool.restart else pool.restart[key := cmd])
  }

  function Closed(p: Process): Process {
    p.(stdinOpen := false, readable := false)
  }

  function Killed(p: Process): Process {
    Closed(p).(alive := false, reaped := true, stdoutOpen := false)
  }

  predicate Registered(pool: Pool) {
    forall key :: key in pool.workers ==> pool.workers[key] < |pool.processes|
  }

  /** The registered worker of a key, unless it has been waited for. */
  predicate Reusable(pool: Pool, key: string)
    requires Registered(pool)
  {
    key in pool.workers && !pool.processes[pool.workers[key]].reaped
  }

  /** `getOrCreateWorker`; `starts` says whether a process would start. */
  function Got(pool: Pool, key: string, cmd: Option<string>, starts: bool): (Pool, Option<nat>)
    requires Registered(pool)
  {
    if Reusable(pool, key) then (pool, Some(pool.workers[key]))
    else
      var cleared := if key in pool.workers
        then pool.(processes := pool.processes[pool.workers[key] := Closed(pool.processes[pool.workers[key]])],
                   workers := pool.workers - {key})
        else pool;
      if cmd.None? || !starts then (cleared, None)
      else (Started(cleared, key, cmd.value), Some(|pool.processes|))
  }

  /** The worker of a key killed and forgotten. */
  function Removed(pool: Pool, key: string): Pool
    requires Registered(pool)
  {
    if key in pool.workers
    then pool.(processes := pool.processes[pool.workers[key] := Killed(pool.processes[pool.workers[key]])],
               workers := pool.workers - {key})
    else pool
  }

  /** `restartWorker`. */
  function Restarted(pool: Pool, key: string, starts: bool): (Pool, Option<nat>)
    requires Registered(pool)
  {
    var removed := Removed(pool, key);
    if key !in pool.restart || !starts then (removed, None)
    else (Started(removed, key, pool.restart[key]), Some(|pool.processes|))
  }

  /** `Shutdown`. */
  function Stopped(pool: Pool): Pool
    requires Registered(pool)
  {
    pool.(processes := seq(|pool.processes|, i requires 0 <= i < |pool.processes| =>
            if i in pool.workers.Values then Killed(pool.processes[i]) else pool.processes[i]),
          workers := map[])
  }

  // Calls and steps.

  datatype Pc =
    | Fetching
    | Waiting(pid: nat)              // has a worker, not its mutex
    | Writing(pid: nat)
    | Reading(pid: nat)              // holds the mutex until it returns
    | Failing                        // the first attempt failed; restarts next
    | Done(result: Option<Answer>)   // what was returned, or an error

  /** A response to a request, or bytes that were taken for one. */
  datatype Answer = To(request: Request) | Garbled

  datatype Call = Call(key: string, cmd: Option<string>, attempt: nat, pc: Pc)

  datatype State = State(pool: Pool, calls: seq<Call>)

  datatype Action =
    | SetRestartCommand(key: string, cmd: string)
    | Invoke(key: string, command: Option<string>)
    | Get(call: nat, starts: bool)
    | Lock(call: nat)
    | Write(call: nat, ok: bool)
    | ReadResponse(call: nat, decodes: bool)
    | ReadEnd(call: nat)
    | Cancel(call: nat)
    | Restart(call: nat, starts: bool)
    | Shutdown
    | Answer(pid: nat)
    | Hangup(pid: nat, stdin: bool)
    | Exit(pid: nat)
    | OrphanRead(pid: nat)
    | Tear(pid: nat)

  const INIT := State(Pool([], map[], map[]), [])

  /** No further response will ever be read from this process. */
  predicate Over(p: Process) {
    !p.readable || (!p.stdoutOpen && p.answered == p.read)
  }

  predicate At(s: State, c: nat, pid: nat) {
    c < |s.calls| && pid < |s.pool.processes|
  }

  predicate Enabled(s: State, a: Action) {
    match a
    case SetRestartCommand(_, _) => true
    case Invoke(_, _) => true
    case Get(c, _) => c < |s.calls| && s.calls[c].pc.Fetching? && Registered(s.pool)
    case Lock(c) => c < |s.calls| && s.calls[c].pc.Waiting? && s.calls[c].pc.pid < |s.pool.processes|
                    && s.pool.processes[s.calls[c].pc.pid].holder.None?
    case Write(c, ok) => c < |s.calls| && s.calls[c].pc.Writing? && s.calls[c].pc.pid < |s.pool.processes|
                         && (ok ==> s.pool.processes[s.calls[c].pc.pid].stdinOpen)
                         && (!ok ==> !s.pool.processes[s.calls[c].pc.pid].stdinOpen)
    case ReadResponse(c, _) => c < |s.calls| && s.calls[c].pc.Reading? && s.calls[c].pc.pid < |s.pool.processes|
                               && var p := s.pool.processes[s.calls[c].pc.pid];
                                  p.readable && p.read < p.answered && p.read < |p.written|
    case ReadEnd(c) => c < |s.calls| && s.calls[c].pc.Reading? && s.calls[c].pc.pid < |s.pool.processes|
                       && Over(s.pool.processes[s.calls[c].pc.pid])
    case Cancel(c) => c < |s.calls| && s.calls[c].pc.Reading? && s.calls[c].pc.pid < |s.pool.processes|
    case Restart(c, _) => c < |s.calls| && s.calls[c].pc.Failing? && Registered(s.pool)
    case Shutdown => Registered(s.pool)
    case Answer(pid) => pid < |s.pool.processes| && var p := s.pool.processes[pid];
                        p.alive && p.stdoutOpen && p.answered < |p.written|
    case Hangup(pid, _) => pid < |s.pool.processes| && s.pool.processes[pid].alive
    case Exit(pid) => pid < |s.pool.processes| && s.pool.processes[pid].alive
    case OrphanRead(pid) => pid < |s.pool.processes| && var p := s.pool.processes[pid];
                            p.orphans > 0 && p.readable && p.read < p.answered
    // Two readers share a frame: two that were left behind, or one of them and the call that is reading.
    case Tear(pid) => pid < |s.pool.processes| && var p := s.pool.processes[pid];
                      p.readable && p.read < p.answered && (p.orphans > 1 || (p.orphans > 0 && HolderReads(s, pid)))
  }

  function WithProcess(s: State, pid: nat, p: Process): State
    requires pid < |s.pool.processes|
  {
    s.(pool := s.pool.(processes := s.pool.processes[pid := p]))
  }

  function WithPc(s: State, c: nat, pc: Pc): State
    requires c < |s.calls|
  {
    s.(calls := s.calls[c := s.calls[c].(pc := pc)])
  }

  /** Where a failed attempt leads. */
  function Failure(call: Call): Pc {
    if call.attempt == 1 then Failing else Done(None)
  }

  function Apply(s: State, a: Action): State
    requires Enabled(s, a)
  {
    match a
    case SetRestartCommand(key, cmd) => s.(pool := s.pool.(restart := s.pool.restart[key := cmd]))
    case Invoke(key, cmd) => s.(calls := s.calls + [Call(key, cmd, 1, Fetching)])
    case Get(c, starts) =>
      var (pool, pid) := Got(s.pool, s.calls[c].key, s.calls[c].cmd, starts);
      WithPc(s.(pool := pool), c, if pid.Some? then Waiting(pid.value) else Done(None))
    case Lock(c) =>
      var pid := s.calls[c].pc.pid;
      WithPc(WithProcess(s, pid, s.pool.processes[pid].(holder := Some(c))), c, Writing(pid))
    case Write(c, ok) =>
      var pid := s.calls[c].pc.pid;
      var p := s.pool.processes[pid];
      if ok then WithPc(WithProcess(s, pid, p.(written := p.written + [Request(c, s.calls[c].attempt)])), c,
                        Reading(pid))
      else WithPc(WithProcess(s, pid, p.(holder := None)), c, Failure(s.calls[c]))
    case ReadResponse(c, decodes) =>
      var pid := s.calls[c].pc.pid;
      var p := s.pool.processes[pid];
      WithPc(WithProcess(s, pid, p.(read := p.read + 1, holder := None)), c,
             if decodes then Done(Some(if p.torn then Garbled else To(p.written[p.read]))) else Failure(s.calls[c]))
    case ReadEnd(c) =>
      var pid := s.calls[c].pc.pid;
      WithPc(WithProcess(s, pid, s.pool.processes[pid].(holder := None)), c, Failure(s.calls[c]))
    case Cancel(c) =>
      var pid := s.calls[c].pc.pid;
      var p := s.pool.processes[pid];
      WithPc(WithProcess(s, pid, p.(holder := None, orphans := p.orphans + 1)), c, Failure(s.calls[c]))
    case Restart(c, starts) =>
      var (pool, pid) := Restarted(s.pool, s.calls[c].key, starts);
      State(pool, s.calls[c := s.calls[c].(attempt := 2, pc := if pid.Some? then Waiting(pid.value) else Done(None))])
    case Shutdown => s.(pool := Stopped(s.pool))
    case Answer(pid) => WithProcess(s, pid, s.pool.processes[pid].(answered := s.pool.processes[pid].answered + 1))
    case Hangup(pid, stdin) =>
      WithProcess(s, pid, if stdin then s.pool.processes[pid].(stdinOpen := false)
                          else s.pool.processes[pid].(stdoutOpen := false))
    case Exit(pid) =>
      WithProcess(s, pid, s.pool.processes[pid].(alive := false, stdinOpen := false, stdoutOpen := false))
    case OrphanRead(pid) =>
      var p := s.pool.processes[pid];
      WithProcess(s, pid, p.(read := p.read + 1, orphans := p.orphans - 1))
    case Tear(pid) => WithProcess(s, pid, s.pool.processes[pid].(torn := true))
  }

  ghost predicate IsRun(states: seq<State>, acts: seq<Action>) {
    && |states| == |acts| + 1
    && states[0] == INIT
    && forall i :: 0 <= i < |acts| ==> StepAt(states, acts, i)
  }

  ghost predicate StepAt(states: seq<State>, acts: seq<Action>, i: nat)
    requires i < |acts| < |states|
  {
    IsStep(states[i], acts[i], states[i + 1])
  }

  ghost predicate IsStep(s: State, a: Action, t: State) {
    Enabled(s, a) && t == Apply(s, a)
  }

  // What every run keeps.

  /** Every process that is alive is the registered worker of its key; a registered worker has not been
      waited for; and its key has a restart command. */
  predicate Tracked(pool: Pool) {
    && Registered(pool)
    && (forall key :: key in pool.workers ==>
          pool.processes[pool.workers[key]].key == key && !pool.processes[pool.workers[key]].reaped)
    && (forall pid :: 0 <= pid < |pool.processes| && pool.processes[pid].alive ==>
          pool.processes[pid].key in pool.workers && pool.workers[pool.processes[pid].key] == pid)
    && (forall pid :: 0 <= pid < |pool.processes| ==> pool.processes[pid].key in pool.restart)
  }

  /** A call that has a worker has one of its own key, and only a first attempt is followed by a restart, for
      which there is a command. */
  predicate AimedCall(pool: Pool, call: Call) {
    && 1 <= call.attempt <= 2
    && (call.pc.Waiting? || call.pc.Writing? || call.pc.Reading? ==>
          call.pc.pid < |pool.processes| && pool.processes[call.pc.pid].key == call.key)
    && (call.pc.Failing? ==> call.attempt == 1 && call.key in pool.restart)
  }

  predicate Aimed(s: State) {
    forall c :: 0 <= c < |s.calls| ==> AimedCall(s.pool, s.calls[c])
  }

  /** The mutex of a worker is held by exactly the call that is writing to it or reading from it. */
  predicate Locked(s: State) {
    && (forall c {:trigger s.calls[c]} :: 0 <= c < |s.calls| && (s.calls[c].pc.Writing? || s.calls[c].pc.Reading?) ==>
          s.calls[c].pc.pid < |s.pool.processes| && s.pool.processes[s.calls[c].pc.pid].holder == Some(c))
    && (forall pid {:trigger s.pool.processes[pid]} ::
          0 <= pid < |s.pool.processes| && s.pool.processes[pid].holder.Some? ==>
          var c := s.pool.processes[pid].holder.value;
          c < |s.calls| && (s.calls[c].pc == Writing(pid) || s.calls[c].pc == Reading(pid)))
  }

  predicate HolderReads(s: State, pid: nat)
    requires pid < |s.pool.processes|
  {
    && s.pool.processes[pid].holder.Some?
    && s.pool.processes[pid].holder.value < |s.calls|
    && s.calls[s.pool.processes[pid].holder.value].pc == Reading(pid)
  }

  /** Unread requests of a process are accounted for by orphaned readers and by the call that is reading;
      that call's request is the last one written. */
  predicate Balanced(s: State, pid: nat)
    requires pid < |s.pool.processes|
  {
    var p := s.pool.processes[pid];
    && p.read <= p.answered <= |p.written|
    && (Over(p) || |p.written| - p.read == p.orphans + (if HolderReads(s, pid) then 1 else 0))
    && (HolderReads(s, pid) ==>
          |p.written| > 0 && p.written[|p.written| - 1] == Request(p.holder.value, s.calls[p.holder.value].attempt))
  }

  predicate Paired(s: State) {
    forall pid :: 0 <= pid < |s.pool.processes| ==> Balanced(s, pid)
  }

  predicate Inv(s: State) {
    Tracked(s.pool) && Aimed(s) && Locked(s) && Paired(s)
  }

  // The processes.

  lemma TrackedUpdate(pool: Pool, pid: nat, p: Process)
    requires Tracked(pool) && pid < |pool.processes|
    requires p.key == pool.processes[pid].key && p.reaped == pool.processes[pid].reaped
    requires p.alive ==> pool.processes[pid].alive
    ensures Tracked(pool.(processes := pool.processes[pid := p]))
  {
  }

  lemma TrackedStarted(pool: Pool, key: string, cmd: string)
    requires Tracked(pool) && key !in pool.workers
    ensures Tracked(Started(pool, key, cmd))
  {
  }

  lemma TrackedRemoved(pool: Pool, key: string)
    requires Tracked(pool)
    ensures Tracked(Removed(pool, key)) && key !in Removed(pool, key).workers
  {
  }

  lemma TrackedStopped(pool: Pool)
    requires Tracked(pool)
    ensures Tracked(Stopped(pool))
  {
  }

  /** `getOrCreateWorker` never meets a worker that was waited for: a registered worker is always reused. */
  lemma GotReuses(pool: Pool, key: string, cmd: Option<string>, starts: bool)
    requires Tracked(pool)
    ensures Tracked(Got(pool, key, cmd, starts).0)
    ensures key in pool.workers ==> Got(pool, key, cmd, starts) == (pool, Some(pool.workers[key]))
  {
    if key !in pool.workers && cmd.Some? && starts { TrackedStarted(pool, key, cmd.value); }
  }

  lemma TrackedStep(s: State, a: Action)
    requires Tracked(s.pool) && Enabled(s, a)
    ensures Tracked(Apply(s, a).pool)
  {
    match a
    case SetRestartCommand(_, _) =>
    case Invoke(_, _) =>
    case Get(c, starts) => GotReuses(s.pool, s.calls[c].key, s.calls[c].cmd, starts);
    case Restart(c, starts) =>
      var key := s.calls[c].key;
      TrackedRemoved(s.pool, key);
      if key in s.pool.restart && starts { TrackedStarted(Removed(s.pool, key), key, s.pool.restart[key]); }
    case Shutdown => TrackedStopped(s.pool);
    case Lock(c) => TrackedTouch(s, a, s.calls[c].pc.pid);
    case Write(c, _) => TrackedTouch(s, a, s.calls[c].pc.pid);
    case ReadResponse(c, _) => TrackedTouch(s, a, s.calls[c].pc.pid);
    case ReadEnd(c) => TrackedTouch(s, a, s.calls[c].pc.pid);
    case Cancel(c) => TrackedTouch(s, a, s.calls[c].pc.pid);
    case Answer(pid) => TrackedTouch(s, a, pid);
    case Hangup(pid, _) => TrackedTouch(s, a, pid);
    case Exit(pid) => TrackedTouch(s, a, pid);
    case OrphanRead(pid) => TrackedTouch(s, a, pid);
    case Tear(pid) => TrackedTouch(s, a, pid);
  }

  /** An action that concerns one process. */
  predicate Touches(s: State, a: Action, pid: nat)
    requires Enabled(s, a)
  {
    match a
    case Lock(c) => s.calls[c].pc.pid == pid
    case Write(c, _) => s.calls[c].pc.pid == pid
    case ReadResponse(c, _) => s.calls[c].pc.pid == pid
    case ReadEnd(c) => s.calls[c].pc.pid == pid
    case Cancel(c) => s.calls[c].pc.pid == pid
    case Answer(p) => p == pid
    case Hangup(p, _) => p == pid
    case Exit(p) => p == pid
    case OrphanRead(p) => p == pid
    case Tear(p) => p == pid
    case _ => false
  }

  lemma TouchesOne(s: State, a: Action, pid: nat)
    requires Enabled(s, a) && Touches(s, a, pid)
    ensures pid < |s.pool.processes| == |Apply(s, a).pool.processes|
    ensures var p, q := s.pool.processes[pid], Apply(s, a).pool.processes[pid];
            && q.key == p.key && q.cmd == p.cmd && q.reaped == p.reaped && (q.alive ==> p.alive)
            && Apply(s, a).pool == s.pool.(processes := s.pool.processes[pid := q])
  {
  }

  lemma TrackedTouch(s: State, a: Action, pid: nat)
    requires Tracked(s.pool) && Enabled(s, a) && Touches(s, a, pid)
    ensures Tracked(Apply(s, a).pool)
  {
    TouchesOne(s, a, pid);
    TrackedUpdate(s.pool, pid, Apply(s, a).pool.processes[pid]);
  }

  // The calls.

  /** One process as another step of the manager may leave it: at most closed or killed. */
  predicate Weaker(p: Process, q: Process) {
    && q.key == p.key && q.cmd == p.cmd && q.holder == p.holder && q.orphans == p.orphans && q.torn == p.torn
    && q.written == p.written && q.answered == p.answered && q.read == p.read
    && (q.readable ==> p.readable) && (q.stdoutOpen ==> p.stdoutOpen)
  }

  /** A pool as the manager's critical sections change it. */
  predicate Extends(pool: Pool, pool': Pool) {
    && |pool.processes| <= |pool'.processes|
    && (forall pid {:trigger pool'.processes[pid]} :: 0 <= pid < |pool.processes| ==>
          Weaker(pool.processes[pid], pool'.processes[pid]))
    && (forall pid :: |pool.processes| <= pid < |pool'.processes| ==>
          pool'.processes[pid] == Fresh(pool'.processes[pid].key, pool'.processes[pid].cmd))
    && pool.restart.Keys <= pool'.restart.Keys
  }

  /** Changing the pool and letting at most one call between two attempts move on. */
  lemma PoolStep(s: State, pool: Pool, calls: seq<Call>)
    requires Inv(s) && Extends(s.pool, pool) && |calls| == |s.calls|
    requires forall c :: 0 <= c < |calls| && calls[c] != s.calls[c] ==>
      && (s.calls[c].pc.Fetching? || s.calls[c].pc.Failing?)
      && (calls[c].pc.Waiting? || calls[c].pc.Done?)
    ensures Locked(State(pool, calls)) && Paired(State(pool, calls))
  {
    var t := State(pool, calls);
    forall pid | 0 <= pid < |pool.processes| ensures Balanced(t, pid) {
      if pid < |s.pool.processes| {
        assert Weaker(s.pool.processes[pid], pool.processes[pid]) && Balanced(s, pid);
      }
    }
  }

  lemma ManagerExtends(s: State, a: Action)
    requires Tracked(s.pool) && Enabled(s, a)
    requires a.SetRestartCommand? || a.Get? || a.Restart? || a.Shutdown?
    ensures Extends(s.pool, Apply(s, a).pool)
  {
    if a.Get? {
      GotExtends(s.pool, s.calls[a.call].key, s.calls[a.call].cmd, a.starts);
    } else if a.Restart? {
      RestartedExtends(s.pool, s.calls[a.call].key, a.starts);
    }
  }

  lemma GotExtends(pool: Pool, key: string, cmd: Option<string>, starts: bool)
    requires Tracked(pool)
    ensures Extends(pool, Got(pool, key, cmd, starts).0)
  {
    GotReuses(pool, key, cmd, starts);
  }

  lemma RestartedExtends(pool: Pool, key: string, starts: bool)
    requires Tracked(pool)
    ensures Extends(pool, Restarted(pool, key, starts).0)
  {
  }

  /** Processes keep their keys, and keys their restart commands. */
  predicate KeysKept(pool: Pool, pool': Pool) {
    && |pool.processes| <= |pool'.processes|
    && (forall pid {:trigger pool'.processes[pid]} :: 0 <= pid < |pool.processes| ==>
          pool'.processes[pid].key == pool.processes[pid].key)
    && pool.restart.Keys <= pool'.restart.Keys
  }

  lemma KeysStep(s: State, a: Action)
    requires Tracked(s.pool) && Enabled(s, a)
    ensures KeysKept(s.pool, Apply(s, a).pool)
  {
    if a.SetRestartCommand? || a.Get? || a.Restart? || a.Shutdown? {
      ManagerExtends(s, a);
      forall pid | 0 <= pid < |s.pool.processes|
        ensures Apply(s, a).pool.processes[pid].key == s.pool.processes[pid].key
      {
        assert Weaker(s.pool.processes[pid], Apply(s, a).pool.processes[pid]);
      }
    }
  }

  /** The only call an action moves. */
  predicate Moves(a: Action, c: nat) {
    match a
    case Get(call, _) => call == c
    case Lock(call) => call == c
    case Write(call, _) => call == c
    case ReadResponse(call, _) => call == c
    case ReadEnd(call) => call == c
    case Cancel(call) => call == c
    case Restart(call, _) => call == c
    case _ => false
  }

  lemma OthersStay(s: State, a: Action)
    requires Enabled(s, a)
    ensures |s.calls| <= |Apply(s, a).calls|
    ensures forall c :: 0 <= c < |s.calls| && !Moves(a, c) ==> Apply(s, a).calls[c] == s.calls[c]
    ensures forall c :: |s.calls| <= c < |Apply(s, a).calls| ==>
              Apply(s, a).calls[c].pc == Fetching && Apply(s, a).calls[c].attempt == 1
  {
  }

  lemma MovedAimed(s: State, a: Action, c: nat)
    requires Inv(s) && Enabled(s, a) && Moves(a, c)
    ensures c < |s.calls| && AimedCall(Apply(s, a).pool, Apply(s, a).calls[c])
  {
    assert AimedCall(s.pool, s.calls[c]);
    if a.Get? { GotReuses(s.pool, s.calls[c].key, s.calls[c].cmd, a.starts); }
  }

  lemma AimedStep(s: State, a: Action)
    requires Inv(s) && Enabled(s, a)
    ensures Aimed(Apply(s, a))
  {
    OthersStay(s, a);
    KeysStep(s, a);
    forall c | 0 <= c < |Apply(s, a).calls| ensures AimedCall(Apply(s, a).pool, Apply(s, a).calls[c]) {
      if Moves(a, c) {
        MovedAimed(s, a, c);
      } else if c < |s.calls| {
        assert AimedCall(s.pool, s.calls[c]);
      }
    }
  }

  /** A call taking, using or leaving the worker it has. */
  lemma CallStep(s: State, c: nat, pid: nat, p: Process, pc: Pc)
    requires Inv(s) && c < |s.calls| && pid < |s.pool.processes|
    requires s.calls[c].pc in {Waiting(pid), Writing(pid), Reading(pid)}
    requires s.calls[c].pc == Waiting(pid) ==> s.pool.processes[pid].holder.None?
    requires if pc == Writing(pid) || pc == Reading(pid) then p.holder == Some(c)
             else p.holder.None? && (pc.Failing? || pc.Done?)
    ensures var t := WithPc(WithProcess(s, pid, p), c, pc);
            Locked(t) && (Balanced(t, pid) ==> Paired(t))
  {
    var t := WithPc(WithProcess(s, pid, p), c, pc);
    forall q | 0 <= q < |s.pool.processes| && q != pid ensures Balanced(t, q) {
      assert Balanced(s, q) && t.pool.processes[q] == s.pool.processes[q];
      assert s.pool.processes[q].holder != Some(c);
    }
  }

  lemma CallActions(s: State, a: Action)
    requires Inv(s) && Enabled(s, a)
    requires a.Lock? || a.Write? || a.ReadResponse? || a.ReadEnd? || a.Cancel?
    ensures Locked(Apply(s, a)) && Paired(Apply(s, a))
  {
    var c := a.call;
    var pid := s.calls[c].pc.pid;
    var t := Apply(s, a);
    TouchesOne(s, a, pid);
    BalancedAfter(s, a);
    CallStep(s, c, pid, t.pool.processes[pid], t.calls[c].pc);
    assert t == WithPc(WithProcess(s, pid, t.pool.processes[pid]), c, t.calls[c].pc);
  }

  lemma BalancedAfter(s: State, a: Action)
    requires Inv(s) && Enabled(s, a)
    requires a.Lock? || a.Write? || a.ReadResponse? || a.ReadEnd? || a.Cancel?
    ensures var pid := s.calls[a.call].pc.pid; pid < |Apply(s, a).pool.processes| && Balanced(Apply(s, a), pid)
  {
    assert Balanced(s, s.calls[a.call].pc.pid);
  }

  /** A process changing without its mutex changing hands. */
  lemma ProcessStep(s: State, pid: nat, p: Process)
    requires Inv(s) && pid < |s.pool.processes| && p.holder == s.pool.processes[pid].holder
    ensures Locked(WithProcess(s, pid, p))
    ensures Balanced(WithProcess(s, pid, p), pid) ==> Paired(WithProcess(s, pid, p))
  {
    var t := WithProcess(s, pid, p);
    forall q | 0 <= q < |s.pool.processes| && q != pid ensures Balanced(t, q) {
      assert Balanced(s, q) && t.pool.processes[q] == s.pool.processes[q];
    }
  }

  lemma ProcessActions(s: State, a: Action)
    requires Inv(s) && Enabled(s, a)
    requires a.Answer? || a.Hangup? || a.Exit? || a.OrphanRead? || a.Tear?
    ensures Locked(Apply(s, a)) && Paired(Apply(s, a))
  {
    var p := Apply(s, a).pool.processes[a.pid];
    assert Apply(s, a) == WithProcess(s, a.pid, p);
    ProcessBalanced(s, a);
    ProcessStep(s, a.pid, p);
  }

  lemma ProcessBalanced(s: State, a: Action)
    requires Paired(s) && Enabled(s, a)
    requires a.Answer? || a.Hangup? || a.Exit? || a.OrphanRead? || a.Tear?
    ensures Balanced(Apply(s, a), a.pid)
  {
    assert Balanced(s, a.pid);
    assert HolderReads(Apply(s, a), a.pid) == HolderReads(s, a.pid);
  }

  lemma InvStep(s: State, a: Action)
    requires Inv(s) && Enabled(s, a)
    ensures Inv(Apply(s, a))
  {
    TrackedStep(s, a);
    AimedStep(s, a);
    if a.Lock? || a.Write? || a.ReadResponse? || a.ReadEnd? || a.Cancel? {
      CallActions(s, a);
    } else if a.Answer? || a.Hangup? || a.Exit? || a.OrphanRead? || a.Tear? {
      ProcessActions(s, a);
    } else if a.Invoke? {
      InvokeKeeps(s, a);
    } else {
      ManagerExtends(s, a);
      PoolStep(s, Apply(s, a).pool, Apply(s, a).calls);
    }
  }

  lemma InvokeKeeps(s: State, a: Action)
    requires Inv(s) && a.Invoke?
    ensures Locked(Apply(s, a)) && Paired(Apply(s, a))
  {
    forall q | 0 <= q < |s.pool.processes| ensures Balanced(Apply(s, a), q) {
      assert Balanced(s, q);
    }
  }

  lemma {:induction false} RunInv(states: seq<State>, acts: seq<Action>, n: nat)
    requires IsRun(states, acts) && n < |states|
    ensures Inv(states[n])
  {
    if n > 0 {
      RunInv(states, acts, n - 1);
      assert StepAt(states, acts, n - 1);
      InvStep(states[n - 1], acts[n - 1]);
    }
  }

  // Requests are written once per attempt.

  /** A call has written its current attempt only once it is reading, or past that. */
  predicate Past(s: State, r: Request) {
    && r.call < |s.calls| && 1 <= r.attempt <= s.calls[r.call].attempt
    && (r.attempt == s.calls[r.call].attempt ==>
          s.calls[r.call].pc.Reading? || s.calls[r.call].pc.Failing? || s.calls[r.call].pc.Done?)
  }

  predicate AllPast(s: State) {
    forall pid, i {:trigger s.pool.processes[pid].written[i]} ::
      0 <= pid < |s.pool.processes| && 0 <= i < |s.pool.processes[pid].written| ==>
        Past(s, s.pool.processes[pid].written[i])
  }

  /** No request was written twice, to one process or to two. */
  predicate Unrepeated(pool: Pool) {
    forall pid, i, qid, j {:trigger pool.processes[pid].written[i], pool.processes[qid].written[j]} ::
      && 0 <= pid < |pool.processes| && 0 <= i < |pool.processes[pid].written|
      && 0 <= qid < |pool.processes| && 0 <= j < |pool.processes[qid].written|
      && pool.processes[pid].written[i] == pool.processes[qid].written[j]
      ==> pid == qid && i == j
  }

  /** The same requests as before, in processes that may be more. */
  predicate SameWrites(pool: Pool, pool': Pool) {
    && |pool.processes| <= |pool'.processes|
    && (forall pid {:trigger pool'.processes[pid]} :: 0 <= pid < |pool.processes| ==>
          pool'.processes[pid].written == pool.processes[pid].written)
    && (forall pid :: |pool.processes| <= pid < |pool'.processes| ==> pool'.processes[pid].written == [])
  }

  lemma WritesKept(s: State, a: Action)
    requires Inv(s) && Enabled(s, a) && !(a.Write? && a.ok)
    ensures SameWrites(s.pool, Apply(s, a).pool)
  {
    if a.SetRestartCommand? || a.Get? || a.Restart? || a.Shutdown? {
      ManagerExtends(s, a);
      forall pid | 0 <= pid < |s.pool.processes|
        ensures Apply(s, a).pool.processes[pid].written == s.pool.processes[pid].written
      {
        assert Weaker(s.pool.processes[pid], Apply(s, a).pool.processes[pid]);
      }
    }
  }

  lemma PastStep(s: State, a: Action, r: Request)
    requires Inv(s) && Enabled(s, a) && Past(s, r)
    ensures Past(Apply(s, a), r)
  {
  }

  lemma AllPastStep(s: State, a: Action)
    requires Inv(s) && Enabled(s, a) && AllPast(s)
    ensures AllPast(Apply(s, a))
  {
    var t := Apply(s, a);
    forall pid, i | 0 <= pid < |t.pool.processes| && 0 <= i < |t.pool.processes[pid].written|
      ensures Past(t, t.pool.processes[pid].written[i])
    {
      if a.Write? && a.ok && pid == s.calls[a.call].pc.pid && i == |s.pool.processes[pid].written| {
        assert t.pool.processes[pid].written[i] == Request(a.call, s.calls[a.call].attempt);
      } else {
        if !(a.Write? && a.ok) { WritesKept(s, a); }
        PastStep(s, a, s.pool.processes[pid].written[i]);
      }
    }
  }

  lemma UnrepeatedStep(s: State, a: Action)
    requires Inv(s) && Enabled(s, a) && AllPast(s) && Unrepeated(s.pool)
    ensures Unrepeated(Apply(s, a).pool)
  {
    if a.Write? && a.ok {
      var next := Request(a.call, s.calls[a.call].attempt);
      assert !Past(s, next);
      UnrepeatedWrite(s.pool, s.calls[a.call].pc.pid, next);
      assert Apply(s, a).pool.processes == WithWrite(s.pool, s.calls[a.call].pc.pid, next).processes;
    } else {
      WritesKept(s, a);
    }
  }

  function WithWrite(pool: Pool, pid: nat, r: Request): Pool
    requires pid < |pool.processes|
  {
    pool.(processes := pool.processes[pid := pool.processes[pid].(written := pool.processes[pid].written + [r])])
  }

  lemma UnrepeatedWrite(pool: Pool, pid: nat, r: Request)
    requires pid < |pool.processes| && Unrepeated(pool)
    requires forall q, i {:trigger pool.processes[q].written[i]} ::
      0 <= q < |pool.processes| && 0 <= i < |pool.processes[q].written| ==> pool.processes[q].written[i] != r
    ensures Unrepeated(WithWrite(pool, pid, r))
  {
  }

  lemma {:induction false} RunWrites(states: seq<State>, acts: seq<Action>, n: nat)
    requires IsRun(states, acts) && n < |states|
    ensures AllPast(states[n]) && Unrepeated(states[n].pool)
  {
    if n > 0 {
      RunWrites(states, acts, n - 1);
      RunInv(states, acts, n - 1);
      assert StepAt(states, acts, n - 1);
      AllPastStep(states[n - 1], acts[n - 1]);
      UnrepeatedStep(states[n - 1], acts[n - 1]);
    }
  }

  /** A call is tried at most twice: each of its two attempts is written at most once, over all processes ever
      started. */
  lemma RetriedOnce(states: seq<State>, acts: seq<Action>, n: nat, pid: nat, i: nat, qid: nat, j: nat)
    requires IsRun(states, acts) && n < |states|
    requires pid < |states[n].pool.processes| && i < |states[n].pool.processes[pid].written|
    requires qid < |states[n].pool.processes| && j < |states[n].pool.processes[qid].written|
    ensures var r, q := states[n].pool.processes[pid].written[i], states[n].pool.processes[qid].written[j];
            && r.attempt in {1, 2}
            && (r.call == q.call && r.attempt == q.attempt ==> pid == qid && i == j)
  {
    RunWrites(states, acts, n);
    RunInv(states, acts, n);
    assert Past(states[n], states[n].pool.processes[pid].written[i]);
  }

  // The results.

  /** In every run, what is returned from output that is not torn is the answer to the caller's own request exactly when
      no cancelled call has left a reader on that worker that is still there. */
  lemma OwnAnswerExactly(states: seq<State>, acts: seq<Action>, n: nat, c: nat)
    requires IsRun(states, acts) && n < |acts| && acts[n] == ReadResponse(c, true)
    ensures var s := states[n];
            && c < |s.calls| == |states[n + 1].calls|
            && s.calls[c].pc.Reading? && s.calls[c].pc.pid < |s.pool.processes|
            && states[n + 1].calls[c].pc.Done? && states[n + 1].calls[c].pc.result.Some?
            && var p := s.pool.processes[s.calls[c].pc.pid];
               (!p.torn ==> (states[n + 1].calls[c].pc.result.value == To(Request(c, s.calls[c].attempt))
                             <==> p.orphans == 0))
  {
    RunInv(states, acts, n);
    RunWrites(states, acts, n);
    assert StepAt(states, acts, n);
    var s := states[n];
    var pid := s.calls[c].pc.pid;
    var p := s.pool.processes[pid];
    assert Balanced(s, pid) && p.holder == Some(c);
    assert p.written[p.read] == p.written[|p.written| - 1] <==> p.read == |p.written| - 1;
  }

  predicate NoOrphans(s: State) {
    forall pid :: 0 <= pid < |s.pool.processes| ==> s.pool.processes[pid].orphans == 0 && !s.pool.processes[pid].torn
  }

  /** A call that returned a response returned the answer to its own request. */
  predicate Own(s: State) {
    forall c {:trigger s.calls[c]} :: 0 <= c < |s.calls| && s.calls[c].pc.Done? && s.calls[c].pc.result.Some? ==>
      s.calls[c].pc.result.value.To? && s.calls[c].pc.result.value.request.call == c
  }

  lemma NoOrphansStep(s: State, a: Action)
    requires Inv(s) && Enabled(s, a) && !a.Cancel? && NoOrphans(s)
    ensures NoOrphans(Apply(s, a))
  {
    if a.SetRestartCommand? || a.Get? || a.Restart? || a.Shutdown? {
      ManagerExtends(s, a);
      forall pid | 0 <= pid < |Apply(s, a).pool.processes|
        ensures Apply(s, a).pool.processes[pid].orphans == 0 && !Apply(s, a).pool.processes[pid].torn
      {
        if pid < |s.pool.processes| { assert Weaker(s.pool.processes[pid], Apply(s, a).pool.processes[pid]); }
      }
    }
  }

  lemma OwnStep(s: State, a: Action)
    requires Inv(s) && Enabled(s, a) && NoOrphans(s) && Own(s)
    ensures Own(Apply(s, a))
  {
    if a.ReadResponse? {
      var pid := s.calls[a.call].pc.pid;
      assert Balanced(s, pid) && s.pool.processes[pid].holder == Some(a.call);
    }
  }

  /** If no context is cancelled, every `Execute` that returns a result returns the answer to its own request. */
  lemma {:induction false} ResultsAnswerOwnRequests(states: seq<State>, acts: seq<Action>, n: nat)
    requires IsRun(states, acts) && n < |states|
    requires forall i :: 0 <= i < |acts| ==> !acts[i].Cancel?
    ensures NoOrphans(states[n]) && Own(states[n])
  {
    if n > 0 {
      ResultsAnswerOwnRequests(states, acts, n - 1);
      RunInv(states, acts, n - 1);
      assert StepAt(states, acts, n - 1);
      NoOrphansStep(states[n - 1], acts[n - 1]);
      OwnStep(states[n - 1], acts[n - 1]);
    }
  }

  lemma Extended(states: seq<State>, acts: seq<Action>, a: Action)
    requires IsRun(states, acts) && Enabled(states[|acts|], a)
    ensures IsRun(states + [Apply(states[|acts|], a)], acts + [a])
  {
    var states', acts' := states + [Apply(states[|acts|], a)], acts + [a];
    forall i | 0 <= i < |acts'| ensures StepAt(states', acts', i) {
      if i < |acts| { assert StepAt(states, acts, i); }
    }
  }

  /** Conversely, a call that is reading from a live worker with such a reader can be handed another call's answer. */
  lemma OrphanMisleads(states: seq<State>, acts: seq<Action>, c: nat) returns (states': seq<State>, acts': seq<Action>)
    requires IsRun(states, acts)
    requires var s := states[|acts|];
             && c < |s.calls| && s.calls[c].pc.Reading? && s.calls[c].pc.pid < |s.pool.processes|
             && var p := s.pool.processes[s.calls[c].pc.pid];
                p.orphans > 0 && p.alive && p.stdoutOpen && p.readable
    ensures IsRun(states', acts') && acts <= acts'
    ensures c < |states'[|acts'|].calls| && states'[|acts'|].calls[c].pc.Done?
    ensures var result := states'[|acts'|].calls[c].pc.result;
            result.Some? && result.value != To(Request(c, states[|acts|].calls[c].attempt))
  {
    RunInv(states, acts, |acts|);
    states', acts' := states, acts;
    var s := states[|acts|];
    var pid := s.calls[c].pc.pid;
    assert Balanced(s, pid);
    if s.pool.processes[pid].answered == s.pool.processes[pid].read {
      Extended(states', acts', Answer(pid));
      states', acts' := states' + [Apply(s, Answer(pid))], acts' + [Answer(pid)];
    }
    var n := |acts'|;
    Extended(states', acts', ReadResponse(c, true));
    states', acts' := states' + [Apply(states'[n], ReadResponse(c, true))], acts' + [ReadResponse(c, true)];
    OwnAnswerExactly(states', acts', n, c);
  }

  ghost predicate Reachable(s: State) {
    exists states, acts :: IsRun(states, acts) && states[|acts|] == s
  }

  lemma StepReachable(s: State, a: Action, t: State)
    requires Reachable(s) && Enabled(s, a) && t == Apply(s, a)
    ensures Reachable(t)
  {
    var states, acts :| IsRun(states, acts) && states[|acts|] == s;
    Extended(states, acts, a);
    assert IsRun(states + [t], acts + [a]) && (states + [t])[|acts + [a]|] == t;
  }

  /** The state once a call that waits for an idle worker has its request written. */
  function Sent(s: State, c: nat, pid: nat): State
    requires At(s, c, pid)
  {
    var p := s.pool.processes[pid];
    WithPc(WithProcess(s, pid, p.(written := p.written + [Request(c, s.calls[c].attempt)], holder := Some(c))), c,
           Reading(pid))
  }

  predicate Ready(s: State, c: nat, pid: nat) {
    && At(s, c, pid)
    && s.calls[c].pc == Waiting(pid) && s.pool.processes[pid].holder.None? && s.pool.processes[pid].stdinOpen
  }

  lemma SentReachable(s: State, c: nat, pid: nat)
    requires Reachable(s) && Ready(s, c, pid)
    ensures Reachable(Sent(s, c, pid))
  {
    var locked := Apply(s, Lock(c));
    StepReachable(s, Lock(c), locked);
    StepReachable(locked, Write(c, true), Apply(locked, Write(c, true)));
    assert Apply(locked, Write(c, true)) == Sent(s, c, pid) by {
      assert Apply(locked, Write(c, true)).calls == Sent(s, c, pid).calls;
      assert Apply(locked, Write(c, true)).pool.processes == Sent(s, c, pid).pool.processes;
    }
  }

  /** And once that call is then cancelled. */
  function Abandoned(s: State, c: nat, pid: nat): State
    requires At(s, c, pid)
  {
    var p := s.pool.processes[pid];
    WithPc(WithProcess(s, pid, p.(written := p.written + [Request(c, s.calls[c].attempt)], orphans := p.orphans + 1)),
           c, Failure(s.calls[c]))
  }

  lemma AbandonedReachable(s: State, c: nat, pid: nat)
    requires Reachable(s) && Ready(s, c, pid)
    ensures Reachable(Abandoned(s, c, pid))
  {
    SentReachable(s, c, pid);
    var sent := Sent(s, c, pid);
    StepReachable(sent, Cancel(c), Apply(sent, Cancel(c)));
    assert Apply(sent, Cancel(c)) == Abandoned(s, c, pid) by {
      assert Apply(sent, Cancel(c)).calls == Abandoned(s, c, pid).calls;
      assert Apply(sent, Cancel(c)).pool.processes == Abandoned(s, c, pid).pool.processes;
    }
  }

  /** A first call, about to use a worker it has just started. */
  lemma FirstCallReady() returns (s: State)
    ensures Reachable(s) && Ready(s, 0, 0) && |s.calls| == 1 && |s.pool.processes| == 1
    ensures s.calls[0].key == "k" && s.calls[0].attempt == 1 && s.pool.workers == map["k" := 0]
    ensures s.pool.restart == map["k" := "cmd"]
  {
    var none: seq<Action> := [];
    assert IsRun([INIT], none) && [INIT][|none|] == INIT;
    var t := Apply(INIT, Invoke("k", Some("cmd")));
    StepReachable(INIT, Invoke("k", Some("cmd")), t);
    s := Apply(t, Get(0, true));
    StepReachable(t, Get(0, true), s);
  }

  /** That call cancelled in both its attempts: its second worker is registered and has an answer to come. */
  lemma CancelledTwice() returns (s: State)
    ensures Reachable(s) && |s.calls| == 1 && |s.pool.processes| == 2
    ensures s.pool.workers == map["k" := 1]
    ensures s.pool.processes[1] == Fresh("k", "cmd").(written := [Request(0, 2)], orphans := 1)
  {
    var first := FirstCallReady();
    AbandonedReachable(first, 0, 0);
    var failed := Abandoned(first, 0, 0);
    var second := Apply(failed, Restart(0, true));
    StepReachable(failed, Restart(0, true), second);
    AbandonedReachable(second, 0, 1);
    s := Abandoned(second, 0, 1);
    assert second.pool.processes[1] == Fresh("k", "cmd");
    assert Fresh("k", "cmd").written + [Request(0, 2)] == [Request(0, 2)];
  }

  /** A run that cancels one call, after which the next call on the same worker is given the cancelled call's answer. */
  lemma CancelledCallMisleadsNext()
    ensures exists states: seq<State>, acts: seq<Action> ::
      IsRun(states, acts) && |states[|acts|].calls| == 2 && states[|acts|].calls[1].pc == Done(Some(To(Request(0, 2))))
  {
    var s := CancelledTwice();
    var invoked := Apply(s, Invoke("k", None));
    StepReachable(s, Invoke("k", None), invoked);
    var ready := Apply(invoked, Get(1, true));
    StepReachable(invoked, Get(1, true), ready);
    SentReachable(ready, 1, 1);
    var sent := Sent(ready, 1, 1);
    var answered := Apply(sent, Answer(1));
    StepReachable(sent, Answer(1), answered);
    var t := Apply(answered, ReadResponse(1, true));
    StepReachable(answered, ReadResponse(1, true), t);
    assert t.calls[1].pc == Done(Some(To(Request(0, 2))));
  }

  /** In every state of every run: each process that is alive is registered under its key (so every other one
      was killed or exited), and each registered key can be restarted, as can each key whose call is about to. */
  lemma ProcessesAccounted(states: seq<State>, acts: seq<Action>, n: nat)
    requires IsRun(states, acts) && n < |states|
    ensures var pool := states[n].pool;
            && (forall pid :: 0 <= pid < |pool.processes| && pool.processes[pid].alive ==>
                  pool.processes[pid].key in pool.workers && pool.workers[pool.processes[pid].key] == pid)
            && (forall key :: key in pool.workers ==> key in pool.restart)
            && (forall c {:trigger states[n].calls[c]} ::
                  0 <= c < |states[n].calls| && states[n].calls[c].pc.Failing? ==>
                  states[n].calls[c].key in pool.restart)
  {
    RunInv(states, acts, n);
  }

  /** `Shutdown` leaves no process alive and no worker registered; it closes both pipes of those that were, and waits
      for them. */
  lemma ShutdownKillsAll(states: seq<State>, acts: seq<Action>, n: nat)
    requires IsRun(states, acts) && n < |acts| && acts[n].Shutdown?
    ensures var pool := states[n + 1].pool;
            && pool.workers == map[] && (forall pid :: 0 <= pid < |pool.processes| ==> !pool.processes[pid].alive)
            && forall key :: key in states[n].pool.workers ==>
                 var pid := states[n].pool.workers[key];
                 && pid < |pool.processes| && pool.processes[pid].reaped
                 && !pool.processes[pid].stdinOpen && !pool.processes[pid].readable
  {
    RunInv(states, acts, n);
    RunInv(states, acts, n + 1);
    assert StepAt(states, acts, n);
  }

  /** A call that reads from a worker whose output has ended or was closed can go on: it is given what there still is to
      read, or the end. */
  lemma ReadersGoOn(states: seq<State>, acts: seq<Action>, n: nat, c: nat)
    requires IsRun(states, acts) && n < |states| && c < |states[n].calls| && states[n].calls[c].pc.Reading?
    ensures states[n].calls[c].pc.pid < |states[n].pool.processes|
    ensures var p := states[n].pool.processes[states[n].calls[c].pc.pid];
            !p.stdoutOpen || !p.readable ==>
              Enabled(states[n], ReadResponse(c, true)) || Enabled(states[n], ReadEnd(c))
  {
    RunInv(states, acts, n);
    assert Balanced(states[n], states[n].calls[c].pc.pid);
  }
}
