/**
 Which command each persistent worker process was started by, and which one a dead worker
 is restarted with.
 */
module PersistentCommands {
  import opened Wrappers
  import opened PersistentWorkers

  /** The processes a step starts: at most one. */
  predicate StartsOne(s: State, t: State) {
    |t.pool.processes| == |s.pool.processes| + 1
  }

  /** What a step does to commands. A process keeps its key and its command. A new one has those of the call that asked
      for it, or, at a restart, the restart command of the key. Restart commands change when one is set, and when the
      first process of a key is started. */
  predicate Commands(s: State, a: Action, t: State) {
    && |s.pool.processes| <= |t.pool.processes| <= |s.pool.processes| + 1
    && (forall pid {:trigger t.pool.processes[pid]} :: 0 <= pid < |s.pool.processes| ==>
          t.pool.processes[pid].key == s.pool.processes[pid].key
            && t.pool.processes[pid].cmd == s.pool.processes[pid].cmd)
    && (StartsOne(s, t) ==>
          && (a.Get? || a.Restart?) && a.call < |s.calls|
          && var q, call := t.pool.processes[|s.pool.processes|], s.calls[a.call];
             && q.key == call.key
             && (a.Get? ==> call.cmd == Some(q.cmd))
             && (a.Restart? ==> call.key in s.pool.restart && q.cmd == s.pool.restart[call.key]))
    && t.pool.restart ==
         if a.SetRestartCommand? then s.pool.restart[a.key := a.cmd]
         else if StartsOne(s, t) && t.pool.processes[|s.pool.processes|].key !in s.pool.restart
         then s.pool.restart[t.pool.processes[|s.pool.processes|].key := t.pool.processes[|s.pool.processes|].cmd]
         else s.pool.restart
  }

  lemma CommandsStep(s: State, a: Action)
    requires Tracked(s.pool) && Enabled(s, a)
    ensures Commands(s, a, Apply(s, a))
  {
    if a.SetRestartCommand? || a.Get? || a.Restart? || a.Shutdown? {
      ManagerCommands(s, a);
    } else if a.Lock? || a.Write? || a.ReadResponse? || a.ReadEnd? || a.Cancel? {
      TouchesOne(s, a, s.calls[a.call].pc.pid);
    } else if !a.Invoke? {
      TouchesOne(s, a, a.pid);
    }
  }

  lemma ManagerCommands(s: State, a: Action)
    requires Tracked(s.pool) && Enabled(s, a)
    requires a.SetRestartCommand? || a.Get? || a.Restart? || a.Shutdown?
    ensures Commands(s, a, Apply(s, a))
  {
    if a.Get? {
      GotReuses(s.pool, s.calls[a.call].key, s.calls[a.call].cmd, a.starts);
    }
  }

  /** At every step of every run. */
  lemma StartedBy(states: seq<State>, acts: seq<Action>, i: nat)
    requires IsRun(states, acts) && i < |acts|
    ensures Commands(states[i], acts[i], states[i + 1])
  {
    RunInv(states, acts, i);
    assert StepAt(states, acts, i);
    CommandsStep(states[i], acts[i]);
  }

  predicate Sets(a: Action, key: string) {
    a.SetRestartCommand? && a.key == key
  }

  predicate NeverSet(acts: seq<Action>, i: nat, key: string)
    requires i <= |acts|
  {
    forall j :: 0 <= j < i ==> !Sets(acts[j], key)
  }

  /** The last command set for a key before step i. */
  predicate LastSet(acts: seq<Action>, j: nat, i: nat, key: string)
    requires i <= |acts|
  {
    j < i && Sets(acts[j], key) && forall k :: j < k < i ==> !Sets(acts[k], key)
  }

  /** The first process of a key. */
  predicate First(pool: Pool, key: string, pid: nat) {
    && pid < |pool.processes| && pool.processes[pid].key == key
    && forall p :: 0 <= p < pid ==> pool.processes[p].key != key
  }

  ghost predicate Remembers(states: seq<State>, acts: seq<Action>, i: nat, key: string)
    requires i < |states| == |acts| + 1
  {
    var pool := states[i].pool;
    if key in pool.restart then
      || (exists j: nat :: LastSet(acts, j, i, key) && acts[j].cmd == pool.restart[key])
      || (NeverSet(acts, i, key) &&
          exists pid: nat :: First(pool, key, pid) && pool.processes[pid].cmd == pool.restart[key])
    else
      NeverSet(acts, i, key) && forall pid :: 0 <= pid < |pool.processes| ==> pool.processes[pid].key != key
  }

  /** In every run, the restart command of a key is the one that was last set for it or, if none was, the one that
      started its first process. There is none exactly while neither has happened. */
  lemma {:induction false} RestartExactly(states: seq<State>, acts: seq<Action>, i: nat, key: string)
    requires IsRun(states, acts) && i < |states|
    ensures Remembers(states, acts, i, key)
  {
    if i == 0 {
      RemembersInit(states, acts, key);
    } else {
      RestartExactly(states, acts, i - 1, key);
      RemembersStep(states, acts, i - 1, key);
    }
  }

  lemma RemembersInit(states: seq<State>, acts: seq<Action>, key: string)
    requires |states| == |acts| + 1 && states[0] == INIT
    ensures Remembers(states, acts, 0, key)
  {
  }

  lemma RemembersStep(states: seq<State>, acts: seq<Action>, i: nat, key: string)
    requires IsRun(states, acts) && i < |acts| && Remembers(states, acts, i, key)
    ensures Remembers(states, acts, i + 1, key)
  {
    StartedBy(states, acts, i);
    RemembersNext(states, acts, i, key);
  }

  lemma RemembersNext(states: seq<State>, acts: seq<Action>, i: nat, key: string)
    requires i < |acts| && |states| == |acts| + 1 && Commands(states[i], acts[i], states[i + 1])
    requires Remembers(states, acts, i, key)
    ensures Remembers(states, acts, i + 1, key)
  {
    var pool, pool' := states[i].pool, states[i + 1].pool;
    if Sets(acts[i], key) {
      assert LastSet(acts, i, i + 1, key);
    } else if key in pool.restart {
      if j: nat :| LastSet(acts, j, i, key) && acts[j].cmd == pool.restart[key] {
        assert LastSet(acts, j, i + 1, key);
      } else {
        var pid: nat :| First(pool, key, pid) && pool.processes[pid].cmd == pool.restart[key];
        assert First(pool', key, pid);
      }
    } else if key in pool'.restart {
      assert First(pool', key, |pool.processes|);
    }
  }
}
