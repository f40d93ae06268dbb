/**
 `PersistentWorkerManager` as an object: the methods that run under its mutex, proved
 to be the steps of the transition system of `PersistentWorkers`.
 */
module PersistentManager {
  import opened Wrappers
  import opened PersistentWorkers

  class Manager {
    var processes: seq<Process>
    var workers: map<string, nat>
    var restart: map<string, string>

    function View(): Pool
      reads this
    {
      Pool(processes, workers, restart)
    }

    constructor ()
      ensures View() == INIT.pool && Tracked(View())
    {
      processes, workers, restart := [], map[], map[];
    }

    method SetRestartCommand(key: string, cmd: string)
      modifies this
      ensures View() == old(View()).(restart := old(restart)[key := cmd])
      ensures old(Tracked(View())) ==> Tracked(View())
    {
      restart := restart[key := cmd];
    }

    /** `startWorker` and the registration its callers do; `starts` says whether the process starts. */
    method StartWorker(key: string, cmd: string, starts: bool) returns (worker: Option<nat>)
      requires key !in workers
      modifies this
      ensures old(Tracked(View())) ==> Tracked(View())
      ensures if starts then View() == Started(old(View()), key, cmd) && worker == Some(|old(processes)|)
              else View() == old(View()) && worker == None
      ensures starts ==>
                && |processes| == |old(processes)| + 1 && processes[..|old(processes)|] == old(processes)
                && processes[|old(processes)|].key == key && processes[|old(processes)|].cmd == cmd
                && workers == old(workers)[key := |old(processes)|]
                && (key in old(restart) ==> restart == old(restart))
                && (key !in old(restart) ==> restart == old(restart)[key := cmd])
    {
      if !starts { return None; }
      ghost var pool := View();
      if key !in restart { restart := restart[key := cmd]; }
      worker := Some(|processes|);
      processes := processes + [Fresh(key, cmd)];
      workers := workers[key := worker.value];
      if Tracked(pool) { TrackedStarted(pool, key, cmd); }
    }

    /** A registered worker is always reused, even one whose process has exited: exits are only noticed by
        `Wait`, and only workers that are being removed are waited for. */
    method GetOrCreateWorker(key: string, cmd: Option<string>, starts: bool) returns (worker: Option<nat>)
      requires Registered(View())
      modifies this
      ensures (View(), worker) == Got(old(View()), key, cmd, starts)
      ensures old(Tracked(View())) ==> Tracked(View())
      ensures old(Tracked(View())) && key in old(workers) ==> worker == Some(old(workers)[key]) && View() == old(View())
      ensures old(Tracked(View())) && worker.Some? ==> key in workers && workers[key] == worker.value && key in restart
    {
      ghost var pool := View();
      if Tracked(pool) { GotReuses(pool, key, cmd, starts); }
      if key in workers {
        var w := workers[key];
        if !processes[w].reaped { return Some(w); }
        processes := processes[w := Closed(processes[w])];
        workers := workers - {key};
      }
      if cmd.None? { return None; }
      worker := StartWorker(key, cmd.value, starts);
    }

    /** Closes and kills the worker of a key, waits for it and forgets it. */
    method Remove(key: string)
      requires Registered(View())
      modifies this
      ensures View() == Removed(old(View()), key)
    {
      if key in workers {
        processes := processes[workers[key] := Killed(processes[workers[key]])];
        workers := workers - {key};
      }
    }

    method RestartWorker(key: string, starts: bool) returns (worker: Option<nat>)
      requires Registered(View())
      modifies this
      ensures (View(), worker) == Restarted(old(View()), key, starts)
      ensures old(Tracked(View())) ==> Tracked(View())
      ensures key in old(workers) ==>
                var p := processes[old(workers)[key]]; !p.alive && p.reaped && !p.stdinOpen && !p.readable
      ensures worker.Some? <==> key in old(restart) && starts
      ensures worker.Some? ==>
                && worker.value == |old(processes)| < |processes|
                && processes[worker.value].key == key && processes[worker.value].cmd == old(restart)[key]
    {
      ghost var pool := View();
      if Tracked(pool) { TrackedRemoved(pool, key); }
      Remove(key);
      if key !in restart { return None; }
      worker := StartWorker(key, restart[key], starts);
    }

    method Shutdown()
      requires Tracked(View())
      modifies this
      ensures Tracked(View()) && View() == Stopped(old(View()))
    {
      ghost var pool := View();
      ghost var gone: set<string> := {};
      while workers != map[]
        invariant gone <= pool.workers.Keys && View() == PartlyStopped(pool, gone)
        decreases |workers|
      {
        var key: string :| key in workers;
        PartlyMore(pool, gone, key);
        assert |workers.Keys - {key}| < |workers.Keys|;
        Remove(key);
        gone := gone + {key};
      }
      PartlyAll(pool, gone);
      TrackedStopped(pool);
    }
  }

  /** The pool when the workers of some keys have been removed. */
  function PartlyStopped(pool: Pool, gone: set<string>): Pool {
    pool.(processes := seq(|pool.processes|, i requires 0 <= i < |pool.processes| => Stop(pool, gone, i)),
          workers := pool.workers - gone)
  }

  function Stop(pool: Pool, gone: set<string>, i: nat): Process
    requires i < |pool.processes|
  {
    var p := pool.processes[i];
    if p.key in gone && p.key in pool.workers && pool.workers[p.key] == i then Killed(p) else p
  }

  lemma PartlyMore(pool: Pool, gone: set<string>, key: string)
    requires Tracked(pool) && gone <= pool.workers.Keys && key in pool.workers && key !in gone
    ensures Registered(PartlyStopped(pool, gone))
    ensures Removed(PartlyStopped(pool, gone), key) == PartlyStopped(pool, gone + {key})
  {
    var one, more := Removed(PartlyStopped(pool, gone), key), PartlyStopped(pool, gone + {key});
    assert one.workers == more.workers;
    assert one.processes == more.processes;
  }

  lemma PartlyAll(pool: Pool, gone: set<string>)
    requires Tracked(pool) && gone <= pool.workers.Keys && pool.workers - gone == map[]
    ensures PartlyStopped(pool, gone) == Stopped(pool)
  {
    forall key | key in pool.workers ensures key in gone {
      assert key !in pool.workers - gone;
    }
    forall i | 0 <= i < |pool.processes| ensures PartlyStopped(pool, gone).processes[i] == Stopped(pool).processes[i] {
      assert i in pool.workers.Values
             <==> pool.processes[i].key in pool.workers && pool.workers[pool.processes[i].key] == i;
    }
    assert PartlyStopped(pool, gone).processes == Stopped(pool).processes;
  }
}
