/** internal/daemon/process.go: the critical sections of ProcessManager.
    Every child gets a pid that is never reused, so a pid also stands for its *exec.Cmd. */
module Processes {
  import opened Text

  /** `state` in Start, shared by the waiter goroutine and the Start call of one child. */
  datatype Phase = Starting | Running | ExitedEarly

  /** Everything pm.mu guards. */
  datatype Tables = Tables(procs: map<string, nat>, adopted: map<string, nat>, phases: map<nat, Phase>)

  datatype StartResult = AlreadyRunning(pid: nat) | NoCommand | SpawnFailed | Spawned(pid: nat)

  /** What Start learns from the outside: the two liveness probes, whether the route has a
      command, and the pid of the new child if one could be started. */
  datatype StartInput = StartInput(procAlive: bool, adoptedAlive: bool, hasCmd: bool, spawn: Option<nat>)

  function StartSection(t: Tables, name: string, env: StartInput): (Tables, StartResult) {
    if name in t.procs && env.procAlive then (t, AlreadyRunning(t.procs[name]))
    else if name in t.adopted && env.adoptedAlive then (t, AlreadyRunning(t.adopted[name]))
    else if !env.hasCmd then (t, NoCommand)
    else match env.spawn
      case None => (t, SpawnFailed)
      case Some(pid) =>
        (Tables(t.procs[name := pid], t.adopted - {name}, t.phases[pid := Starting]), Spawned(pid))
  }

  /** Adopt, and whether it starts a watcher. */
  function AdoptSection(t: Tables, name: string, pid: nat): (Tables, bool) {
    if name in t.adopted && t.adopted[name] == pid then (t, false)
    else (t.(adopted := t.adopted[name := pid]), true)
  }

  /** Stop, and the pid it signals. */
  function StopSection(t: Tables, name: string): (Tables, Option<nat>) {
    if name in t.procs then
      (t.(procs := t.procs - {name}, adopted := t.adopted - {name}), Some(t.procs[name]))
    else if name in t.adopted then
      (t.(adopted := t.adopted - {name}), Some(t.adopted[name]))
    else (t, None)
  }

  /** The waiter's locked section after cmd.Wait, and whether the exit is a runtime death. */
  function ReapSection(t: Tables, name: string, pid: nat): (Tables, bool)
    requires pid in t.phases
  {
    var procs := if name in t.procs && t.procs[name] == pid then t.procs - {name} else t.procs;
    if t.phases[pid] == Running then (t.(procs := procs), true)
    else (t.(procs := procs, phases := t.phases[pid := ExitedEarly]), false)
  }

  /** Start's locked section when the one-second timer fires, and whether it commits. */
  function CommitSection(t: Tables, pid: nat): (Tables, bool)
    requires pid in t.phases
  {
    if t.phases[pid] == ExitedEarly then (t, false) else (t.(phases := t.phases[pid := Running]), true)
  }

  /** The watcher's locked section once an adopted pid has exited, and whether it was still ours. */
  function WatchSection(t: Tables, name: string, pid: nat): (Tables, bool) {
    if name in t.adopted && t.adopted[name] == pid then (t.(adopted := t.adopted - {name}), true) else (t, false)
  }

  class ProcessManager {
    var procs: map<string, nat>
    var adopted: map<string, nat>
    var phases: map<nat, Phase>

    ghost function Guarded(): Tables
      reads this
    {
      Tables(procs, adopted, phases)
    }

    constructor ()
      ensures Guarded() == Tables(map[], map[], map[])
    {
      procs, adopted, phases := map[], map[], map[];
    }

    method Start(name: string, env: StartInput) returns (result: StartResult)
      modifies this
      ensures (Guarded(), result) == StartSection(old(Guarded()), name, env)
      ensures forall pid :: result == AlreadyRunning(pid) <==>
              || (name in old(procs) && env.procAlive && pid == old(procs)[name])
              || (!(name in old(procs) && env.procAlive)
                  && name in old(adopted) && env.adoptedAlive && pid == old(adopted)[name])
      ensures !result.AlreadyRunning? ==> (result == NoCommand <==> !env.hasCmd)
      ensures !result.AlreadyRunning? && env.hasCmd && env.spawn.Some? ==> result == Spawned(env.spawn.value)
      ensures result.Spawned? ==>
              && env.hasCmd && env.spawn == Some(result.pid) && procs == old(procs)[name := result.pid]
              && adopted == old(adopted) - {name} && phases == old(phases)[result.pid := Starting]
      ensures !result.Spawned? ==> Guarded() == old(Guarded())
    {
      if name in procs {
        if env.procAlive {
          return AlreadyRunning(procs[name]);
        }
      }
      if name in adopted && env.adoptedAlive {
        return AlreadyRunning(adopted[name]);
      }
      if !env.hasCmd {
        return NoCommand;
      }
      if env.spawn == None {
        return SpawnFailed;
      }
      var pid := env.spawn.value;
      procs := procs[name := pid];
      adopted := adopted - {name};
      phases := phases[pid := Starting];
      return Spawned(pid);
    }

    method Adopt(name: string, pid: nat) returns (watch: bool)
      modifies this
      ensures (Guarded(), watch) == AdoptSection(old(Guarded()), name, pid)
      ensures Guarded() == old(Guarded()).(adopted := old(adopted)[name := pid])
      ensures watch <==> adopted != old(adopted)
    {
      if name in adopted && adopted[name] == pid {
        return false;
      }
      adopted := adopted[name := pid];
      return true;
    }

    method Stop(name: string) returns (killed: Option<nat>)
      modifies this
      ensures (Guarded(), killed) == StopSection(old(Guarded()), name)
      ensures Guarded() == Tables(old(procs) - {name}, old(adopted) - {name}, old(phases))
      ensures killed.Some? <==> name in old(procs) || name in old(adopted)
      ensures name in old(procs) ==> killed == Some(old(procs)[name])
      ensures name !in old(procs) && name in old(adopted) ==> killed == Some(old(adopted)[name])
    {
      if name in procs {
        killed := Some(procs[name]);
        procs := procs - {name};
        adopted := adopted - {name};
        return;
      }
      if name in adopted {
        killed := Some(adopted[name]);
        adopted := adopted - {name};
        return;
      }
      killed := None;
    }

    method Reap(name: string, pid: nat) returns (notify: bool)
      requires pid in phases
      modifies this
      ensures (Guarded(), notify) == ReapSection(old(Guarded()), name, pid)
      ensures adopted == old(adopted) && procs.Keys <= old(procs).Keys && (name in procs ==> procs[name] != pid)
      ensures forall n | n in old(procs) && (n != name || old(procs)[n] != pid) ::
              n in procs && procs[n] == old(procs)[n]
      ensures notify <==> old(phases)[pid] == Running
      ensures phases == if notify then old(phases) else old(phases)[pid := ExitedEarly]
    {
      if name in procs && procs[name] == pid {
        procs := procs - {name};
      }
      if phases[pid] == Running {
        return true;
      }
      phases := phases[pid := ExitedEarly];
      return false;
    }

    method Commit(pid: nat) returns (committed: bool)
      requires pid in phases
      modifies this
      ensures (Guarded(), committed) == CommitSection(old(Guarded()), pid)
      ensures committed <==> old(phases)[pid] != ExitedEarly
      ensures Guarded() == if committed then old(Guarded()).(phases := old(phases)[pid := Running]) else old(Guarded())
    {
      if phases[pid] == ExitedEarly {
        return false;
      }
      phases := phases[pid := Running];
      return true;
    }

    method WatchedExit(name: string, pid: nat) returns (stillOurs: bool)
      modifies this
      ensures (Guarded(), stillOurs) == WatchSection(old(Guarded()), name, pid)
      ensures stillOurs <==> name in old(adopted) && old(adopted)[name] == pid
      ensures Guarded() == if stillOurs then old(Guarded()).(adopted := old(adopted) - {name}) else old(Guarded())
    {
      stillOurs := name in adopted && adopted[name] == pid;
      if stillOurs {
        adopted := adopted - {name};
      }
    }
  }
}
