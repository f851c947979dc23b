/** internal/daemon/managed_exit.go and waitForReady of internal/daemon/api.go: what an exit and the
    readiness poll write to a managed route when nothing else does. */
module StopExit {
  import opened Text

  datatype Failure = ExitedAfterReady(pid: nat) | ExitedBeforeReady(pid: nat) | NeverBound

  /** The runtime fields of a Route. */
  datatype Cell = Cell(running: bool, ready: bool, pid: Option<nat>, failure: Option<Failure>)

  /** handleManagedExit on a managed route that is still in the table. */
  function ExitBody(c: Cell, pid: nat): Cell {
    if c.pid.Some? && pid != 0 && c.pid.value != pid then c
    else Cell(false, false, None,
              if c.running && c.failure == None then Some(ExitedAfterReady(pid)) else c.failure)
  }

  /** One tick of waitForReady before its deadline, and whether the poll is over. */
  function TickBody(c: Cell, alive: bool, portReady: bool): (Cell, bool) {
    if c.pid.Some? && !alive then (Cell(false, false, None, Some(ExitedBeforeReady(c.pid.value))), true)
    else if c.pid.None? || !c.running then (c, true)
    else if portReady then (c.(ready := true, failure := None), true)
    else (c, false)
  }

  /** waitForReady when its deadline comes: the running flag is not looked at. */
  function DeadlineBody(c: Cell, portReady: bool): Cell {
    if portReady then c else c.(ready := false, failure := Some(NeverBound))
  }

  class Route {
    var running: bool
    var ready: bool
    var pid: Option<nat>
    var failure: Option<Failure>

    ghost function Now(): Cell
      reads this
    {
      Cell(running, ready, pid, failure)
    }

    method HandleManagedExit(inTable: bool, managed: bool, exited: nat)
      modifies this
      ensures Now() == if inTable && managed then ExitBody(old(Now()), exited) else old(Now())
      ensures if !inTable || !managed || (old(pid).Some? && exited != 0 && old(pid).value != exited)
              then Now() == old(Now())
              else
                && !running && !ready && pid.None?
                && failure == if old(running) && old(failure) == None then Some(ExitedAfterReady(exited))
                              else old(failure)
    {
      if !inTable || !managed {
        return;
      }
      if pid.Some? && exited != 0 && pid.value != exited {
        return;
      }
      var wasRunning := running;
      running := false;
      ready := false;
      pid := None;
      if wasRunning && failure == None {
        failure := Some(ExitedAfterReady(exited));
      }
    }

    method PollTick(alive: bool, portReady: bool) returns (over: bool)
      modifies this
      ensures (Now(), over) == TickBody(old(Now()), alive, portReady)
      ensures !over <==> old(pid).Some? && alive && old(running) && !portReady
      ensures old(pid).Some? && !alive ==>
              !running && !ready && pid.None? && failure == Some(ExitedBeforeReady(old(pid).value))
      ensures old(pid).Some? && alive && old(running) && portReady ==>
              running && ready && pid == old(pid) && failure.None?
      ensures (old(pid).Some? ==> alive) && !(old(pid).Some? && old(running) && portReady) ==> Now() == old(Now())
    {
      if pid.Some? && !alive {
        var was := pid.value;
        running := false;
        ready := false;
        pid := None;
        failure := Some(ExitedBeforeReady(was));
        return true;
      }
      if pid.None? || !running {
        return true;
      }
      if portReady {
        ready := true;
        failure := None;
        return true;
      }
      return false;
    }

    method PollDeadline(portReady: bool)
      modifies this
      ensures Now() == DeadlineBody(old(Now()), portReady)
      ensures portReady ==> Now() == old(Now())
      ensures !portReady ==> running == old(running) && !ready && pid == old(pid) && failure == Some(NeverBound)
    {
      if !portReady {
        ready := false;
        failure := Some(NeverBound);
      }
    }
  }
}
