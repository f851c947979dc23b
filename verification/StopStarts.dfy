/** The start paths go by what ProcessManager.Start answers. */
module StopStarts {
  import opened Text
  import opened StopExit
  import opened StopExitRuns
  import Processes

  function Entry(name: string, pid: Option<nat>): map<string, nat> {
    if pid.Some? then map[name := pid.value] else map[]
  }

  /** With probes that answer exactly for live processes, a start can spawn a new child exactly if Start would, finds
      the child running exactly if Start answers its pid, and leaves the entries that Start leaves. */
  lemma StartsAreStart(s: State, name: string, pid: nat)
    requires s.start == None
    ensures var before := Processes.Tables(Entry(name, s.procs), Entry(name, s.adopted), map[]);
            var input := Processes.StartInput(s.procs.Some? && s.procs.value in s.alive,
                                              s.adopted.Some? && s.adopted.value in s.alive, true, Some(pid));
            var (after, result) := Processes.StartSection(before, name, input);
            && (Startable(s, pid, Spawn) <==> pid !in s.used && result == Processes.Spawned(pid))
            && (Startable(s, pid, Again) <==> result == Processes.AlreadyRunning(pid))
            && (Startable(s, pid, Spawn) ==>
                  && after.procs == Entry(name, Launch(s, pid, Spawn).procs)
                  && after.adopted == Entry(name, Launch(s, pid, Spawn).adopted))
            && (Startable(s, pid, Again) ==>
                  && after.procs == Entry(name, Launch(s, pid, Again).procs)
                  && after.adopted == Entry(name, Launch(s, pid, Again).adopted))
  {
  }

  /** A stop signals whom ProcessManager.Stop signals, and an adoption leaves the entries that Adopt leaves. */
  lemma StopsAreStop(s: State, name: string, pid: nat)
    ensures var t := Processes.Tables(Entry(name, s.procs), Entry(name, s.adopted), map[]);
            && Processes.StopSection(t, name).0 == Processes.Tables(map[], map[], map[])
            && Signalled(s) == (match Processes.StopSection(t, name).1 case None => {} case Some(p) => {p})
            && Processes.AdoptSection(t, name, pid).0 ==
               Processes.Tables(Entry(name, Launch(s, pid, Adopt).procs), Entry(name, Launch(s, pid, Adopt).adopted),
                                map[])
  {
    assert Entry(name, s.procs) - {name} == map[] && Entry(name, s.adopted) - {name} == map[];
  }

  /** The watcher of an adopted child reports an exit when the process manager's does, and leaves the same entries. */
  lemma WatchedIsWatched(s: State, name: string, pid: nat)
    ensures var t := Processes.Tables(Entry(name, s.procs), Entry(name, s.adopted), map[]);
            && (pid !in s.alive ==> (Enabled(s, Watched(pid)) <==> Processes.WatchSection(t, name, pid).1))
            && (Enabled(s, Watched(pid)) ==>
                  var u := Apply(s, Watched(pid));
                  && Processes.WatchSection(t, name, pid).0 == t.(adopted := Entry(name, u.adopted))
                  && u == s.(adopted := u.adopted, notices := s.notices + multiset{pid}))
  {
    assert s.adopted == Some(pid) ==> Entry(name, s.adopted) - {name} == map[];
  }

  /** And so does the waiter of a child whose start has committed. */
  lemma ReapIsReap(s: State, name: string, pid: nat)
    requires Enabled(s, Reap(pid))
    ensures var t := Processes.Tables(Entry(name, s.procs), map[], map[pid := Processes.Running]);
            var u := Apply(s, Reap(pid));
            && Processes.ReapSection(t, name, pid) == (t.(procs := Entry(name, u.procs)), true)
            && u == s.(procs := u.procs, waited := s.waited + {pid}, notices := s.notices + multiset{pid})
  {
    assert s.procs == Some(pid) ==> Entry(name, s.procs) - {name} == map[];
  }
}
