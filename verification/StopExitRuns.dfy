/** Starts, stops, exits, their reports and handlers, and readiness polls of one route name, interleaved one
    atomic access or critical section at a time: the stop paths of api.go, managed_timers.go and autostart.go, the
    start paths of api.go and autostart.go, registration included. */
module StopExitRuns {
  import opened Text
  import opened StopExit
  import opened Runs

  datatype StopKind = HandleStop | Deregister | IdleCheck | Prune

  datatype Op = StoreStopped | Kill | StoreUnready | ClearPid | RemoveRoute

  /** What each stop path does to the route, in order. */
  function Program(k: StopKind): seq<Op> {
    match k
    case HandleStop => [StoreStopped, Kill, StoreUnready, ClearPid]
    case Deregister => [StoreStopped, StoreUnready, Kill, RemoveRoute]
    case IdleCheck => [StoreStopped, Kill, StoreUnready, ClearPid]
    case Prune => [StoreStopped, Kill, RemoveRoute]
  }

  /** A stop; a stale one has looked up a Route that a registration has replaced since, and stores to that, but
      the process manager and the table go by name. */
  datatype Stopper = Stopper(kind: StopKind, pc: nat, stale: bool)

  datatype ExitPc = CheckPid | SwapRunning | StoreReady | DropPid | LookFailure | Blame

  /** One run of handleManagedExit, past its table lookup. */
  datatype Handler = Handler(pid: nat, pc: ExitPc, wasRunning: bool)

  /** A start that spawns, one that finds the child running, and the adoption of a surviving child. */
  datatype How = Spawn | Again | Adopt

  /** The four stores of a start path: pid, running, ready, failure. */
  datatype Starter = Starter(pid: nat, pc: nat, ready: bool)

  /** One turn of waitForReady's loop; `held` is the pid it loaded. */
  datatype TickPc =
    | LoadPid | Probe(held: nat)
    | SetStopped(held: nat) | SetUnready(held: nat) | ForgetPid(held: nat) | SetFailed(held: nat)
    | LoadRunning | Dial | SetReady | ClearFailure
    | LastDial | GiveUpReady | GiveUp

  datatype State = State(
    cell: Cell,                  // the Route that registration last made
    inTable: bool,
    procs: Option<nat>,          // the process manager's entries for the name
    adopted: Option<nat>,
    spawned: set<nat>,           // pids with a waiter
    waited: set<nat>,            // pids whose waiter is through its locked section
    notices: multiset<nat>,      // exits a waiter or watcher is about to report
    alive: set<nat>,
    used: set<nat>,
    killed: set<nat>,            // pids a stop has signalled
    crashed: set<nat>,           // pids that exited without having been signalled
    blamed: set<nat>,            // pids for whose exit the exit handler recorded a failure
    stops: map<nat, Stopper>,
    exits: map<nat, Handler>,    // threads that hold the current Route
    ticks: map<nat, TickPc>,
    start: Option<Starter>,
    registering: bool)           // a registration has yet to start its child

  datatype Event =
    | BeginStop(id: nat, kind: StopKind)
    | StopStep(id: nat)
    | Register                        // handleRegister puts a Route marked running into the table
    | Abandon                         // and takes the name out again, before it has started anything
    | BeginStart(pid: nat, how: How)
    | StartStep
    | OsExit(pid: nat)
    | Reap(pid: nat)                  // the waiter's locked section
    | Watched(pid: nat)               // a watcher's locked section, if the pid is still adopted
    | BeginExit(id: nat, pid: nat)    // handleManagedExit looks the name up
    | ExitStep(id: nat)
    | BeginTick(id: nat, last: bool)
    | TickStep(id: nat, portReady: bool)

  predicate Lives(s: State, pid: Option<nat>) {
    pid.Some? && pid.value in s.alive
  }

  predicate Startable(s: State, pid: nat, how: How) {
    match how
    case Spawn => pid !in s.used && !Lives(s, s.procs) && !Lives(s, s.adopted)
    case Again => pid in s.alive && (s.procs == Some(pid) || (s.adopted == Some(pid) && !Lives(s, s.procs)))
    case Adopt => !s.registering
  }

  ghost predicate Enabled(s: State, e: Event) {
    match e
    case BeginStop(id, _) => id !in s.stops && s.inTable
    case StopStep(id) => id in s.stops && s.stops[id].pc < |Program(s.stops[id].kind)|
    case Register => s.start == None && !s.registering && (s.inTable ==> !s.cell.running)
    case Abandon => s.registering
    case BeginStart(pid, how) =>
      s.start == None && (s.inTable || s.registering) && (pid !in s.used ==> pid > 0) && Startable(s, pid, how)
    case StartStep => s.start.Some?
    case OsExit(pid) => pid in s.alive
    case Reap(pid) => pid in s.spawned && pid !in s.alive && pid !in s.waited
    case Watched(pid) => s.adopted == Some(pid) && pid !in s.alive
    case BeginExit(id, pid) => id !in s.exits && s.notices[pid] > 0
    case ExitStep(id) => id in s.exits
    case BeginTick(id, _) => id !in s.ticks
    case TickStep(id, _) => id in s.ticks
  }

  /** Whom a stop signals. */
  function Target(s: State): Option<nat> {
    if s.procs.Some? then s.procs else s.adopted
  }

  function Perform(s: State, op: Op, stale: bool): State {
    match op
    case StoreStopped => if stale then s else s.(cell := s.cell.(running := false))
    case StoreUnready => if stale then s else s.(cell := s.cell.(ready := false))
    case ClearPid => if stale then s else s.(cell := s.cell.(pid := None))
    case RemoveRoute => s.(inTable := false)
    case Kill =>
      s.(killed := if Target(s).Some? then s.killed + {Target(s).value} else s.killed, procs := None, adopted := None)
  }

  function RunStop(s: State, id: nat): State
    requires id in s.stops && s.stops[id].pc < |Program(s.stops[id].kind)|
  {
    var t := s.stops[id];
    Perform(s, Program(t.kind)[t.pc], t.stale).(
      stops := if t.pc + 1 == |Program(t.kind)| then s.stops - {id} else s.stops[id := t.(pc := t.pc + 1)])
  }

  /** A new Route: what still holds the old one goes on with that, out of sight. */
  function RunRegister(s: State): State {
    s.(cell := Cell(true, true, None, None), inTable := true, registering := true, exits := map[], ticks := map[],
       stops := map id | id in s.stops :: s.stops[id].(stale := true))
  }

  /** The process manager has started, found or adopted the child. */
  function Launch(s: State, pid: nat, how: How): State {
    s.(start := Some(Starter(pid, 0, how == Adopt)), registering := false, used := s.used + {pid},
       procs := if how == Spawn then Some(pid) else s.procs,
       adopted := if how == Spawn then None else if how == Adopt then Some(pid) else s.adopted,
       spawned := if how == Spawn then s.spawned + {pid} else s.spawned,
       alive := if pid in s.used then s.alive else s.alive + {pid})
  }

  function RunStart(s: State): State
    requires s.start.Some?
  {
    var t := s.start.value;
    s.(cell := match t.pc
               case 0 => s.cell.(pid := Some(t.pid))
               case 1 => s.cell.(running := true)
               case 2 => s.cell.(ready := t.ready)
               case _ => s.cell.(failure := None),
       start := if t.pc < 3 then Some(t.(pc := t.pc + 1)) else None)
  }

  function RunExit(s: State, id: nat): State
    requires id in s.exits
  {
    var h := s.exits[id];
    match h.pc
    case CheckPid =>
      if s.cell.pid.Some? && h.pid != 0 && s.cell.pid.value != h.pid then s.(exits := s.exits - {id})
      else s.(exits := s.exits[id := h.(pc := SwapRunning)])
    case SwapRunning =>
      s.(cell := s.cell.(running := false), exits := s.exits[id := Handler(h.pid, StoreReady, s.cell.running)])
    case StoreReady => s.(cell := s.cell.(ready := false), exits := s.exits[id := h.(pc := DropPid)])
    case DropPid =>
      s.(cell := s.cell.(pid := None),
         exits := if h.wasRunning then s.exits[id := h.(pc := LookFailure)] else s.exits - {id})
    case LookFailure =>
      s.(exits := if s.cell.failure == None then s.exits[id := h.(pc := Blame)] else s.exits - {id})
    case Blame =>
      s.(cell := s.cell.(failure := Some(ExitedAfterReady(h.pid))), blamed := s.blamed + {h.pid},
         exits := s.exits - {id})
  }

  function RunTick(s: State, id: nat, portReady: bool): State
    requires id in s.ticks
  {
    match s.ticks[id]
    case LoadPid =>
      s.(ticks := if s.cell.pid.Some? then s.ticks[id := Probe(s.cell.pid.value)] else s.ticks - {id})
    case Probe(p) => s.(ticks := s.ticks[id := if p in s.alive then LoadRunning else SetStopped(p)])
    case SetStopped(p) => s.(cell := s.cell.(running := false), ticks := s.ticks[id := SetUnready(p)])
    case SetUnready(p) => s.(cell := s.cell.(ready := false), ticks := s.ticks[id := ForgetPid(p)])
    case ForgetPid(p) => s.(cell := s.cell.(pid := None), ticks := s.ticks[id := SetFailed(p)])
    case SetFailed(p) => s.(cell := s.cell.(failure := Some(ExitedBeforeReady(p))), ticks := s.ticks - {id})
    case LoadRunning => s.(ticks := if s.cell.running then s.ticks[id := Dial] else s.ticks - {id})
    case Dial => s.(ticks := if portReady then s.ticks[id := SetReady] else s.ticks - {id})
    case SetReady => s.(cell := s.cell.(ready := true), ticks := s.ticks[id := ClearFailure])
    case ClearFailure => s.(cell := s.cell.(failure := None), ticks := s.ticks - {id})
    case LastDial => s.(ticks := if portReady then s.ticks - {id} else s.ticks[id := GiveUpReady])
    case GiveUpReady => s.(cell := s.cell.(ready := false), ticks := s.ticks[id := GiveUp])
    case GiveUp => s.(cell := s.cell.(failure := Some(NeverBound)), ticks := s.ticks - {id})
  }

  ghost function Apply(s: State, e: Event): State {
    if !Enabled(s, e) then s
    else
      match e
      case BeginStop(id, kind) => s.(stops := s.stops[id := Stopper(kind, 0, false)])
      case StopStep(id) => RunStop(s, id)
      case Register => RunRegister(s)
      case Abandon => s.(inTable := false, registering := false)
      case BeginStart(pid, how) => Launch(s, pid, how)
      case StartStep => RunStart(s)
      case OsExit(pid) =>
        s.(alive := s.alive - {pid}, crashed := if pid in s.killed then s.crashed else s.crashed + {pid})
      case Reap(pid) =>
        s.(waited := s.waited + {pid}, notices := s.notices + multiset{pid},
           procs := if s.procs == Some(pid) then None else s.procs)
      case Watched(pid) => s.(adopted := None, notices := s.notices + multiset{pid})
      case BeginExit(id, pid) =>
        s.(notices := s.notices - multiset{pid},
           exits := if s.inTable then s.exits[id := Handler(pid, CheckPid, false)] else s.exits)
      case ExitStep(id) => RunExit(s, id)
      case BeginTick(id, last) => s.(ticks := s.ticks[id := if last then LastDial else LoadPid])
      case TickStep(id, portReady) => RunTick(s, id, portReady)
  }

  /** Every interleaving of everything. */
  ghost function System(): Machine<State, Event> {
    Machine((s, e) => Enabled(s, e), (s, e) => Apply(s, e))
  }

  ghost predicate Initial(s: State) {
    && s.cell == Cell(false, false, None, None) && s.inTable && s.procs == None && s.adopted == None
    && s.alive == {} && s.used == {} && s.killed == {} && s.crashed == {} && s.blamed == {}
    && s.spawned == {} && s.waited == {} && s.notices == multiset{}
    && s.stops == map[] && s.exits == map[] && s.ticks == map[] && s.start == None && !s.registering
  }

  // ---- What holds in every interleaving ----

  predicate Dying(pc: TickPc) {
    pc.SetStopped? || pc.SetUnready? || pc.ForgetPid? || pc.SetFailed?
  }

  /** The pid the tick has loaded and may still act on. */
  predicate Holds(pc: TickPc, pid: nat) {
    (pc.Probe? || Dying(pc)) && pc.held == pid
  }

  ghost predicate ProcessesOk(s: State) {
    && s.alive <= s.used && s.killed <= s.used && s.crashed <= s.used && s.crashed !! s.alive && 0 !in s.used
    && (forall pid | pid in s.used :: pid in s.alive || pid in s.killed || pid in s.crashed)
    && (s.cell.pid.Some? ==> s.cell.pid.value in s.used)
    && (s.start.Some? ==> s.start.value.pc <= 3 && s.start.value.pid in s.used)
  }

  /** The process manager's entries; a live spawned child that no stop has signalled is the one in procs. */
  ghost predicate EntriesOk(s: State) {
    && s.spawned <= s.used && s.waited <= s.used && s.waited !! s.alive
    && (s.procs.Some? ==> s.procs.value in s.spawned && s.procs.value !in s.waited)
    && (s.adopted.Some? ==> s.adopted.value in s.used)
    && (forall pid | s.notices[pid] > 0 :: pid in s.used && pid !in s.alive)
    && (forall pid | pid in s.spawned && pid in s.alive && pid !in s.killed :: s.procs == Some(pid))
  }

  ghost predicate DeadPid(s: State, pid: nat) {
    pid in s.used && pid !in s.alive
  }

  ghost predicate TickOk(s: State, pc: TickPc) {
    && (pc.Probe? ==> pc.held in s.used)
    && (Dying(pc) ==> DeadPid(s, pc.held))
  }

  ghost predicate Base(s: State) {
    var processes, entries := ProcessesOk(s), EntriesOk(s);
    var stops := forall id | id in s.stops :: s.stops[id].pc < |Program(s.stops[id].kind)|;
    var exits := forall id | id in s.exits :: DeadPid(s, s.exits[id].pid);
    var ticks := forall id | id in s.ticks :: TickOk(s, s.ticks[id]);
    processes && entries && stops && exits && ticks
  }

  /** What a step of each kind of thread leaves alone. */
  lemma StopFrame(s: State, id: nat)
    requires Enabled(s, StopStep(id))
    ensures var t := RunStop(s, id);
            && t == s.(cell := t.cell, inTable := t.inTable, procs := t.procs, adopted := t.adopted, killed := t.killed,
                       stops := t.stops)
            && (t.cell.pid == s.cell.pid || t.cell.pid == None) && (t.cell.running ==> s.cell.running)
            && t.cell.failure == s.cell.failure && (t.inTable ==> s.inTable)
            && ((t.procs == s.procs && t.adopted == s.adopted && t.killed == s.killed)
                || (t.procs == None && t.adopted == None
                    && t.killed == if Target(s).Some? then s.killed + {Target(s).value} else s.killed))
            && (forall i | i in t.stops && i != id :: i in s.stops && t.stops[i] == s.stops[i])
            && (forall i | i in s.stops && i != id :: i in t.stops)
            && (id in t.stops ==> t.stops[id] == s.stops[id].(pc := s.stops[id].pc + 1)
                                  && t.stops[id].pc < |Program(t.stops[id].kind)|)
  {
    var k := s.stops[id];
    match Program(k.kind)[k.pc]
    case StoreStopped =>
    case StoreUnready =>
    case ClearPid =>
    case RemoveRoute =>
    case Kill =>
  }

  lemma ExitFrame(s: State, id: nat)
    requires id in s.exits
    ensures var t := RunExit(s, id);
            && t == s.(cell := t.cell, exits := t.exits, blamed := t.blamed)
            && (t.cell.pid == s.cell.pid || t.cell.pid == None) && (t.cell.running ==> s.cell.running)
            && (forall i | i in t.exits && i != id :: i in s.exits && t.exits[i] == s.exits[i])
            && (forall i | i in s.exits && i != id :: i in t.exits)
            && (id in t.exits ==> t.exits[id].pid == s.exits[id].pid)
  {
    match s.exits[id].pc
    case CheckPid =>
    case SwapRunning =>
    case StoreReady =>
    case DropPid =>
    case LookFailure =>
    case Blame =>
  }

  lemma TickFrame(s: State, id: nat, portReady: bool)
    requires id in s.ticks
    ensures var t := RunTick(s, id, portReady);
            && t == s.(cell := t.cell, ticks := t.ticks)
            && (t.cell.pid == s.cell.pid || t.cell.pid == None) && (t.cell.running ==> s.cell.running)
            && (forall i | i in t.ticks && i != id :: i in s.ticks && t.ticks[i] == s.ticks[i])
  {
    match s.ticks[id]
    case LoadPid =>
    case Probe(_) =>
    case SetStopped(_) =>
    case SetUnready(_) =>
    case ForgetPid(_) =>
    case SetFailed(_) =>
    case LoadRunning =>
    case Dial =>
    case SetReady =>
    case ClearFailure =>
    case LastDial =>
    case GiveUpReady =>
    case GiveUp =>
  }

  /** The threads' own next positions. */
  lemma TickMoves(s: State, id: nat, portReady: bool)
    requires id in s.ticks
    ensures var t := RunTick(s, id, portReady);
            id in t.ticks ==>
              match s.ticks[id]
              case LoadPid => t.ticks[id].Probe? && s.cell.pid == Some(t.ticks[id].held)
              case Probe(p) => t.ticks[id] == if p in s.alive then LoadRunning else SetStopped(p)
              case SetStopped(p) => t.ticks[id] == SetUnready(p)
              case SetUnready(p) => t.ticks[id] == ForgetPid(p)
              case ForgetPid(p) => t.ticks[id] == SetFailed(p)
              case _ => !t.ticks[id].Probe? && !Dying(t.ticks[id])
  {
    match s.ticks[id]
    case LoadPid =>
    case Probe(_) =>
    case SetStopped(_) =>
    case SetUnready(_) =>
    case ForgetPid(_) =>
    case _ =>
  }

  lemma StopStepBase(s: State, id: nat)
    requires Base(s) && Enabled(s, StopStep(id))
    ensures Base(Apply(s, StopStep(id)))
  {
    StopFrame(s, id);
    var t := Apply(s, StopStep(id));
    forall i | i in t.ticks
      ensures TickOk(t, t.ticks[i])
    {
      assert TickOk(s, s.ticks[i]);
    }
  }

  lemma ExitStepBase(s: State, id: nat)
    requires Base(s) && Enabled(s, ExitStep(id))
    ensures Base(Apply(s, ExitStep(id)))
  {
    ExitFrame(s, id);
    var t := Apply(s, ExitStep(id));
    forall i | i in t.ticks
      ensures TickOk(t, t.ticks[i])
    {
      assert TickOk(s, s.ticks[i]);
    }
  }

  lemma TickStepBase(s: State, id: nat, portReady: bool)
    requires Base(s) && Enabled(s, TickStep(id, portReady))
    ensures Base(Apply(s, TickStep(id, portReady)))
  {
    TickFrame(s, id, portReady);
    TickMoves(s, id, portReady);
    var t := Apply(s, TickStep(id, portReady));
    forall i | i in t.ticks
      ensures TickOk(t, t.ticks[i])
    {
      assert TickOk(s, s.ticks[if i == id then id else i]);
    }
  }

  lemma StartBase(s: State, e: Event)
    requires Base(s) && Enabled(s, e) && (e.Register? || e.Abandon? || e.BeginStart? || e.StartStep?)
    ensures Base(Apply(s, e))
  {
    var t := Apply(s, e);
    forall i | i in t.ticks
      ensures TickOk(t, t.ticks[i])
    {
      assert TickOk(s, s.ticks[i]);
      assert Dying(s.ticks[i]) ==> DeadPid(s, s.ticks[i].held);
    }
  }

  lemma ProcessBase(s: State, e: Event)
    requires Base(s) && Enabled(s, e) && (e.OsExit? || e.Reap? || e.Watched? || e.BeginExit?)
    ensures Base(Apply(s, e))
  {
    var t := Apply(s, e);
    forall i | i in t.ticks
      ensures TickOk(t, t.ticks[i])
    {
      assert TickOk(s, s.ticks[i]);
    }
  }

  lemma BaseStep(s: State, e: Event)
    requires Base(s) && Enabled(s, e)
    ensures Base(Apply(s, e))
  {
    match e
    case StopStep(id) => StopStepBase(s, id);
    case ExitStep(id) => ExitStepBase(s, id);
    case TickStep(id, portReady) => TickStepBase(s, id, portReady);
    case BeginStop(_, _) =>
    case BeginTick(_, _) =>
    case OsExit(_) => ProcessBase(s, e);
    case Reap(_) => ProcessBase(s, e);
    case Watched(_) => ProcessBase(s, e);
    case BeginExit(_, _) => ProcessBase(s, e);
    case _ => StartBase(s, e);
  }

  lemma BaseRun(s: State, events: seq<Event>)
    requires Base(s) && Legal(System(), s, events)
    ensures Base(After(System(), s, events))
  {
    forall t, e | Base(t) && System().enabled(t, e)
      ensures Base(System().apply(t, e))
    {
      BaseStep(t, e);
    }
    Invariant(System(), t => Base(t), s, events);
  }

  // ---- Run without interruption, the steps amount to the whole bodies ----

  /** The handler's own next steps, at most n of them. */
  function FinishExit(s: State, id: nat, n: nat): State
    decreases n
  {
    if n == 0 || id !in s.exits then s else FinishExit(RunExit(s, id), id, n - 1)
  }

  lemma HandlerAlone(s: State, id: nat)
    requires id in s.exits && s.exits[id].pc == CheckPid
    ensures var t := FinishExit(s, id, 6); id !in t.exits && t.cell == ExitBody(s.cell, s.exits[id].pid)
  {
    var s1 := RunExit(s, id);
    assert FinishExit(s, id, 6) == FinishExit(s1, id, 5);
    if id in s1.exits {
      PastTheCheck(s1, id);
    }
  }

  lemma PastTheCheck(s: State, id: nat)
    requires id in s.exits && s.exits[id].pc == SwapRunning
    ensures var t, c := FinishExit(s, id, 5), s.cell;
            && id !in t.exits
            && t.cell == Cell(false, false, None,
                              if c.running && c.failure == None then Some(ExitedAfterReady(s.exits[id].pid))
                              else c.failure)
  {
    var s1 := RunExit(s, id);
    var s2 := RunExit(s1, id);
    var s3 := RunExit(s2, id);
    assert FinishExit(s, id, 5) == FinishExit(s2, id, 3) == FinishExit(s3, id, 2);
    if id in s3.exits {
      assert s3.exits[id] == Handler(s.exits[id].pid, LookFailure, true);
      var s4 := RunExit(s3, id);
      assert FinishExit(s3, id, 2) == FinishExit(s4, id, 1);
    }
  }

  /** The stop's own next steps, at most n of them. */
  function FinishStop(s: State, id: nat, n: nat): State
    decreases n
  {
    if n == 0 || id !in s.stops || s.stops[id].pc >= |Program(s.stops[id].kind)| then s
    else FinishStop(RunStop(s, id), id, n - 1)
  }

  /** Whom a stop that begins now will signal: the child in procs, or else the adopted one. */
  ghost function Signalled(s: State): set<nat> {
    if s.procs.Some? then {s.procs.value} else if s.adopted.Some? then {s.adopted.value} else {}
  }

  /** A stop request or an idle check that is not interrupted signals that child and forgets both entries; the route
      stays in the table, stopped and without a pid. */
  lemma StopAlone(s: State, id: nat, n: nat)
    requires id in s.stops && s.stops[id].pc == 0 && !s.stops[id].stale && n >= 4
    requires s.stops[id].kind == HandleStop || s.stops[id].kind == IdleCheck
    ensures FinishStop(s, id, n) == s.(cell := Cell(false, false, None, s.cell.failure), procs := None, adopted := None,
                                       killed := s.killed + Signalled(s), stops := s.stops - {id})
  {
    var k := s.stops[id].kind;
    var s1 := RunStop(s, id);
    assert s1 == s.(cell := s.cell.(running := false), stops := s.stops[id := Stopper(k, 1, false)]);
    var s2 := RunStop(s1, id);
    assert s2 == s1.(procs := None, adopted := None, killed := s.killed + Signalled(s),
                     stops := s.stops[id := Stopper(k, 2, false)]);
    assert FinishStop(s, id, n) == FinishStop(s1, id, n - 1) == FinishStop(s2, id, n - 2);
    StopClears(s2, id, n - 2);
    assert s2.stops - {id} == s.stops - {id};
  }

  lemma StopClears(s: State, id: nat, n: nat)
    requires id in s.stops && s.stops[id].pc == 2 && !s.stops[id].stale && n >= 2
    requires s.stops[id].kind == HandleStop || s.stops[id].kind == IdleCheck
    ensures FinishStop(s, id, n) == s.(cell := s.cell.(ready := false, pid := None), stops := s.stops - {id})
  {
    var s1 := RunStop(s, id);
    assert s1.stops == s.stops[id := s.stops[id].(pc := 3)];
    var s2 := RunStop(s1, id);
    assert s2.stops == s.stops - {id};
    assert FinishStop(s, id, n) == FinishStop(s1, id, n - 1) == FinishStop(s2, id, n - 2) == s2;
  }

  /** The other two take the route out of the table, its pid still on it. */
  lemma RemovalAlone(s: State, id: nat, n: nat)
    requires id in s.stops && s.stops[id].pc == 0 && !s.stops[id].stale && n >= 4
    requires s.stops[id].kind == Deregister || s.stops[id].kind == Prune
    ensures var t := FinishStop(s, id, n);
            && t == s.(cell := t.cell, inTable := false, procs := None, adopted := None,
                       killed := s.killed + Signalled(s), stops := s.stops - {id})
            && t.cell == s.cell.(running := false, ready := t.cell.ready)
            && (s.stops[id].kind == Deregister ==> !t.cell.ready)
  {
    var s1 := RunStop(s, id);
    var s2 := RunStop(s1, id);
    var s3 := RunStop(s2, id);
    assert FinishStop(s, id, n) == FinishStop(s1, id, n - 1) == FinishStop(s2, id, n - 2) == FinishStop(s3, id, n - 3);
    if s.stops[id].kind == Deregister {
      var s4 := RunStop(s3, id);
      assert s4.stops == s.stops - {id};
      assert FinishStop(s3, id, n - 3) == FinishStop(s4, id, n - 4) == s4;
    } else {
      assert s3.stops == s.stops - {id};
    }
  }

  /** Every stop path marks the route stopped before it signals, and clears the pid only afterwards. */
  lemma StopsStoreBeforeTheySignal(k: StopKind)
    ensures var p := Program(k);
            && (exists i :: 0 < i < |p| && p[i] == Kill && p[0] == StoreStopped
                            && forall j | 0 <= j < |p| && (p[j] == Kill || p[j] == ClearPid) :: j >= i)
            && (ClearPid in p <==> k == HandleStop || k == IdleCheck)
            && (RemoveRoute in p <==> k == Deregister || k == Prune)
  {
    assert Program(k)[1] == Kill || Program(k)[2] == Kill;
    assert Program(HandleStop)[3] == Program(IdleCheck)[3] == ClearPid;
    assert Program(Deregister)[3] == Program(Prune)[2] == RemoveRoute;
  }

  /** A start's four stores, one after the other. */
  function FinishStores(s: State, n: nat): State
    decreases n
  {
    if n == 0 || s.start.None? then s else FinishStores(RunStart(s), n - 1)
  }

  /** A start that is not interrupted leaves the route running with its child's pid and no failure, ready only if the
      child was adopted; a spawned child takes the place of both entries, an adopted one of the adopted entry. */
  lemma StartAlone(s: State, pid: nat, how: How, n: nat)
    requires Enabled(s, BeginStart(pid, how)) && n >= 4
    ensures var t := FinishStores(Apply(s, BeginStart(pid, how)), n);
            && t == s.(cell := Cell(true, how == Adopt, Some(pid), None), registering := false, used := s.used + {pid},
                       procs := t.procs, adopted := t.adopted, spawned := t.spawned, alive := t.alive)
            && match how
               case Spawn =>
                 && t.procs == Some(pid) && t.adopted == None && t.spawned == s.spawned + {pid}
                 && t.alive == s.alive + {pid}
               case Again =>
                 && t.procs == s.procs && t.adopted == s.adopted && t.spawned == s.spawned
                 && (pid in s.used ==> t.alive == s.alive)
               case Adopt =>
                 && t.procs == s.procs && t.adopted == Some(pid) && t.spawned == s.spawned
                 && t.alive == if pid in s.used then s.alive else s.alive + {pid}
  {
    var s0 := Apply(s, BeginStart(pid, how));
    var s1 := RunStart(s0);
    var s2 := RunStart(s1);
    var s3 := RunStart(s2);
    var s4 := RunStart(s3);
    assert FinishStores(s0, n) == FinishStores(s1, n - 1) == FinishStores(s2, n - 2) == FinishStores(s3, n - 3);
    assert FinishStores(s3, n - 3) == FinishStores(s4, n - 4) == s4;
  }

  /** A registration puts a new Route, marked running and ready, into the table and has still to start its child; no
      thread that holds the old Route is left in sight, and every stop under way goes on with the old one. If it
      fails, the name is taken out again. */
  lemma RegisterReplaces(s: State)
    requires Enabled(s, Register)
    ensures var t := Apply(s, Register);
            && t == s.(cell := Cell(true, true, None, None), inTable := true, registering := true, exits := map[],
                       ticks := map[], stops := t.stops)
            && t.stops.Keys == s.stops.Keys
            && (forall id | id in s.stops :: t.stops[id] == Stopper(s.stops[id].kind, s.stops[id].pc, true))
            && Enabled(t, Abandon) && Apply(t, Abandon) == t.(inTable := false, registering := false)
  {
  }

  /** Such a stop touches the new Route no more, but still signals and removes by name. */
  lemma StaleStopsTouchNoCell(s: State, id: nat)
    requires Enabled(s, StopStep(id)) && s.stops[id].stale
    ensures var t, op := Apply(s, StopStep(id)), Program(s.stops[id].kind)[s.stops[id].pc];
            && t.cell == s.cell && (t.inTable <==> s.inTable && op != RemoveRoute)
            && t.killed == (if op == Kill then s.killed + Signalled(s) else s.killed)
            && (op == Kill ==> t.procs == None && t.adopted == None)
  {
    match Program(s.stops[id].kind)[s.stops[id].pc]
    case StoreStopped =>
    case StoreUnready =>
    case ClearPid =>
    case RemoveRoute =>
    case Kill =>
  }
}
