/** When a stop is mistaken for a crash by handleManagedExit: exactly which starts make that possible. */
module StopBlame {
  import opened Text
  import opened StopExit
  import opened StopExitRuns
  import opened Runs

  /** `pid` was signalled by a stop before it exited, if it has. */
  ghost predicate StoppedOnPurpose(s: State, pid: nat) {
    pid in s.killed && pid !in s.crashed
  }

  /** This exit is still to be reported: by the waiter of a spawned child, by the watcher of an adopted one, or by
      one of them that is already past its locked section. */
  ghost predicate Due(s: State, pid: nat) {
    (pid in s.spawned && pid !in s.waited) || s.adopted == Some(pid) || s.notices[pid] > 0
  }

  /** A handler for this exit has still to check the route's pid. */
  ghost predicate Unheard(s: State, pid: nat) {
    || (s.inTable && Due(s, pid))
    || exists id | id in s.exits :: s.exits[id].pid == pid && s.exits[id].pc == CheckPid
  }

  predicate KillAhead(t: Stopper) {
    (t.pc > 0 || t.stale) && t.pc <= |Program(t.kind)| && Kill in Program(t.kind)[t.pc..]
  }

  predicate ClearAhead(t: Stopper) {
    t.pc > 0 && !t.stale && t.pc <= |Program(t.kind)| && ClearPid in Program(t.kind)[t.pc..]
  }

  /** A stop that has stored "stopped", or has it stored elsewhere, has still to signal. */
  ghost predicate KillPending(s: State) {
    exists id | id in s.stops :: KillAhead(s.stops[id])
  }

  /** Somebody who has stored "stopped" has still to clear the route's pid. */
  ghost predicate ClearPending(s: State) {
    || (exists id | id in s.stops :: ClearAhead(s.stops[id]))
    || (exists id | id in s.exits :: s.exits[id].pc == StoreReady || s.exits[id].pc == DropPid)
    || (exists id | id in s.ticks :: s.ticks[id].SetUnready? || s.ticks[id].ForgetPid?)
  }

  /** A child that is stopped, or about to be, and whose exit is still to be handled. */
  ghost predicate Doomed(s: State, pid: nat) {
    || (StoppedOnPurpose(s, pid) && Unheard(s, pid))
    || (KillPending(s) && s.procs == Some(pid) && pid in s.alive && s.inTable)
  }

  ghost predicate CanPass(s: State, pid: nat) {
    s.cell.pid == None || s.cell.pid == Some(pid) || ClearPending(s)
  }

  /** If the route is marked running now, an exit handler can take a stop for a crash. */
  ghost predicate Exposed(s: State) {
    || (exists id | id in s.exits :: s.exits[id].pc == SwapRunning && StoppedOnPurpose(s, s.exits[id].pid))
    || (exists pid :: Doomed(s, pid) && CanPass(s, pid))
  }

  predicate IsStart(e: Event) {
    e.Register? || e.BeginStart? || e.StartStep?
  }

  /** A start's event that leaves the route marked running while it is exposed. */
  ghost predicate Careless(s: State, e: Event) {
    IsStart(e) && Apply(s, e).cell.running && Exposed(Apply(s, e))
  }

  /** Everything interleaves at will, but no start is careless. */
  ghost function CarefulSystem(): Machine<State, Event> {
    Machine((s, e) => Enabled(s, e) && !Careless(s, e), (s, e) => Apply(s, e))
  }

  /** The handler's swap has found the route running, though the child had been stopped. */
  ghost predicate Mistaken(s: State) {
    exists id | id in s.exits :: s.exits[id].wasRunning && StoppedOnPurpose(s, s.exits[id].pid)
  }

  ghost predicate Guarded(s: State) {
    && Base(s) && s.blamed <= s.crashed && (s.cell.running ==> !Exposed(s))
    && (forall id | id in s.exits :: FoundACrash(s, s.exits[id]))
  }

  ghost predicate FoundACrash(s: State, h: Handler) {
    (h.wasRunning ==> h.pid in s.crashed) && (h.pc == LookFailure || h.pc == Blame ==> h.wasRunning)
  }

  // ---- No other event exposes a running route ----

  lemma ProgramShape(k: StopKind, pc: nat)
    requires pc < |Program(k)|
    ensures Program(k)[pc] == StoreStopped <==> pc == 0
    ensures Kill in Program(k)[pc..] <==> Program(k)[pc] == Kill || Kill in Program(k)[pc + 1..]
    ensures ClearPid in Program(k)[pc..] <==> Program(k)[pc] == ClearPid || ClearPid in Program(k)[pc + 1..]
    ensures Program(k)[pc] == Kill && (k == HandleStop || k == IdleCheck) ==> ClearPid in Program(k)[pc + 1..]
    ensures ClearPid in Program(k)[pc..] ==> k == HandleStop || k == IdleCheck
  {
    assert Program(k)[pc..] == [Program(k)[pc]] + Program(k)[pc + 1..];
    assert Program(HandleStop)[2..] == [StoreUnready, ClearPid];
  }

  /** What is to be shown of a step, one pid and one handler at a time. */
  ghost predicate Harmless(s: State, t: State, pid: nat) {
    Doomed(t, pid) && CanPass(t, pid) ==> Doomed(s, pid) && CanPass(s, pid)
  }

  ghost predicate Unarmed(t: State, id: nat) {
    id in t.exits && t.exits[id].pc == SwapRunning ==> !StoppedOnPurpose(t, t.exits[id].pid)
  }

  lemma StaysHidden(s: State, t: State)
    requires !Exposed(s)
    requires forall pid :: Harmless(s, t, pid)
    requires forall id :: Unarmed(t, id)
    ensures !Exposed(t)
  {
    assert forall pid :: Doomed(t, pid) && CanPass(t, pid) ==> !Harmless(s, t, pid);
    assert forall id | id in t.exits ::
        t.exits[id].pc == SwapRunning && StoppedOnPurpose(t, t.exits[id].pid) ==> !Unarmed(t, id);
  }

  /** The stop is past its first store, as far as the route goes. */
  ghost predicate Marked(s: State, id: nat) {
    id in s.stops && (s.stops[id].pc > 0 || s.stops[id].stale)
  }

  lemma StopKillPending(s: State, id: nat)
    requires Base(s) && Enabled(s, StopStep(id)) && Marked(s, id)
    ensures KillPending(RunStop(s, id)) ==> KillPending(s)
    ensures Program(s.stops[id].kind)[s.stops[id].pc] == Kill ==> KillPending(s)
  {
    var t, k := RunStop(s, id), s.stops[id];
    StopFrame(s, id);
    ProgramShape(k.kind, k.pc);
    if i :| i in t.stops && KillAhead(t.stops[i]) {
      assert KillAhead(s.stops[i]);
    }
    if Program(k.kind)[k.pc] == Kill {
      assert KillAhead(k);
    }
  }

  lemma StopClearPending(s: State, id: nat)
    requires Base(s) && Enabled(s, StopStep(id)) && Marked(s, id)
    ensures ClearPending(RunStop(s, id)) ==> ClearPending(s)
    ensures Program(s.stops[id].kind)[s.stops[id].pc] == ClearPid && !s.stops[id].stale ==> ClearPending(s)
  {
    var t, k := RunStop(s, id), s.stops[id];
    StopFrame(s, id);
    ProgramShape(k.kind, k.pc);
    if i :| i in t.stops && ClearAhead(t.stops[i]) {
      assert ClearAhead(s.stops[i]);
    }
    if Program(k.kind)[k.pc] == ClearPid && !k.stale {
      assert ClearAhead(k);
    }
  }

  lemma StopStarts(s: State, id: nat)
    requires Enabled(s, StopStep(id)) && RunStop(s, id).cell.running
    ensures Marked(s, id)
  {
    ProgramShape(s.stops[id].kind, s.stops[id].pc);
  }

  /** Cell and tables after one operation of a stop. */
  lemma StopEffect(s: State, id: nat)
    requires Enabled(s, StopStep(id))
    ensures var t, op, stale := RunStop(s, id), Program(s.stops[id].kind)[s.stops[id].pc], s.stops[id].stale;
            && (t.cell.pid == s.cell.pid || (op == ClearPid && !stale && t.cell.pid == None))
            && (op == Kill || (t.killed == s.killed && t.procs == s.procs && t.adopted == s.adopted))
            && (op == Kill ==> t.procs == None && t.adopted == None && t.cell == s.cell && t.inTable == s.inTable)
  {
    var k := s.stops[id];
    match Program(k.kind)[k.pc]
    case StoreStopped =>
    case StoreUnready =>
    case ClearPid =>
    case RemoveRoute =>
    case Kill =>
  }

  /** A child that a stop has just signalled, and whose exit can still be reported, was the one in procs. */
  lemma NewlyStopped(s: State, id: nat, pid: nat)
    requires Base(s) && Enabled(s, StopStep(id))
    requires StoppedOnPurpose(RunStop(s, id), pid) && !StoppedOnPurpose(s, pid) && Unheard(RunStop(s, id), pid)
    ensures Program(s.stops[id].kind)[s.stops[id].pc] == Kill && s.procs == Some(pid) && pid in s.alive && s.inTable
  {
    StopFrame(s, id);
    StopEffect(s, id);
    assert forall i | i in s.exits :: DeadPid(s, s.exits[i].pid);
    assert pid in s.alive && pid !in s.killed;
  }

  lemma StopHarmless(s: State, id: nat, pid: nat)
    requires Base(s) && Enabled(s, StopStep(id)) && Marked(s, id)
    ensures Harmless(s, RunStop(s, id), pid)
  {
    var t := RunStop(s, id);
    StopFrame(s, id);
    StopEffect(s, id);
    StopKillPending(s, id);
    StopClearPending(s, id);
    if StoppedOnPurpose(t, pid) && !StoppedOnPurpose(s, pid) && Unheard(t, pid) {
      NewlyStopped(s, id, pid);
    }
  }

  lemma StopKeepsGuard(s: State, id: nat)
    requires Guarded(s) && Enabled(s, StopStep(id)) && Apply(s, StopStep(id)).cell.running
    ensures !Exposed(Apply(s, StopStep(id)))
  {
    var t := RunStop(s, id);
    StopFrame(s, id);
    StopStarts(s, id);
    forall pid ensures Harmless(s, t, pid) { StopHarmless(s, id, pid); }
    forall i ensures Unarmed(t, i) {
      assert i in s.exits ==> DeadPid(s, s.exits[i].pid);
      StopEffect(s, id);
    }
    StaysHidden(s, t);
  }

  lemma ExitHarmless(s: State, id: nat, pid: nat)
    requires Base(s) && Enabled(s, ExitStep(id)) && s.exits[id].pc != SwapRunning
    ensures Harmless(s, RunExit(s, id), pid)
  {
    var t, h := RunExit(s, id), s.exits[id];
    ExitFrame(s, id);
    if Doomed(t, pid) && CanPass(t, pid) {
      assert Doomed(s, pid);
      if h.pc == StoreReady || h.pc == DropPid {
        assert ClearPending(s);
      } else if i :| i in t.exits && (t.exits[i].pc == StoreReady || t.exits[i].pc == DropPid) {
        assert ClearPending(s);
      }
    }
  }

  lemma ExitKeepsGuard(s: State, id: nat)
    requires Guarded(s) && Enabled(s, ExitStep(id)) && Apply(s, ExitStep(id)).cell.running
    ensures !Exposed(Apply(s, ExitStep(id)))
  {
    var t, h := RunExit(s, id), s.exits[id];
    ExitFrame(s, id);
    forall pid ensures Harmless(s, t, pid) { ExitHarmless(s, id, pid); }
    forall i ensures Unarmed(t, i) {
      if i == id && i in t.exits && t.exits[i].pc == SwapRunning && StoppedOnPurpose(s, h.pid) {
        assert Unheard(s, h.pid) && DeadPid(s, h.pid);
        assert Doomed(s, h.pid) && CanPass(s, h.pid);
        assert false;
      }
    }
    StaysHidden(s, t);
  }

  lemma TickHarmless(s: State, id: nat, portReady: bool, pid: nat)
    requires Base(s) && Enabled(s, TickStep(id, portReady)) && !s.ticks[id].SetStopped?
    ensures Harmless(s, RunTick(s, id, portReady), pid)
  {
    var t := RunTick(s, id, portReady);
    TickFrame(s, id, portReady);
    if Doomed(t, pid) && CanPass(t, pid) {
      assert Doomed(s, pid);
      if s.ticks[id].SetUnready? || s.ticks[id].ForgetPid? {
        assert ClearPending(s);
      } else if i :| i in t.ticks && (t.ticks[i].SetUnready? || t.ticks[i].ForgetPid?) {
        TickMoves(s, id, portReady);
        assert ClearPending(s);
      }
    }
  }

  lemma TickKeepsGuard(s: State, id: nat, portReady: bool)
    requires Guarded(s) && Enabled(s, TickStep(id, portReady))
    requires Apply(s, TickStep(id, portReady)).cell.running
    ensures !Exposed(Apply(s, TickStep(id, portReady)))
  {
    var t := RunTick(s, id, portReady);
    TickFrame(s, id, portReady);
    forall pid ensures Harmless(s, t, pid) { TickHarmless(s, id, portReady, pid); }
    forall i ensures Unarmed(t, i) { assert Unarmed(s, i); }
    StaysHidden(s, t);
  }

  /** Neither a start's event nor a step of a thread. */
  predicate Aside(e: Event) {
    !IsStart(e) && !e.StopStep? && !e.ExitStep? && !e.TickStep?
  }

  lemma AsideLeaves(s: State, e: Event)
    requires Enabled(s, e) && Aside(e)
    ensures var t := Apply(s, e);
            && t.cell == s.cell
            && (forall i | i in t.stops ::
                  (i in s.stops && t.stops[i] == s.stops[i]) || t.stops[i] == Stopper(t.stops[i].kind, 0, false))
            && (forall i | i in t.exits :: (i in s.exits && t.exits[i] == s.exits[i]) || t.exits[i].pc == CheckPid)
            && (forall i | i in t.ticks ::
                  (i in s.ticks && t.ticks[i] == s.ticks[i]) || t.ticks[i].LoadPid? || t.ticks[i].LastDial?)
  {
  }

  lemma OtherPending(s: State, e: Event)
    requires Enabled(s, e) && Aside(e)
    ensures var t := Apply(s, e);
            (KillPending(t) ==> KillPending(s)) && (ClearPending(t) ==> ClearPending(s))
  {
    AsideLeaves(s, e);
    var t := Apply(s, e);
    if i :| i in t.stops && KillAhead(t.stops[i]) {
      assert KillAhead(s.stops[i]);
    }
    if i :| i in t.stops && ClearAhead(t.stops[i]) {
      assert ClearAhead(s.stops[i]);
    }
  }

  lemma OtherHarmless(s: State, e: Event, pid: nat)
    requires Base(s) && Enabled(s, e) && Aside(e)
    ensures Harmless(s, Apply(s, e), pid)
  {
    OtherPending(s, e);
    var t := Apply(s, e);
    if Doomed(t, pid) {
      assert StoppedOnPurpose(t, pid) ==> StoppedOnPurpose(s, pid);
      assert Unheard(t, pid) ==> Unheard(s, pid);
    }
  }

  lemma OtherKeepsGuard(s: State, e: Event)
    requires Guarded(s) && Enabled(s, e) && Aside(e)
    requires s.cell.running
    ensures !Exposed(Apply(s, e))
  {
    var t := Apply(s, e);
    forall pid ensures Harmless(s, t, pid) { OtherHarmless(s, e, pid); }
    forall i ensures Unarmed(t, i) {
      assert i in s.exits ==> DeadPid(s, s.exits[i].pid);
      assert Unarmed(s, i);
    }
    StaysHidden(s, t);
  }

  // ---- No stop is blamed ----

  lemma GuardStep(s: State, e: Event)
    requires Guarded(s) && Enabled(s, e) && !Careless(s, e)
    ensures Guarded(Apply(s, e))
  {
    BaseStep(s, e);
    HandlersStep(s, e);
    var t := Apply(s, e);
    if t.cell.running && !IsStart(e) {
      match e
      case StopStep(id) => StopKeepsGuard(s, id);
      case ExitStep(id) => ExitKeepsGuard(s, id);
      case TickStep(id, portReady) => TickKeepsGuard(s, id, portReady);
      case _ => OtherKeepsGuard(s, e);
    }
  }

  /** A handler that finds the route running has a crashed child. */
  lemma HandlersStep(s: State, e: Event)
    requires Guarded(s) && Enabled(s, e)
    ensures var t := Apply(s, e);
            && t.blamed <= t.crashed
            && forall id | id in t.exits :: FoundACrash(t, t.exits[id])
  {
    var t := Apply(s, e);
    assert forall id | id in s.exits :: FoundACrash(s, s.exits[id]);
    if e.ExitStep? {
      SwapFinds(s, e.id);
    } else if e.StopStep? {
      StopFrame(s, e.id);
    } else if e.TickStep? {
      TickFrame(s, e.id, e.portReady);
    }
  }

  lemma SwapsACrash(s: State, id: nat)
    requires Guarded(s) && s.cell.running && id in s.exits && s.exits[id].pc == SwapRunning
    ensures s.exits[id].pid in s.crashed
  {
    assert DeadPid(s, s.exits[id].pid) && !StoppedOnPurpose(s, s.exits[id].pid);
  }

  lemma OwnFinding(s: State, id: nat)
    requires id in s.exits && s.blamed <= s.crashed && FoundACrash(s, s.exits[id])
    requires s.exits[id].pc == SwapRunning && s.cell.running ==> s.exits[id].pid in s.crashed
    ensures var t := RunExit(s, id); t.blamed <= t.crashed && (id in t.exits ==> FoundACrash(t, t.exits[id]))
  {
  }

  lemma SwapFinds(s: State, id: nat)
    requires Guarded(s) && id in s.exits
    ensures var t := RunExit(s, id);
            t.blamed <= t.crashed && forall i | i in t.exits :: FoundACrash(t, t.exits[i])
  {
    ExitFrame(s, id);
    if s.exits[id].pc == SwapRunning && s.cell.running {
      SwapsACrash(s, id);
    }
    OwnFinding(s, id);
    assert forall i | i in s.exits :: FoundACrash(s, s.exits[i]);
  }

  lemma InitialIsGuarded(s: State)
    requires Initial(s)
    ensures Guarded(s)
  {
  }

  lemma GuardedRun(s: State, events: seq<Event>)
    requires Guarded(s) && Legal(CarefulSystem(), s, events)
    ensures Guarded(After(CarefulSystem(), s, events))
  {
    forall t, e | Guarded(t) && CarefulSystem().enabled(t, e)
      ensures Guarded(CarefulSystem().apply(t, e))
    {
      GuardStep(t, e);
    }
    Invariant(CarefulSystem(), t => Guarded(t), s, events);
  }

  /** In every interleaving of stops, starts, exits, their handlers and polls in which no start is careless:
      the exit handler records a failure only for a child that crashed, never for one a stop had signalled. */
  lemma StopNeverBlamed(s: State, events: seq<Event>, pid: nat)
    requires Initial(s) && Legal(CarefulSystem(), s, events)
    ensures var t := After(CarefulSystem(), s, events); pid in t.blamed ==> pid in t.crashed && !Mistaken(t)
  {
    InitialIsGuarded(s);
    GuardedRun(s, events);
  }

  // ---- Starts that overlap nothing are careful ----

  /** No stop, handler or tick is about, and what a start in progress has done so far still stands. */
  ghost predicate Quiet(s: State) {
    && s.stops == map[] && s.exits == map[] && s.ticks == map[]
    && (s.start.Some? ==> s.start.value.pid !in s.killed
                          && (s.start.value.pc > 0 ==> s.cell.pid == Some(s.start.value.pid)))
    && (s.registering ==> NothingDue(s))
  }

  /** Every stopped child's exit has been reported, as far as it will be. */
  ghost predicate NothingDue(s: State) {
    forall pid | pid in s.killed :: !Due(s, pid)
  }

  /** A start of a child no stop has signalled, a registration once nothing is due, an exit, its report's locked
      section; but no stop, handler or tick. */
  ghost predicate Undisturbing(s: State, e: Event) {
    match e
    case BeginStart(pid, _) => pid !in s.killed
    case Register => NothingDue(s)
    case BeginStop(_, _) => false
    case BeginExit(_, _) => false
    case BeginTick(_, _) => false
    case _ => true
  }

  ghost function QuietSystem(): Machine<State, Event> {
    Machine((s, e) => Enabled(s, e) && Undisturbing(s, e), (s, e) => Apply(s, e))
  }

  lemma QuietIsHidden(t: State)
    requires t.stops == map[] && t.exits == map[] && t.ticks == map[]
    requires (t.cell.pid.Some? && t.cell.pid.value !in t.killed) || NothingDue(t)
    ensures !Exposed(t)
  {
  }

  lemma QuietStep(s: State, e: Event)
    requires Guarded(s) && Quiet(s) && Enabled(s, e) && Undisturbing(s, e)
    ensures !Careless(s, e) && Quiet(Apply(s, e))
  {
    var t := Apply(s, e);
    match e
    case Register =>
      assert t.stops == map[];
      QuietIsHidden(t);
    case StartStep => QuietIsHidden(t);
    case BeginStart(pid, how) =>
      if s.registering {
        QuietIsHidden(t);
      } else if t.cell.running && Exposed(t) {
        var p :| Doomed(t, p) && CanPass(t, p);
        assert Doomed(s, p) && CanPass(s, p);
        assert false;
      }
    case _ =>
  }

  /** From any rest, starts and registrations that meet no stop, handler or tick, of children no stop has
      signalled, are never careless. */
  lemma {:induction false} QuietStartsAreCareful(s: State, events: seq<Event>)
    requires Guarded(s) && Quiet(s) && Legal(QuietSystem(), s, events)
    ensures Legal(CarefulSystem(), s, events)
    decreases |events|
  {
    if events != [] {
      QuietStep(s, events[0]);
      GuardStep(s, events[0]);
      QuietStartsAreCareful(Apply(s, events[0]), events[1..]);
    }
  }
}
