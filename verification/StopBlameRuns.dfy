/** The other half: a careless start can always end in a blamed stop. */
module StopBlameRuns {
  import opened Text
  import opened StopExit
  import opened StopExitRuns
  import opened StopBlame
  import opened Runs

  ghost predicate NoStart(events: seq<Event>) {
    forall i | 0 <= i < |events| :: !IsStart(events[i])
  }

  predicate IsNew(e: Event) {
    e.Register? || e.BeginStart? || e.BeginStop? || e.BeginTick?
  }

  /** Only threads already under way, the operating system, and the report of an exit. */
  ghost predicate NothingNew(events: seq<Event>) {
    forall i | 0 <= i < |events| :: !IsNew(events[i])
  }

  lemma Take(s: State, before: seq<Event>, e: Event) returns (t: State, events: seq<Event>)
    requires Legal(System(), s, before) && Base(After(System(), s, before)) && Enabled(After(System(), s, before), e)
    ensures events == before + [e] && Legal(System(), s, events) && Base(t)
    ensures t == After(System(), s, events) == Apply(After(System(), s, before), e)
    ensures NoStart(before) && !IsStart(e) ==> NoStart(events)
    ensures NothingNew(before) && !IsNew(e) ==> NothingNew(events)
  {
    Extend(System(), s, before, e);
    BaseStep(After(System(), s, before), e);
    events := before + [e];
    t := After(System(), s, events);
  }

  /** A run so far: from s0 by events of threads under way to s. */
  ghost predicate Path(s0: State, events: seq<Event>, s: State) {
    Legal(System(), s0, events) && After(System(), s0, events) == s && Base(s) && NoStart(events) && NothingNew(events)
  }

  /** The run goes on by one event of a thread under way. */
  lemma Onward(s0: State, before: seq<Event>, s: State, e: Event) returns (t: State, events: seq<Event>)
    requires Path(s0, before, s) && Enabled(s, e) && !IsStart(e) && !IsNew(e)
    ensures Path(s0, events, t) && t == Apply(s, e)
  {
    t, events := Take(s0, before, e);
  }

  /** Whether the failure slot is, or will be, empty. */
  ghost predicate Ripe(s: State) {
    s.start.Some? || s.cell.failure == None
  }

  /** The route is marked running although this stopped child's exit is still to be handled. */
  ghost predicate Course(s: State, pid: nat) {
    s.cell.running && StoppedOnPurpose(s, pid) && Unheard(s, pid)
  }

  /** And here is the handler. */
  ghost predicate Armed(s: State, id: nat, pid: nat) {
    && s.cell.running && StoppedOnPurpose(s, pid)
    && id in s.exits && s.exits[id].pid == pid && s.exits[id].pc == CheckPid
  }

  lemma {:induction false} FreshId(keys: set<nat>) returns (id: nat)
    ensures forall k | k in keys :: k < id
  {
    if keys == {} {
      id := 0;
    } else {
      var k :| k in keys;
      var rest := FreshId(keys - {k});
      id := if rest > k then rest else k + 1;
      assert keys == (keys - {k}) + {k};
    }
  }

  /** Up to its kill, a stop that no longer stores "stopped" leaves flags, pid and entries alone. */
  lemma BeforeKill(s: State, id: nat)
    requires id in s.stops && KillAhead(s.stops[id]) && s.stops[id].pc < |Program(s.stops[id].kind)|
    requires Program(s.stops[id].kind)[s.stops[id].pc] != Kill
    ensures var t := RunStop(s, id);
            && t == s.(cell := t.cell, stops := t.stops) && t.cell == s.cell.(ready := t.cell.ready)
            && id in t.stops && KillAhead(t.stops[id])
  {
    var k := s.stops[id];
    ProgramShape(k.kind, k.pc);
    match Program(k.kind)[k.pc]
    case StoreStopped =>
    case StoreUnready =>
    case ClearPid =>
    case RemoveRoute =>
  }

  /** A stop's step other than the clearing itself leaves a pending clearing pending. */
  lemma StopKeepsClear(s: State, id: nat)
    requires Base(s) && Enabled(s, StopStep(id)) && ClearPending(s) && Marked(s, id)
    requires Program(s.stops[id].kind)[s.stops[id].pc] != ClearPid
    ensures ClearPending(RunStop(s, id))
  {
    var t, k := RunStop(s, id), s.stops[id];
    StopFrame(s, id);
    ProgramShape(k.kind, k.pc);
    if i :| i in s.stops && ClearAhead(s.stops[i]) {
      assert i in t.stops && ClearAhead(t.stops[i]);
    } else if i :| i in s.exits && (s.exits[i].pc == StoreReady || s.exits[i].pc == DropPid) {
      assert i in t.exits && t.exits[i] == s.exits[i];
    } else {
      var i :| i in s.ticks && (s.ticks[i].SetUnready? || s.ticks[i].ForgetPid?);
      assert i in t.ticks && t.ticks[i] == s.ticks[i];
    }
  }

  lemma PassStays(s: State, id: nat, pid: nat)
    requires Base(s) && Enabled(s, StopStep(id)) && Marked(s, id) && CanPass(s, pid)
    requires Program(s.stops[id].kind)[s.stops[id].pc] != ClearPid
    ensures CanPass(RunStop(s, id), pid)
  {
    StopEffect(s, id);
    if s.cell.pid != None && s.cell.pid != Some(pid) {
      StopKeepsClear(s, id);
    }
  }

  lemma KillLands(s: State, id: nat, pid: nat)
    requires Base(s) && Enabled(s, StopStep(id)) && Program(s.stops[id].kind)[s.stops[id].pc] == Kill
    requires s.cell.running && s.procs == Some(pid) && pid in s.alive && s.inTable
    ensures var t := RunStop(s, id); Course(t, pid) && t.cell == s.cell && t.start == s.start
  {
  }

  /** A running route whose child in procs is about to be signalled by stop `id`. */
  ghost predicate Aimed(s: State, id: nat, pid: nat) {
    && s.cell.running && s.procs == Some(pid) && pid in s.alive && s.inTable && CanPass(s, pid)
    && id in s.stops && KillAhead(s.stops[id])
  }

  lemma AimedStep(s: State, id: nat, pid: nat)
    requires Base(s) && Aimed(s, id, pid)
    ensures var t := RunStop(s, id);
            && CanPass(t, pid) && (Ripe(s) ==> Ripe(t))
            && if Program(s.stops[id].kind)[s.stops[id].pc] == Kill then Course(t, pid)
               else Aimed(t, id, pid) && t.stops[id] == s.stops[id].(pc := s.stops[id].pc + 1)
  {
    var k := s.stops[id];
    ProgramShape(k.kind, k.pc);
    if Program(k.kind)[k.pc] != Kill {
      BeforeKill(s, id);
      PassStays(s, id, pid);
    } else {
      KillLands(s, id, pid);
      PassStays(s, id, pid);
    }
  }

  lemma RunToKill(s0: State, before: seq<Event>, s: State, id: nat, pid: nat) returns (t: State, events: seq<Event>)
    requires Path(s0, before, s) && Aimed(s, id, pid)
    ensures Path(s0, events, t) && Course(t, pid) && CanPass(t, pid) && (Ripe(s) ==> Ripe(t))
    decreases |Program(s.stops[id].kind)| - s.stops[id].pc
  {
    var k := s.stops[id];
    t, events := Onward(s0, before, s, StopStep(id));
    AimedStep(s, id, pid);
    if Program(k.kind)[k.pc] != Kill {
      t, events := RunToKill(s0, events, t, id, pid);
    }
  }

  /** The exit happens if it has not, and its reporter is about to report it. */
  lemma Exited(s0: State, before: seq<Event>, s: State, pid: nat) returns (t: State, events: seq<Event>)
    requires Path(s0, before, s) && pid in s.killed && pid in s.used && Due(s, pid)
    ensures Path(s0, events, t) && t.notices[pid] > 0
    ensures t == s.(alive := t.alive, waited := t.waited, notices := t.notices, procs := t.procs, adopted := t.adopted)
  {
    t, events := s, before;
    if pid in s.alive {
      t, events := Onward(s0, events, t, OsExit(pid));
    }
    if s.notices[pid] == 0 {
      t, events := Onward(s0, events, t, if pid in s.spawned && pid !in s.waited then Reap(pid) else Watched(pid));
    }
  }

  /** A new handler changes nothing else. */
  lemma Arrives(s: State, id: nat, pid: nat)
    requires s.inTable && id !in s.exits && s.notices[pid] > 0 && s.cell.running && StoppedOnPurpose(s, pid)
    ensures var t := Apply(s, BeginExit(id, pid));
            Armed(t, id, pid) && (CanPass(s, pid) ==> CanPass(t, pid)) && t.cell == s.cell && t.start == s.start
  {
    var t := Apply(s, BeginExit(id, pid));
    assert forall i | i in s.exits :: i in t.exits && t.exits[i] == s.exits[i];
  }

  /** A handler for the exit stands before its check. */
  lemma Notify(s0: State, before: seq<Event>, s: State, pid: nat) returns (t: State, events: seq<Event>, id: nat)
    requires Path(s0, before, s) && Course(s, pid) && CanPass(s, pid)
    ensures Path(s0, events, t) && Armed(t, id, pid) && CanPass(t, pid) && (Ripe(s) ==> Ripe(t))
  {
    if i :| i in s.exits && s.exits[i].pid == pid && s.exits[i].pc == CheckPid {
      id, t, events := i, s, before;
    } else {
      t, events := Exited(s0, before, s, pid);
      id := FreshId(t.exits.Keys);
      Arrives(t, id, pid);
      t, events := Onward(s0, events, t, BeginExit(id, pid));
    }
  }

  lemma RunToClear(s0: State, before: seq<Event>, s: State, i: nat, id: nat, pid: nat)
      returns (t: State, events: seq<Event>)
    requires Path(s0, before, s) && Armed(s, id, pid) && i in s.stops && ClearAhead(s.stops[i])
    ensures Path(s0, events, t) && Armed(t, id, pid) && t.cell.pid == None && (Ripe(s) ==> Ripe(t))
    decreases |Program(s.stops[i].kind)| - s.stops[i].pc
  {
    var k := s.stops[i];
    StopFrame(s, i);
    ProgramShape(k.kind, k.pc);
    t, events := Onward(s0, before, s, StopStep(i));
    if Program(k.kind)[k.pc] != ClearPid {
      assert ClearAhead(t.stops[i]);
      t, events := RunToClear(s0, events, t, i, id, pid);
    }
  }

  lemma HandlerClears(s0: State, before: seq<Event>, s: State, i: nat, id: nat, pid: nat)
      returns (t: State, events: seq<Event>)
    requires Path(s0, before, s) && Armed(s, id, pid)
    requires i in s.exits && (s.exits[i].pc == StoreReady || s.exits[i].pc == DropPid)
    ensures Path(s0, events, t) && Armed(t, id, pid) && t.cell.pid == None && (Ripe(s) ==> Ripe(t))
  {
    t, events := Onward(s0, before, s, ExitStep(i));
    if s.exits[i].pc == StoreReady {
      t, events := Onward(s0, events, t, ExitStep(i));
    }
  }

  lemma TickClears(s0: State, before: seq<Event>, s: State, i: nat, id: nat, pid: nat)
      returns (t: State, events: seq<Event>)
    requires Path(s0, before, s) && Armed(s, id, pid) && i in s.ticks
             && (s.ticks[i].SetUnready? || s.ticks[i].ForgetPid?)
    ensures Path(s0, events, t) && Armed(t, id, pid) && t.cell.pid == None && (Ripe(s) ==> Ripe(t))
  {
    t, events := Onward(s0, before, s, TickStep(i, false));
    if s.ticks[i].SetUnready? {
      t, events := Onward(s0, events, t, TickStep(i, false));
    }
  }

  lemma MakeWay(s0: State, before: seq<Event>, s: State, id: nat, pid: nat) returns (t: State, events: seq<Event>)
    requires Path(s0, before, s) && Armed(s, id, pid) && CanPass(s, pid)
    ensures Path(s0, events, t) && Armed(t, id, pid) && (Ripe(s) ==> Ripe(t))
    ensures t.cell.pid == None || t.cell.pid == Some(pid)
  {
    if s.cell.pid == None || s.cell.pid == Some(pid) {
      t, events := s, before;
    } else if i :| i in s.stops && ClearAhead(s.stops[i]) {
      t, events := RunToClear(s0, before, s, i, id, pid);
    } else if i :| i in s.exits && (s.exits[i].pc == StoreReady || s.exits[i].pc == DropPid) {
      t, events := HandlerClears(s0, before, s, i, id, pid);
    } else {
      var i :| i in s.ticks && (s.ticks[i].SetUnready? || s.ticks[i].ForgetPid?);
      t, events := TickClears(s0, before, s, i, id, pid);
    }
  }

  /** A handler that has just swapped a running route of a stopped child. */
  ghost predicate Swapped(s: State, id: nat) {
    id in s.exits && s.exits[id].pc == StoreReady && s.exits[id].wasRunning && StoppedOnPurpose(s, s.exits[id].pid)
  }

  lemma DoomIsReal(s: State, pid: nat) returns (t: State, events: seq<Event>, id: nat)
    requires Base(s) && s.cell.running && Doomed(s, pid) && CanPass(s, pid)
    ensures Path(s, events, t) && Armed(t, id, pid) && (Ripe(s) ==> Ripe(t))
    ensures t.cell.pid == None || t.cell.pid == Some(pid)
  {
    t, events := s, [];
    assert Path(s, [], s);
    if !(StoppedOnPurpose(s, pid) && Unheard(s, pid)) {
      var i :| i in s.stops && KillAhead(s.stops[i]);
      t, events := RunToKill(s, [], s, i, pid);
    }
    t, events, id := Notify(s, events, t, pid);
    t, events := MakeWay(s, events, t, id, pid);
  }

  lemma ExposureIsReal(s: State) returns (t: State, events: seq<Event>, id: nat)
    requires Base(s) && s.cell.running && Exposed(s)
    ensures Path(s, events, t) && Swapped(t, id) && (Ripe(s) ==> Ripe(t))
  {
    assert Path(s, [], s);
    if i :| i in s.exits && s.exits[i].pc == SwapRunning && StoppedOnPurpose(s, s.exits[i].pid) {
      id := i;
      t, events := Onward(s, [], s, ExitStep(id));
    } else {
      var pid :| Doomed(s, pid) && CanPass(s, pid);
      t, events, id := DoomIsReal(s, pid);
      t, events := Onward(s, events, t, ExitStep(id));
      t, events := Onward(s, events, t, ExitStep(id));
    }
  }

  lemma {:induction false} NoStartKeepsGuard(s: State, events: seq<Event>)
    requires Guarded(s) && Legal(System(), s, events) && NoStart(events)
    ensures Guarded(After(System(), s, events))
    decreases |events|
  {
    if events != [] {
      assert !IsStart(events[0]);
      GuardStep(s, events[0]);
      assert forall i | 0 <= i < |events[1..]| :: events[1..][i] == events[i + 1];
      NoStartKeepsGuard(Apply(s, events[0]), events[1..]);
    }
  }

  /** A start's event is careless exactly if, with no further event of a start, the handler can afterwards take
      a stop for a crash. */
  lemma CarelessExactly(s0: State, run: seq<Event>, e: Event)
    requires Initial(s0) && Legal(CarefulSystem(), s0, run) && IsStart(e) && Enabled(After(CarefulSystem(), s0, run), e)
    ensures var t := Apply(After(CarefulSystem(), s0, run), e);
            Careless(After(CarefulSystem(), s0, run), e) <==>
            exists more :: NoStart(more) && Legal(System(), t, more) && Mistaken(After(System(), t, more))
  {
    var s := After(CarefulSystem(), s0, run);
    var t := Apply(s, e);
    InitialIsGuarded(s0);
    GuardedRun(s0, run);
    BaseStep(s, e);
    if Careless(s, e) {
      var u, more, id := ExposureIsReal(t);
      assert NoStart(more) && Legal(System(), t, more) && Mistaken(After(System(), t, more));
    } else {
      GuardStep(s, e);
      forall more | NoStart(more) && Legal(System(), t, more)
        ensures !Mistaken(After(System(), t, more))
      {
        NoStartKeepsGuard(t, more);
      }
    }
  }

  lemma {:induction false} FinishStart(s0: State, before: seq<Event>, s: State) returns (t: State, events: seq<Event>)
    requires Legal(System(), s0, before) && After(System(), s0, before) == s && Base(s) && NothingNew(before) && Ripe(s)
    ensures Legal(System(), s0, events) && After(System(), s0, events) == t && Base(t) && NothingNew(events)
    ensures s.start.None? || s.start.value.pc > 0 ==> t.cell.pid == s.cell.pid
    ensures t.ticks == s.ticks && t.alive == s.alive
    ensures t.cell.failure == None && t.exits == s.exits && t.killed == s.killed && t.crashed == s.crashed
            && t.blamed == s.blamed
    decreases if s.start.Some? then 4 - s.start.value.pc else 0
  {
    if s.start.None? {
      t, events := s, before;
    } else {
      t, events := Take(s0, before, StartStep);
      assert t == RunStart(s);
      t, events := FinishStart(s0, events, t);
    }
  }

  /** The mistaken handler goes on to where it looks at the failure. */
  lemma GoOn(t: State, before: seq<Event>, s: State, id: nat) returns (u: State, events: seq<Event>)
    requires Path(t, before, s) && Swapped(s, id) && Ripe(s)
    ensures Path(t, events, u) && Ripe(u) && StoppedOnPurpose(u, s.exits[id].pid)
    ensures id in u.exits && u.exits[id] == Handler(s.exits[id].pid, LookFailure, true)
  {
    u, events := Onward(t, before, s, ExitStep(id));
    u, events := Onward(t, events, u, ExitStep(id));
  }

  /** And if there is a start, it ends before the handler looks. */
  lemma RecordIt(t: State, before: seq<Event>, s: State, id: nat) returns (u: State, events: seq<Event>)
    requires Path(t, before, s) && Ripe(s) && id in s.exits && s.exits[id].pc == LookFailure
    requires StoppedOnPurpose(s, s.exits[id].pid)
    ensures NothingNew(events) && Legal(System(), t, events) && u == After(System(), t, events)
    ensures s.exits[id].pid in u.blamed && StoppedOnPurpose(u, s.exits[id].pid)
  {
    u, events := FinishStart(t, before, s);
    u, events := Take(t, events, ExitStep(id));
    u, events := Take(t, events, ExitStep(id));
  }

  /** Every careless start can end in a failure recorded for a child that was stopped, by the steps of threads
      already under way, the exit and its report alone. */
  lemma CarelessStartIsBlamed(s0: State, run: seq<Event>, e: Event) returns (more: seq<Event>, pid: nat)
    requires Initial(s0) && Legal(CarefulSystem(), s0, run) && Enabled(After(CarefulSystem(), s0, run), e)
    requires Careless(After(CarefulSystem(), s0, run), e)
    ensures var t := Apply(After(CarefulSystem(), s0, run), e);
            && NothingNew(more) && Legal(System(), t, more)
            && pid in After(System(), t, more).blamed && StoppedOnPurpose(After(System(), t, more), pid)
  {
    var s := After(CarefulSystem(), s0, run);
    InitialIsGuarded(s0);
    GuardedRun(s0, run);
    BaseStep(s, e);
    var t := Apply(s, e);
    StartIsRipe(s, e);
    var u, before, id := ExposureIsReal(t);
    pid := u.exits[id].pid;
    u, before := GoOn(t, before, u, id);
    u, more := RecordIt(t, before, u, id);
  }

  lemma StartIsRipe(s: State, e: Event)
    requires Base(s) && Enabled(s, e) && IsStart(e)
    ensures Ripe(Apply(s, e))
  {
  }
}
