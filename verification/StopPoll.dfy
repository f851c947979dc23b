/** waitForReady against stops and starts: its turns run alone, what one probe settles, and runs in which the poll
    or the exit handler blames a stop. */
module StopPoll {
  import opened Text
  import opened StopExit
  import opened StopExitRuns
  import opened StopBlame
  import opened Runs

  // ---- Run without interruption, a turn of the loop amounts to its whole body ----

  lemma TickAlone(s: State, id: nat, portReady: bool)
    requires id in s.ticks && s.ticks[id] == LoadPid
    ensures var t := FinishTick(s, id, portReady, 6);
            id !in t.ticks && t.cell == TickBody(s.cell, s.cell.pid.Some? && s.cell.pid.value in s.alive, portReady).0
  {
    var s1 := RunTick(s, id, portReady);
    if id in s1.ticks {
      var p := s.cell.pid.value;
      var s2 := RunTick(s1, id, portReady);
      assert FinishTick(s, id, portReady, 6) == FinishTick(s2, id, portReady, 4);
      if p in s.alive {
        LiveTickEnds(s2, id, portReady);
      } else {
        DyingTickEnds(s2, id, portReady, p);
      }
    }
  }

  /** The tick's own next steps, at most n of them. */
  function FinishTick(s: State, id: nat, portReady: bool, n: nat): State
    decreases n
  {
    if n == 0 || id !in s.ticks then s else FinishTick(RunTick(s, id, portReady), id, portReady, n - 1)
  }

  lemma LiveTickEnds(s: State, id: nat, portReady: bool)
    requires id in s.ticks && s.ticks[id] == LoadRunning
    ensures var t := FinishTick(s, id, portReady, 4);
            id !in t.ticks &&
            t.cell == if s.cell.running && portReady then s.cell.(ready := true, failure := None) else s.cell
  {
    var s1 := RunTick(s, id, portReady);
    if id in s1.ticks {
      var s2 := RunTick(s1, id, portReady);
      if id in s2.ticks {
        var s3 := RunTick(s2, id, portReady);
        var s4 := RunTick(s3, id, portReady);
        assert FinishTick(s3, id, portReady, 1) == s4;
        assert FinishTick(s2, id, portReady, 2) == s4;
      }
    }
  }

  lemma DyingTickEnds(s: State, id: nat, portReady: bool, p: nat)
    requires id in s.ticks && s.ticks[id] == SetStopped(p)
    ensures var t := FinishTick(s, id, portReady, 4);
            && id !in t.ticks && t.cell == Cell(false, false, None, Some(ExitedBeforeReady(p)))
            && t.killed == s.killed && t.crashed == s.crashed
  {
    var s2 := RunTick(RunTick(s, id, portReady), id, portReady);
    var s3 := RunTick(s2, id, portReady);
    var s4 := RunTick(s3, id, portReady);
    assert FinishTick(s3, id, portReady, 1) == s4;
    assert FinishTick(s, id, portReady, 4) == FinishTick(s2, id, portReady, 2) == s4;
  }

  /** At the deadline only the port matters: whether the route is running is not looked at. */
  lemma DeadlineAlone(s: State, id: nat, portReady: bool)
    requires id in s.ticks && s.ticks[id] == LastDial
    ensures var t := FinishTick(s, id, portReady, 3);
            && id !in t.ticks && t.cell == DeadlineBody(s.cell, portReady)
            && (t.cell.failure == Some(NeverBound) && !t.cell.running
                <==> !s.cell.running && (!portReady || s.cell.failure == Some(NeverBound)))
  {
    var s1 := RunTick(s, id, portReady);
    if id in s1.ticks {
      var s2 := RunTick(s1, id, portReady);
      var s3 := RunTick(s2, id, portReady);
      assert FinishTick(s2, id, portReady, 1) == s3;
      assert FinishTick(s, id, portReady, 3) == FinishTick(s1, id, portReady, 2) == s3;
    }
  }

  // ---- What a probe settles ----

  /** In every interleaving: a probe turns a tick towards the record of an early exit exactly if the child is dead
      then; that record blames a stop exactly if the child had been signalled before it exited, which nothing that
      happens from then on can change; and uninterrupted, the tick makes it. */
  lemma ProbeDecides(s0: State, run: seq<Event>, id: nat, p: nat, portReady: bool, more: seq<Event>)
    requires Initial(s0) && Legal(System(), s0, run)
    requires var s := After(System(), s0, run);
             && id in s.ticks && s.ticks[id] == Probe(p)
             && Legal(System(), Apply(s, TickStep(id, portReady)), more)
    ensures var s := After(System(), s0, run);
            var t := Apply(s, TickStep(id, portReady));
            var u := After(System(), t, more);
            && (t.ticks[id] == SetStopped(p) <==> p !in s.alive)
            && (t.ticks[id] == SetStopped(p) && StoppedOnPurpose(u, p) <==>
               p !in s.alive && p in s.killed && p !in s.crashed)
            && (p !in s.alive ==>
               FinishTick(t, id, portReady, 4).cell == Cell(false, false, None, Some(ExitedBeforeReady(p))))
  {
    BaseRun(s0, run);
    var s := After(System(), s0, run);
    var t := Apply(s, TickStep(id, portReady));
    assert TickOk(s, s.ticks[id]);
    BaseStep(s, TickStep(id, portReady));
    if p !in s.alive {
      VerdictIsFinal(t, more, p);
      DyingTickEnds(t, id, portReady, p);
    }
  }

  /** Whether a dead child was stopped or crashed is settled. */
  lemma {:induction false} VerdictIsFinal(s: State, more: seq<Event>, p: nat)
    requires Base(s) && DeadPid(s, p) && Legal(System(), s, more)
    ensures StoppedOnPurpose(After(System(), s, more), p) == StoppedOnPurpose(s, p)
    decreases |more|
  {
    if more != [] {
      VerdictStep(s, more[0], p);
      BaseStep(s, more[0]);
      VerdictIsFinal(Apply(s, more[0]), more[1..], p);
    }
  }

  lemma VerdictStep(s: State, e: Event, p: nat)
    requires Base(s) && DeadPid(s, p) && Enabled(s, e)
    ensures DeadPid(Apply(s, e), p) && StoppedOnPurpose(Apply(s, e), p) == StoppedOnPurpose(s, p)
  {
    match e
    case StopStep(id) => StopFrame(s, id);
    case ExitStep(id) => ExitFrame(s, id);
    case TickStep(id, portReady) => TickFrame(s, id, portReady);
    case _ =>
  }

  // ---- Runs that show it, with no careless start ----

  lemma Step(m: Machine<State, Event>, s: State, events: seq<Event>, e: Event) returns (t: State, longer: seq<Event>)
    requires Legal(m, s, events) && m.enabled(After(m, s, events), e)
    ensures longer == events + [e] && Legal(m, s, longer)
    ensures t == After(m, s, longer) == m.apply(After(m, s, events), e)
  {
    Extend(m, s, events, e);
    longer := events + [e];
    t := After(m, s, longer);
  }

  lemma NothingToFear(s: State)
    requires s.killed == {} && s.stops == map[]
    ensures !Exposed(s)
  {
  }

  /** A complete start of pid 7 in a fresh daemon. */
  lemma FirstStart(s: State) returns (t: State, events: seq<Event>)
    requires Initial(s)
    ensures Legal(CarefulSystem(), s, events) && t == After(CarefulSystem(), s, events)
    ensures t == s.(cell := Cell(true, false, Some(7), None), procs := Some(7), spawned := {7}, alive := {7},
            used := {7})
  {
    var m := CarefulSystem();
    NothingToFear(Apply(s, BeginStart(7, Spawn)));
    t, events := Step(m, s, [], BeginStart(7, Spawn));
    NothingToFear(Apply(t, StartStep));
    t, events := Step(m, s, events, StartStep);
    NothingToFear(Apply(t, StartStep));
    t, events := Step(m, s, events, StartStep);
    NothingToFear(Apply(t, StartStep));
    t, events := Step(m, s, events, StartStep);
    NothingToFear(Apply(t, StartStep));
    t, events := Step(m, s, events, StartStep);
  }

  /** A stop of it up to the kill. */
  lemma KillIt(s0: State, before: seq<Event>, s: State) returns (t: State, events: seq<Event>)
    requires Legal(CarefulSystem(), s0, before) && s == After(CarefulSystem(), s0, before)
    requires s.stops == map[] && s.procs == Some(7) && s.inTable
    ensures Legal(CarefulSystem(), s0, events) && t == After(CarefulSystem(), s0, events)
    ensures t == s.(cell := s.cell.(running := false), procs := None, adopted := None, killed := s.killed + {7},
                    stops := map[1 := Stopper(HandleStop, 2, false)])
  {
    var m := CarefulSystem();
    t, events := Step(m, s0, before, BeginStop(1, HandleStop));
    t, events := Step(m, s0, events, StopStep(1));
    t, events := Step(m, s0, events, StopStep(1));
  }

  /** A complete stop of it, and its exit. */
  lemma StopIt(s0: State, before: seq<Event>, s: State) returns (t: State, events: seq<Event>)
    requires Legal(CarefulSystem(), s0, before) && s == After(CarefulSystem(), s0, before)
    requires s.stops == map[] && s.procs == Some(7) && s.inTable && 7 in s.alive
    ensures Legal(CarefulSystem(), s0, events) && t == After(CarefulSystem(), s0, events)
    ensures t == s.(cell := Cell(false, false, None, s.cell.failure), procs := None, adopted := None,
                    killed := s.killed + {7}, alive := s.alive - {7})
  {
    var m := CarefulSystem();
    t, events := KillIt(s0, before, s);
    t, events := Step(m, s0, events, StopStep(1));
    t, events := Step(m, s0, events, StopStep(1));
    assert t.stops == map[];
    t, events := Step(m, s0, events, OsExit(7));
  }

  /** A failure on a route that was stopped on purpose. */
  ghost predicate LeftFailed(s: State, f: Failure) {
    s.inTable && !s.cell.running && s.cell.failure == Some(f) && StoppedOnPurpose(s, 7)
  }

  /** A whole tick between a stop's kill and its clearing of the pid. */
  lemma PollBlamesAStop(s: State) returns (events: seq<Event>)
    requires Initial(s)
    ensures Legal(CarefulSystem(), s, events) && LeftFailed(After(CarefulSystem(), s, events), ExitedBeforeReady(7))
  {
    var m := CarefulSystem();
    var t;
    t, events := FirstStart(s);
    t, events := KillIt(s, events, t);
    t, events := Step(m, s, events, OsExit(7));
    t, events := Step(m, s, events, BeginTick(3, false));
    t, events := Step(m, s, events, TickStep(3, false));
    t, events := Step(m, s, events, TickStep(3, false));
    t, events := LastFour(s, events, t);
  }

  lemma LastTwo(s0: State, before: seq<Event>, s: State) returns (t: State, events: seq<Event>)
    requires Legal(CarefulSystem(), s0, before) && s == After(CarefulSystem(), s0, before)
    requires 3 in s.ticks && s.ticks[3] == ForgetPid(7)
    ensures Legal(CarefulSystem(), s0, events) && t == After(CarefulSystem(), s0, events)
    ensures t == s.(cell := s.cell.(pid := None, failure := Some(ExitedBeforeReady(7))), ticks := s.ticks - {3})
            && before <= events
  {
    var m := CarefulSystem();
    t, events := Step(m, s0, before, TickStep(3, false));
    t, events := Step(m, s0, events, TickStep(3, false));
    assert t.ticks == s.ticks - {3};
  }

  lemma LastFour(s0: State, before: seq<Event>, s: State) returns (t: State, events: seq<Event>)
    requires Legal(CarefulSystem(), s0, before) && s == After(CarefulSystem(), s0, before)
    requires 3 in s.ticks && s.ticks[3] == SetStopped(7)
    ensures Legal(CarefulSystem(), s0, events) && t == After(CarefulSystem(), s0, events)
    ensures t == s.(cell := Cell(false, false, None, Some(ExitedBeforeReady(7))), ticks := s.ticks - {3})
            && before <= events
  {
    var m := CarefulSystem();
    t, events := Step(m, s0, before, TickStep(3, false));
    t, events := Step(m, s0, events, TickStep(3, false));
    t, events := LastTwo(s0, events, t);
    assert t.ticks == s.ticks - {3};
  }

  /** A tick that loads the pid before a stop begins and probes it after the stop has ended: no stop is under
      way when the failure is recorded. */
  lemma StraddlingTickBlamesAStop(s: State) returns (before: seq<Event>, events: seq<Event>)
    requires Initial(s)
    ensures Legal(CarefulSystem(), s, before) && Legal(CarefulSystem(), s, events) && before <= events
    ensures var t := After(CarefulSystem(), s, before); t.stops == map[] && t.cell == Cell(false, false, None, None)
    ensures var t := After(CarefulSystem(), s, events); t.stops == map[] && LeftFailed(t, ExitedBeforeReady(7))
  {
    var m := CarefulSystem();
    var t;
    t, events := FirstStart(s);
    t, events := Step(m, s, events, BeginTick(3, false));
    t, events := Step(m, s, events, TickStep(3, false));
    t, events := StopIt(s, events, t);
    before := events;
    t, events := Step(m, s, events, TickStep(3, false));
    t, events := LastFour(s, events, t);
  }

  lemma GiveItUp(s0: State, before: seq<Event>, s: State) returns (t: State, events: seq<Event>)
    requires Legal(CarefulSystem(), s0, before) && s == After(CarefulSystem(), s0, before)
    requires 3 in s.ticks && s.ticks[3] == GiveUpReady
    ensures Legal(CarefulSystem(), s0, events) && t == After(CarefulSystem(), s0, events)
    ensures t == s.(cell := s.cell.(ready := false, failure := Some(NeverBound)), ticks := s.ticks - {3})
  {
    var m := CarefulSystem();
    t, events := Step(m, s0, before, TickStep(3, false));
    t, events := Step(m, s0, events, TickStep(3, false));
    assert t.ticks == s.ticks - {3};
  }

  /** The deadline, on a route already stopped. */
  lemma DeadlineBlamesAStop(s: State) returns (events: seq<Event>)
    requires Initial(s)
    ensures Legal(CarefulSystem(), s, events)
    ensures var t := After(CarefulSystem(), s, events); t.stops == map[] && LeftFailed(t, NeverBound)
  {
    var m := CarefulSystem();
    var t;
    t, events := FirstStart(s);
    t, events := StopIt(s, events, t);
    t, events := Step(m, s, events, BeginTick(3, true));
    t, events := Step(m, s, events, TickStep(3, false));
    t, events := GiveItUp(s, events, t);
  }

  /** A deadline that dials while the route runs, before a stop begins, and records after the stop has ended. */
  lemma StraddlingDeadlineBlamesAStop(s: State) returns (before: seq<Event>, events: seq<Event>)
    requires Initial(s)
    ensures Legal(CarefulSystem(), s, before) && Legal(CarefulSystem(), s, events)
    ensures var t := After(CarefulSystem(), s, before);
            t.cell.running && t.stops == map[] && 3 in t.ticks && t.ticks[3] == GiveUpReady
    ensures var t := After(CarefulSystem(), s, events); t.stops == map[] && LeftFailed(t, NeverBound)
  {
    var m := CarefulSystem();
    var t;
    t, events := FirstStart(s);
    t, events := Step(m, s, events, BeginTick(3, true));
    t, events := Step(m, s, events, TickStep(3, false));
    before := events;
    t, events := StopIt(s, events, t);
    t, events := GiveItUp(s, events, t);
  }

  // ---- Careless starts ----

  /** A registration over a stopped route whose child's exit has still to be reported: the new route is in the
      table, marked running and without a pid, before it has a child. */
  lemma CarelessRegistration(s: State) returns (events: seq<Event>)
    requires Initial(s)
    ensures Legal(CarefulSystem(), s, events)
    ensures var t := After(CarefulSystem(), s, events);
            && Enabled(t, Register) && Careless(t, Register)
            && t.stops == map[] && t.exits == map[] && t.alive == {} && t.killed == {7} && t.crashed == {}
  {
    var m := CarefulSystem();
    var t;
    t, events := FirstStart(s);
    t, events := StopIt(s, events, t);
    var u := Apply(t, Register);
    assert Due(u, 7) && Doomed(u, 7) && CanPass(u, 7);
  }

  /** Its waiter reports the exit, and the handler looks the route up. */
  lemma ReportIt(s0: State, before: seq<Event>, s: State) returns (t: State, events: seq<Event>)
    requires Legal(CarefulSystem(), s0, before) && s == After(CarefulSystem(), s0, before)
    requires 7 in s.spawned && 7 !in s.waited && 7 !in s.alive && s.procs == None && s.inTable && s.exits == map[]
    requires s.notices == multiset{}
    ensures Legal(CarefulSystem(), s0, events) && t == After(CarefulSystem(), s0, events)
    ensures t == s.(waited := s.waited + {7}, exits := map[2 := Handler(7, CheckPid, false)])
  {
    var m := CarefulSystem();
    t, events := Step(m, s0, before, Reap(7));
    t, events := Step(m, s0, events, BeginExit(2, 7));
    assert t.notices == multiset{};
  }

  /** A quick restart: the stopped child's handler is past its check when the new start marks the route
      running. The first event that is not careful is that store. */
  lemma CarelessRestart(s: State) returns (events: seq<Event>)
    requires Initial(s)
    ensures Legal(CarefulSystem(), s, events)
    ensures var t := After(CarefulSystem(), s, events);
            && Enabled(t, StartStep) && Careless(t, StartStep)
            && t.procs == Some(8) && 8 in t.alive && t.stops == map[] && t.killed == {7} && t.crashed == {}
  {
    var m := CarefulSystem();
    var t;
    t, events := FirstStart(s);
    t, events := StopIt(s, events, t);
    t, events := ReportIt(s, events, t);
    t, events := Step(m, s, events, ExitStep(2));
    assert t.exits[2].pc == SwapRunning && !t.cell.running;
    t, events := Step(m, s, events, BeginStart(8, Spawn));
    t, events := Step(m, s, events, StartStep);
    var u := Apply(t, StartStep);
    assert u.exits[2].pc == SwapRunning && StoppedOnPurpose(u, 7);
  }

  /** A stop that begins while a start is storing: it marks the route stopped, the start marks it running, and
      then the stop signals. */
  lemma StopDuringStart(s: State) returns (events: seq<Event>)
    requires Initial(s)
    ensures Legal(CarefulSystem(), s, events)
    ensures var t := After(CarefulSystem(), s, events);
            Enabled(t, StartStep) && Careless(t, StartStep) && t.exits == map[] && t.killed == {} && 7 in t.alive
  {
    var m := CarefulSystem();
    var t;
    t, events := Step(m, s, [], BeginStart(7, Spawn));
    t, events := Step(m, s, events, StartStep);
    t, events := Step(m, s, events, BeginStop(1, HandleStop));
    t, events := Step(m, s, events, StopStep(1));
    var u := Apply(t, StartStep);
    assert Program(HandleStop)[1..][0] == Kill;
    assert KillAhead(u.stops[1]) && Doomed(u, 7) && CanPass(u, 7);
  }
}
