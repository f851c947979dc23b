/** An intentional stop should leave no failure behind. When what is under way can still record one: exactly
    which ticks, deadlines and handlers do. */
module StopFailure {
  import opened Text
  import opened StopExit
  import opened StopExitRuns
  import opened StopBlame
  import opened StopBlameRuns
  import opened Runs

  /** `more` is a run of threads already under way, the operating system and reports, and nothing else. */
  ghost predicate UnderWay(s: State, more: seq<Event>) {
    NothingNew(more) && NoStart(more) && Legal(System(), s, more)
  }

  lemma UnderWayRest(s: State, more: seq<Event>)
    requires UnderWay(s, more) && more != []
    ensures Enabled(s, more[0]) && !IsStart(more[0]) && !IsNew(more[0]) && UnderWay(Apply(s, more[0]), more[1..])
  {
    assert forall i | 0 <= i < |more[1..]| :: more[1..][i] == more[i + 1];
  }

  // ---- What each event does to a failure ----

  predicate GivingUp(pc: TickPc) {
    pc.LastDial? || pc.GiveUpReady? || pc.GiveUp?
  }

  /** The handler has found the route running, or is past asking. */
  predicate Accusing(h: Handler) {
    (h.wasRunning && h.pc != CheckPid && h.pc != SwapRunning) || h.pc == LookFailure || h.pc == Blame
  }

  /** An event that is not a thread's step leaves the route and the ticks alone; a handler begins before its check. */
  lemma AsideFrame(s: State, e: Event)
    requires Enabled(s, e) && Aside(e) && !IsNew(e)
    ensures var t := Apply(s, e);
            && t.cell == s.cell && t.ticks == s.ticks && s.killed == t.killed
            && (forall i | i in t.exits :: (i in s.exits && t.exits[i] == s.exits[i]) || t.exits[i].pc == CheckPid)
            && (forall p | p in t.crashed && p !in s.crashed :: p !in s.killed)
  {
    match e
    case Abandon =>
    case OsExit(_) =>
    case Reap(_) =>
    case Watched(_) =>
    case BeginExit(_, _) =>
  }

  /** What one step of a tick does to the failure. */
  lemma TickFailure(s: State, id: nat, portReady: bool)
    requires id in s.ticks
    ensures var t, pc := RunTick(s, id, portReady), s.ticks[id];
            t.cell.failure == match pc
                              case SetFailed(p) => Some(ExitedBeforeReady(p))
                              case ClearFailure => None
                              case GiveUp => Some(NeverBound)
                              case _ => s.cell.failure
    ensures var t, pc := RunTick(s, id, portReady), s.ticks[id];
            id in t.ticks && GivingUp(t.ticks[id]) ==> GivingUp(pc)
  {
  }

  /** What one step of a handler does to the failure. */
  lemma HandlerFailure(s: State, id: nat)
    requires id in s.exits
    ensures var t, h := RunExit(s, id), s.exits[id];
            && t.cell.failure == (if h.pc == Blame then Some(ExitedAfterReady(h.pid)) else s.cell.failure)
            && (id in t.exits && Accusing(t.exits[id]) && !s.cell.running ==> Accusing(h))
  {
  }

  /** No event of those marks a route running, gives it a pid or takes back a signal. */
  lemma StaysStopped(s: State, e: Event)
    requires Enabled(s, e) && !IsStart(e) && !IsNew(e)
    ensures var t := Apply(s, e);
            && (t.cell.running ==> s.cell.running) && (t.cell.pid == s.cell.pid || t.cell.pid == None)
            && (forall p | StoppedOnPurpose(s, p) :: StoppedOnPurpose(t, p))
  {
    if e.StopStep? {
      StopFrame(s, e.id);
    } else if e.ExitStep? {
      ExitFrame(s, e.id);
    } else if e.TickStep? {
      TickFrame(s, e.id, e.portReady);
    } else {
      AsideFrame(s, e);
    }
  }

  // ---- The deadline ----

  /** A poll stands at its deadline. */
  ghost predicate DeadlineAhead(s: State) {
    exists id | id in s.ticks :: GivingUp(s.ticks[id])
  }

  lemma {:induction false} GivesUp(s0: State, before: seq<Event>, s: State, id: nat)
      returns (t: State, events: seq<Event>)
    requires Path(s0, before, s) && id in s.ticks && GivingUp(s.ticks[id])
    ensures Path(s0, events, t) && t.cell == s.cell.(ready := t.cell.ready, failure := Some(NeverBound))
    decreases if s.ticks[id].LastDial? then 2 else if s.ticks[id].GiveUpReady? then 1 else 0
  {
    t, events := Onward(s0, before, s, TickStep(id, false));
    if !s.ticks[id].GiveUp? {
      t, events := GivesUp(s0, events, t, id);
    }
  }

  lemma NoDeadlineStep(s: State, e: Event)
    requires Enabled(s, e) && !IsStart(e) && !IsNew(e) && !DeadlineAhead(s)
    ensures !DeadlineAhead(Apply(s, e))
    ensures Apply(s, e).cell.failure == Some(NeverBound) ==> s.cell.failure == Some(NeverBound)
  {
    if e.StopStep? {
      StopFrame(s, e.id);
    } else if e.ExitStep? {
      ExitFrame(s, e.id);
      HandlerFailure(s, e.id);
    } else if e.TickStep? {
      TickFrame(s, e.id, e.portReady);
      TickFailure(s, e.id, e.portReady);
      assert !GivingUp(s.ticks[e.id]);
    } else {
      AsideFrame(s, e);
    }
  }

  lemma {:induction false} NoDeadlineRun(s: State, more: seq<Event>)
    requires UnderWay(s, more) && !DeadlineAhead(s) && s.cell.failure != Some(NeverBound)
    ensures After(System(), s, more).cell.failure != Some(NeverBound)
    decreases |more|
  {
    if more != [] {
      UnderWayRest(s, more);
      NoDeadlineStep(s, more[0]);
      NoDeadlineRun(Apply(s, more[0]), more[1..]);
    }
  }

  /** In every reachable state of a route marked stopped: what is under way can leave it with the failure of a
      server that never bound its port exactly if some poll stands at its deadline. */
  lemma DeadlineBlamesExactly(s0: State, run: seq<Event>)
    requires Initial(s0) && Legal(System(), s0, run)
    requires var s := After(System(), s0, run); !s.cell.running && s.cell.failure != Some(NeverBound)
    ensures var s := After(System(), s0, run);
            DeadlineAhead(s) <==>
            exists more :: UnderWay(s, more) && (var u := After(System(), s, more);
                                                 !u.cell.running && u.cell.failure == Some(NeverBound))
  {
    BaseRun(s0, run);
    var s := After(System(), s0, run);
    if id :| id in s.ticks && GivingUp(s.ticks[id]) {
      assert Path(s, [], s);
      var u, more := GivesUp(s, [], s, id);
      assert UnderWay(s, more);
    } else {
      forall more | UnderWay(s, more)
        ensures After(System(), s, more).cell.failure != Some(NeverBound)
      {
        NoDeadlineRun(s, more);
      }
    }
  }

  // ---- The ticks ----

  /** The tick has loaded `p`, or is about to. */
  ghost predicate Bound(s: State, pc: TickPc, p: nat) {
    Holds(pc, p) || (pc.LoadPid? && s.cell.pid == Some(p))
  }

  ghost predicate TickAhead(s: State, p: nat) {
    exists id | id in s.ticks :: Bound(s, s.ticks[id], p)
  }

  function StepsLeft(pc: TickPc): nat {
    match pc
    case LoadPid => 5
    case Probe(_) => 4
    case SetStopped(_) => 3
    case SetUnready(_) => 2
    case ForgetPid(_) => 1
    case _ => 0
  }

  /** One step on the way; the child has exited by the time it is probed. */
  lemma TickAdvances(s: State, id: nat, p: nat)
    requires id in s.ticks && Bound(s, s.ticks[id], p) && !(s.ticks[id].Probe? && p in s.alive)
    ensures var t, pc := RunTick(s, id, false), s.ticks[id];
            && (t.cell.running ==> s.cell.running)
            && if pc.SetFailed? then t.cell.failure == Some(ExitedBeforeReady(p))
               else id in t.ticks && Bound(t, t.ticks[id], p) && StepsLeft(t.ticks[id]) < StepsLeft(pc)
  {
    match s.ticks[id]
    case LoadPid =>
    case Probe(_) =>
    case SetStopped(_) =>
    case SetUnready(_) =>
    case ForgetPid(_) =>
    case SetFailed(_) =>
  }

  lemma {:induction false} TickRecords(s0: State, before: seq<Event>, s: State, id: nat, p: nat)
      returns (t: State, events: seq<Event>)
    requires Path(s0, before, s) && id in s.ticks && Bound(s, s.ticks[id], p)
    ensures Path(s0, events, t) && t.cell.failure == Some(ExitedBeforeReady(p)) && (t.cell.running ==> s.cell.running)
    ensures StoppedOnPurpose(s, p) ==> StoppedOnPurpose(t, p)
    decreases StepsLeft(s.ticks[id])
  {
    t, events := s, before;
    if s.ticks[id].Probe? && p in s.alive {
      StaysStopped(s, OsExit(p));
      t, events := Onward(s0, before, s, OsExit(p));
    }
    var u := t;
    TickAdvances(u, id, p);
    TickFrame(u, id, false);
    t, events := Onward(s0, events, u, TickStep(id, false));
    if !u.ticks[id].SetFailed? {
      t, events := TickRecords(s0, events, t, id, p);
    }
  }

  lemma NoTickStep(s: State, e: Event, p: nat)
    requires Enabled(s, e) && !IsStart(e) && !IsNew(e) && !TickAhead(s, p)
    ensures !TickAhead(Apply(s, e), p)
  {
    StaysStopped(s, e);
    var t := Apply(s, e);
    if e.StopStep? {
      StopFrame(s, e.id);
    } else if e.ExitStep? {
      ExitFrame(s, e.id);
    } else if e.TickStep? {
      TickFrame(s, e.id, e.portReady);
      NoTickOwn(s, e.id, e.portReady, p);
    } else {
      AsideFrame(s, e);
    }
    forall i | i in t.ticks && !(e.TickStep? && i == e.id)
      ensures !Bound(t, t.ticks[i], p)
    {
      assert i in s.ticks && t.ticks[i] == s.ticks[i] && !Bound(s, s.ticks[i], p);
    }
  }

  lemma NoTickOwn(s: State, id: nat, portReady: bool, p: nat)
    requires id in s.ticks && !Bound(s, s.ticks[id], p)
    ensures var t := RunTick(s, id, portReady); id in t.ticks ==> !Bound(t, t.ticks[id], p)
  {
    TickMoves(s, id, portReady);
  }

  lemma NoTickFailure(s: State, e: Event, p: nat)
    requires Enabled(s, e) && !IsStart(e) && !IsNew(e) && !TickAhead(s, p)
    ensures var f := Some(ExitedBeforeReady(p)); Apply(s, e).cell.failure == f ==> s.cell.failure == f
  {
    if e.StopStep? {
      StopFrame(s, e.id);
    } else if e.ExitStep? {
      HandlerFailure(s, e.id);
    } else if e.TickStep? {
      TickFailure(s, e.id, e.portReady);
      assert !Bound(s, s.ticks[e.id], p);
    } else {
      AsideFrame(s, e);
    }
  }

  lemma {:induction false} NoTickRun(s: State, more: seq<Event>, p: nat)
    requires UnderWay(s, more) && !TickAhead(s, p) && s.cell.failure != Some(ExitedBeforeReady(p))
    ensures After(System(), s, more).cell.failure != Some(ExitedBeforeReady(p))
    decreases |more|
  {
    if more != [] {
      UnderWayRest(s, more);
      NoTickStep(s, more[0], p);
      NoTickFailure(s, more[0], p);
      NoTickRun(Apply(s, more[0]), more[1..], p);
    }
  }

  /** In every reachable state, for a child that a stop has signalled: what is under way can record it as exited
      too early exactly if some tick has loaded its pid, or is about to. */
  lemma TickBlamesExactly(s0: State, run: seq<Event>, p: nat)
    requires Initial(s0) && Legal(System(), s0, run)
    requires var s := After(System(), s0, run); StoppedOnPurpose(s, p) && s.cell.failure != Some(ExitedBeforeReady(p))
    ensures var s := After(System(), s0, run);
            TickAhead(s, p) <==>
            exists more :: UnderWay(s, more) && (var u := After(System(), s, more);
                                                 StoppedOnPurpose(u, p) && u.cell.failure == Some(ExitedBeforeReady(p)))
  {
    BaseRun(s0, run);
    var s := After(System(), s0, run);
    if id :| id in s.ticks && Bound(s, s.ticks[id], p) {
      assert Path(s, [], s);
      var u, more := TickRecords(s, [], s, id, p);
      assert UnderWay(s, more);
    } else {
      forall more | UnderWay(s, more)
        ensures After(System(), s, more).cell.failure != Some(ExitedBeforeReady(p))
      {
        NoTickRun(s, more, p);
      }
    }
  }

  // ---- Any failure at all ----

  ghost predicate HandlerAhead(s: State) {
    exists id | id in s.exits :: Accusing(s.exits[id])
  }

  ghost predicate FailureAhead(s: State) {
    HandlerAhead(s) || DeadlineAhead(s) || exists p :: TickAhead(s, p)
  }

  lemma {:induction false} HandlerRecords(s0: State, before: seq<Event>, s: State, id: nat)
      returns (t: State, events: seq<Event>)
    requires Path(s0, before, s) && id in s.exits && Accusing(s.exits[id]) && s.cell.failure == None
    ensures Path(s0, events, t) && t.cell.failure.Some? && (t.cell.running ==> s.cell.running)
    decreases match s.exits[id].pc case StoreReady => 3 case DropPid => 2 case LookFailure => 1 case _ => 0
  {
    t, events := Onward(s0, before, s, ExitStep(id));
    if s.exits[id].pc != Blame {
      t, events := HandlerRecords(s0, events, t, id);
    }
  }

  lemma NoHandlerStep(s: State, e: Event)
    requires Enabled(s, e) && !IsStart(e) && !IsNew(e) && !s.cell.running && !HandlerAhead(s)
    ensures !HandlerAhead(Apply(s, e))
  {
    if e.StopStep? {
      StopFrame(s, e.id);
    } else if e.ExitStep? {
      ExitFrame(s, e.id);
      HandlerFailure(s, e.id);
    } else if e.TickStep? {
      TickFrame(s, e.id, e.portReady);
    } else {
      AsideFrame(s, e);
    }
  }

  lemma NoneRecorded(s: State, e: Event)
    requires Enabled(s, e) && !IsStart(e) && !IsNew(e) && s.cell.failure == None && !FailureAhead(s)
    ensures Apply(s, e).cell.failure == None
  {
    if e.StopStep? {
      StopFrame(s, e.id);
    } else if e.ExitStep? {
      HandlerFailure(s, e.id);
      assert !Accusing(s.exits[e.id]);
    } else if e.TickStep? {
      TickFailure(s, e.id, e.portReady);
      var pc := s.ticks[e.id];
      assert !GivingUp(pc);
      if pc.SetFailed? {
        assert !TickAhead(s, pc.held);
        assert Bound(s, pc, pc.held);
      }
    } else {
      AsideFrame(s, e);
    }
  }

  lemma NoFailureStep(s: State, e: Event)
    requires Enabled(s, e) && !IsStart(e) && !IsNew(e)
    requires !s.cell.running && s.cell.failure == None && !FailureAhead(s)
    ensures var t := Apply(s, e); !t.cell.running && t.cell.failure == None && !FailureAhead(t)
  {
    StaysStopped(s, e);
    NoneRecorded(s, e);
    NoHandlerStep(s, e);
    NoDeadlineStep(s, e);
    forall p
      ensures !TickAhead(Apply(s, e), p)
    {
      NoTickStep(s, e, p);
    }
  }

  lemma {:induction false} NoFailureRun(s: State, more: seq<Event>)
    requires UnderWay(s, more) && !s.cell.running && s.cell.failure == None && !FailureAhead(s)
    ensures After(System(), s, more).cell.failure == None
    decreases |more|
  {
    if more != [] {
      UnderWayRest(s, more);
      NoFailureStep(s, more[0]);
      NoFailureRun(Apply(s, more[0]), more[1..]);
    }
  }

  lemma FailureComes(s: State) returns (more: seq<Event>)
    requires Base(s) && !s.cell.running && s.cell.failure == None && FailureAhead(s)
    ensures UnderWay(s, more) && var u := After(System(), s, more); !u.cell.running && u.cell.failure.Some?
  {
    assert Path(s, [], s);
    var u: State;
    if HandlerAhead(s) {
      var id :| id in s.exits && Accusing(s.exits[id]);
      u, more := HandlerRecords(s, [], s, id);
    } else if DeadlineAhead(s) {
      var id :| id in s.ticks && GivingUp(s.ticks[id]);
      u, more := GivesUp(s, [], s, id);
    } else {
      var p :| TickAhead(s, p);
      var id :| id in s.ticks && Bound(s, s.ticks[id], p);
      u, more := TickRecords(s, [], s, id, p);
    }
  }

  /** In every reachable state of a route marked stopped without a failure: what is under way can leave it with
      one exactly if a handler has found the route running before, a poll stands at its deadline, or a tick has
      loaded a pid, or is about to. */
  lemma StoppedRouteFailsExactly(s0: State, run: seq<Event>)
    requires Initial(s0) && Legal(System(), s0, run)
    requires var s := After(System(), s0, run); !s.cell.running && s.cell.failure == None
    ensures var s := After(System(), s0, run);
            FailureAhead(s) <==>
            exists more :: UnderWay(s, more) && (var u := After(System(), s, more);
                                                 !u.cell.running && u.cell.failure.Some?)
  {
    BaseRun(s0, run);
    var s := After(System(), s0, run);
    if FailureAhead(s) {
      var more := FailureComes(s);
    } else {
      forall more | UnderWay(s, more)
        ensures After(System(), s, more).cell.failure == None
      {
        NoFailureRun(s, more);
      }
    }
  }
}
