/** Late threads: exit handlers and poll ticks that still act for an older pid when a start has given the
    route a newer one. */
module StopLate {
  import opened Text
  import opened StopExit
  import opened StopExitRuns
  import opened StopBlame
  import opened StopBlameRuns
  import opened Runs

  /** The step at which a start gives the route its pid. */
  ghost predicate PublishesPid(s: State, e: Event) {
    e.StartStep? && s.start.Some? && s.start.value.pc == 0
  }

  /** No handler of another pid stands between its pid check and its end. */
  ghost predicate NoOtherHandler(s: State, pid: nat) {
    forall id | id in s.exits :: s.exits[id].pc == CheckPid || s.exits[id].pid == pid
  }

  /** No tick of the poll holds another pid. */
  ghost predicate NoOtherTick(s: State, pid: nat) {
    forall id, p | id in s.ticks && Holds(s.ticks[id], p) :: p == pid
  }

  /** Everything interleaves at will, but a start gives the route its pid only when no late handler is about. */
  ghost function SettledSystem(): Machine<State, Event> {
    Machine((s, e) => Enabled(s, e) && (PublishesPid(s, e) ==> NoOtherHandler(s, s.start.value.pid)),
            (s, e) => Apply(s, e))
  }

  /** The same for late ticks. */
  ghost function CalmSystem(): Machine<State, Event> {
    Machine((s, e) => Enabled(s, e) && (PublishesPid(s, e) ==> NoOtherTick(s, s.start.value.pid)),
            (s, e) => Apply(s, e))
  }

  ghost predicate HandlersMatch(s: State) {
    s.cell.pid.Some? ==> NoOtherHandler(s, s.cell.pid.value)
  }

  ghost predicate TicksMatch(s: State) {
    s.cell.pid.Some? ==> NoOtherTick(s, s.cell.pid.value)
  }

  ghost predicate Settled(s: State) {
    var base, handlers := Base(s), HandlersMatch(s);
    base && handlers
  }

  ghost predicate Calm(s: State) {
    var base, ticks := Base(s), TicksMatch(s);
    base && ticks
  }

  lemma HandlersStep(s: State, e: Event)
    requires Base(s) && HandlersMatch(s) && Enabled(s, e)
    requires PublishesPid(s, e) ==> NoOtherHandler(s, s.start.value.pid)
    ensures HandlersMatch(Apply(s, e))
  {
    match e
    case StopStep(id) => StopFrame(s, id);
    case TickStep(id, portReady) => TickFrame(s, id, portReady);
    case ExitStep(id) =>
      ExitFrame(s, id);
      assert DeadPid(s, s.exits[id].pid);
    case _ =>
  }

  lemma TicksStep(s: State, e: Event)
    requires Base(s) && TicksMatch(s) && Enabled(s, e)
    requires PublishesPid(s, e) ==> NoOtherTick(s, s.start.value.pid)
    ensures TicksMatch(Apply(s, e))
  {
    match e
    case StopStep(id) => StopFrame(s, id);
    case ExitStep(id) => ExitFrame(s, id);
    case TickStep(id, portReady) =>
      TickFrame(s, id, portReady);
      TickMoves(s, id, portReady);
      var t := Apply(s, e);
      forall i, p | t.cell.pid.Some? && i in t.ticks && Holds(t.ticks[i], p)
        ensures p == t.cell.pid.value
      {
        if i == id && !s.ticks[id].LoadPid? {
          assert Holds(s.ticks[id], p);
        } else {
          assert i != id ==> Holds(s.ticks[i], p);
        }
      }
    case _ =>
  }

  /** If starts keep to that, then in every interleaving a step of the handler of one pid leaves the flags, the
      pid and the failure alone once the route has been given another pid. */
  lemma LateExitChangesNothing(s0: State, run: seq<Event>, id: nat)
    requires Initial(s0) && Legal(SettledSystem(), s0, run) && id in After(SettledSystem(), s0, run).exits
    ensures var s := After(SettledSystem(), s0, run);
            s.cell.pid.Some? && s.cell.pid.value != s.exits[id].pid ==> Apply(s, ExitStep(id)).cell == s.cell
  {
    SettledRun(s0, run);
    assert DeadPid(After(SettledSystem(), s0, run), After(SettledSystem(), s0, run).exits[id].pid);
  }

  lemma SettledRun(s0: State, run: seq<Event>)
    requires Initial(s0) && Legal(SettledSystem(), s0, run)
    ensures Settled(After(SettledSystem(), s0, run))
  {
    forall t, e | Settled(t) && SettledSystem().enabled(t, e)
      ensures Settled(SettledSystem().apply(t, e))
    {
      BaseStep(t, e);
      HandlersStep(t, e);
    }
    Invariant(SettledSystem(), t => Settled(t), s0, run);
  }

  /** The same for the poll: a tick that acts on a pid it loaded acts on the route's own. */
  lemma LateTickChangesNothing(s0: State, run: seq<Event>, id: nat, portReady: bool)
    requires Initial(s0) && Legal(CalmSystem(), s0, run) && id in After(CalmSystem(), s0, run).ticks
    ensures var s := After(CalmSystem(), s0, run);
            s.cell.pid.Some? && (s.ticks[id].Probe? || Dying(s.ticks[id])) && s.ticks[id].held != s.cell.pid.value ==>
              Apply(s, TickStep(id, portReady)).cell == s.cell
  {
    CalmRun(s0, run);
    var s := After(CalmSystem(), s0, run);
    assert s.ticks[id].Probe? || Dying(s.ticks[id]) ==> Holds(s.ticks[id], s.ticks[id].held);
  }

  lemma CalmRun(s0: State, run: seq<Event>)
    requires Initial(s0) && Legal(CalmSystem(), s0, run)
    ensures Calm(After(CalmSystem(), s0, run))
  {
    forall t, e | Calm(t) && CalmSystem().enabled(t, e)
      ensures Calm(CalmSystem().apply(t, e))
    {
      BaseStep(t, e);
      TicksStep(t, e);
    }
    Invariant(CalmSystem(), t => Calm(t), s0, run);
  }

  // ---- Both conditions are exact ----

  ghost predicate NoNewStart(events: seq<Event>) {
    forall i | 0 <= i < |events| :: !events[i].BeginStart? && !events[i].Register?
  }

  /** A handler of an older pid is about to change a route whose pid is `pid`. */
  ghost predicate HandlerTouches(s: State, pid: nat) {
    s.cell.pid == Some(pid) && exists id | id in s.exits :: s.exits[id].pid != pid && RunExit(s, id).cell != s.cell
  }

  ghost predicate TickTouches(s: State, pid: nat) {
    s.cell.pid == Some(pid) && exists id, p | id in s.ticks && Holds(s.ticks[id], p) ::
        p != pid && RunTick(s, id, false).cell != s.cell
  }

  /** The start in progress has given the route its pid. */
  ghost predicate Published(s: State) {
    s.start.Some? ==> s.start.value.pc > 0
  }

  lemma {:induction false} NoHandlerTouches(s: State, more: seq<Event>, pid: nat)
    requires Base(s) && HandlersMatch(s) && Published(s) && NoNewStart(more) && Legal(System(), s, more)
    ensures !HandlerTouches(After(System(), s, more), pid)
    decreases |more|
  {
    if more == [] {
      forall id | id in s.exits
        ensures s.cell.pid == Some(pid) && s.exits[id].pid != pid ==> RunExit(s, id).cell == s.cell
      {
        assert DeadPid(s, s.exits[id].pid);
      }
    } else {
      BaseStep(s, more[0]);
      HandlersStep(s, more[0]);
      PublishedStep(s, more[0]);
      assert forall i | 0 <= i < |more[1..]| :: more[1..][i] == more[i + 1];
      NoHandlerTouches(Apply(s, more[0]), more[1..], pid);
    }
  }

  lemma {:induction false} NoTickTouches(s: State, more: seq<Event>, pid: nat)
    requires Base(s) && TicksMatch(s) && Published(s) && NoNewStart(more) && Legal(System(), s, more)
    ensures !TickTouches(After(System(), s, more), pid)
    decreases |more|
  {
    if more != [] {
      BaseStep(s, more[0]);
      TicksStep(s, more[0]);
      PublishedStep(s, more[0]);
      assert forall i | 0 <= i < |more[1..]| :: more[1..][i] == more[i + 1];
      NoTickTouches(Apply(s, more[0]), more[1..], pid);
    }
  }

  lemma PublishedStep(s: State, e: Event)
    requires Published(s) && Enabled(s, e) && !e.BeginStart? && !e.Register?
    ensures Published(Apply(s, e))
  {
    match e
    case StopStep(id) => StopFrame(s, id);
    case ExitStep(id) => ExitFrame(s, id);
    case TickStep(id, portReady) => TickFrame(s, id, portReady);
    case _ =>
  }

  ghost predicate Reached(s0: State, events: seq<Event>, s: State) {
    Legal(System(), s0, events) && After(System(), s0, events) == s && Base(s) && NothingNew(events)
  }

  lemma HandlerToDrop(s0: State, before: seq<Event>, s: State, id: nat) returns (t: State, events: seq<Event>)
    requires Reached(s0, before, s) && id in s.exits
    requires s.exits[id].pc == SwapRunning || s.exits[id].pc == StoreReady || s.exits[id].pc == DropPid
    ensures Reached(s0, events, t) && t.cell.pid == s.cell.pid
    ensures id in t.exits && t.exits[id].pc == DropPid && t.exits[id].pid == s.exits[id].pid
    decreases if s.exits[id].pc == SwapRunning then 2 else if s.exits[id].pc == StoreReady then 1 else 0
  {
    t, events := s, before;
    if s.exits[id].pc != DropPid {
      t, events := Take(s0, before, ExitStep(id));
      t, events := HandlerToDrop(s0, events, t, id);
    }
  }

  /** From just after the pid was given, a late handler goes on until it changes the route. */
  lemma HandlerGoesOn(s: State, id: nat) returns (t: State, events: seq<Event>)
    requires Base(s) && s.start.Some? && s.start.value.pc == 1 && s.cell.pid.Some?
    requires id in s.exits && s.exits[id].pc != CheckPid && s.exits[id].pid != s.cell.pid.value
    ensures Legal(System(), s, events) && NoNewStart(events) && t == After(System(), s, events)
    ensures HandlerTouches(t, s.cell.pid.value)
  {
    assert Reached(s, [], s);
    if s.exits[id].pc != LookFailure && s.exits[id].pc != Blame {
      t, events := HandlerToDrop(s, [], s, id);
    } else {
      t, events := FinishStart(s, [], s);
      if t.exits[id].pc == LookFailure {
        t, events := Take(s, events, ExitStep(id));
      }
    }
    assert RunExit(t, id).cell != t.cell;
  }

  lemma TickToForget(s0: State, before: seq<Event>, s: State, id: nat, p: nat) returns (t: State, events: seq<Event>)
    requires Reached(s0, before, s) && id in s.ticks && Holds(s.ticks[id], p) && Dying(s.ticks[id])
             && !s.ticks[id].SetFailed?
    ensures Reached(s0, events, t) && t.cell.pid == s.cell.pid
    ensures id in t.ticks && t.ticks[id] == ForgetPid(p)
    decreases if s.ticks[id].SetStopped? then 2 else if s.ticks[id].SetUnready? then 1 else 0
  {
    t, events := s, before;
    if !s.ticks[id].ForgetPid? {
      t, events := Take(s0, before, TickStep(id, false));
      t, events := TickToForget(s0, events, t, id, p);
    }
  }

  lemma TickProbes(s0: State, before: seq<Event>, s: State, id: nat, p: nat) returns (t: State, events: seq<Event>)
    requires Reached(s0, before, s) && id in s.ticks && s.ticks[id] == Probe(p)
    ensures Reached(s0, events, t) && t.cell.pid == s.cell.pid && t.start == s.start
    ensures id in t.ticks && t.ticks[id] == SetStopped(p)
  {
    t, events := s, before;
    if p in s.alive {
      t, events := Take(s0, events, OsExit(p));
    }
    t, events := Take(s0, events, TickStep(id, false));
  }

  /** A late tick likewise; if its child is still alive, it dies first. */
  lemma TickGoesOn(s: State, id: nat, p: nat) returns (t: State, events: seq<Event>)
    requires Base(s) && s.start.Some? && s.start.value.pc == 1 && s.cell.pid.Some?
    requires id in s.ticks && Holds(s.ticks[id], p) && p != s.cell.pid.value
    ensures Legal(System(), s, events) && NoNewStart(events) && t == After(System(), s, events)
    ensures TickTouches(t, s.cell.pid.value)
  {
    assert Reached(s, [], s);
    t, events := s, [];
    if s.ticks[id].SetFailed? {
      t, events := FinishStart(s, [], s);
    } else {
      if s.ticks[id].Probe? {
        t, events := TickProbes(s, [], s, id, p);
      }
      t, events := TickToForget(s, events, t, id, p);
    }
    assert Holds(t.ticks[id], p) && RunTick(t, id, false).cell != t.cell;
  }

  /** Giving the route its pid while a handler of another pid is past its check is exactly what lets that
      handler change the route afterwards. */
  lemma LateExitExactly(s0: State, run: seq<Event>)
    requires Initial(s0) && Legal(SettledSystem(), s0, run) && PublishesPid(After(SettledSystem(), s0, run), StartStep)
    ensures var s := After(SettledSystem(), s0, run);
            var t, pid := Apply(s, StartStep), s.start.value.pid;
            !NoOtherHandler(s, pid) <==>
            exists more :: NoNewStart(more) && Legal(System(), t, more) && HandlerTouches(After(System(), t, more), pid)
  {
    SettledRun(s0, run);
    var s := After(SettledSystem(), s0, run);
    var t, pid := Apply(s, StartStep), s.start.value.pid;
    BaseStep(s, StartStep);
    if NoOtherHandler(s, pid) {
      HandlersStep(s, StartStep);
      forall more | NoNewStart(more) && Legal(System(), t, more)
        ensures !HandlerTouches(After(System(), t, more), pid)
      {
        NoHandlerTouches(t, more, pid);
      }
    } else {
      var id :| id in s.exits && s.exits[id].pc != CheckPid && s.exits[id].pid != pid;
      var u, more := HandlerGoesOn(t, id);
      assert NoNewStart(more) && Legal(System(), t, more) && HandlerTouches(After(System(), t, more), pid);
    }
  }

  lemma LateTickExactly(s0: State, run: seq<Event>)
    requires Initial(s0) && Legal(CalmSystem(), s0, run) && PublishesPid(After(CalmSystem(), s0, run), StartStep)
    ensures var s := After(CalmSystem(), s0, run);
            var t, pid := Apply(s, StartStep), s.start.value.pid;
            !NoOtherTick(s, pid) <==>
            exists more :: NoNewStart(more) && Legal(System(), t, more) && TickTouches(After(System(), t, more), pid)
  {
    CalmRun(s0, run);
    var s := After(CalmSystem(), s0, run);
    var t, pid := Apply(s, StartStep), s.start.value.pid;
    BaseStep(s, StartStep);
    if NoOtherTick(s, pid) {
      TicksStep(s, StartStep);
      forall more | NoNewStart(more) && Legal(System(), t, more)
        ensures !TickTouches(After(System(), t, more), pid)
      {
        NoTickTouches(t, more, pid);
      }
    } else {
      var id, p :| id in s.ticks && Holds(s.ticks[id], p) && p != pid;
      var u, more := TickGoesOn(t, id, p);
      assert NoNewStart(more) && Legal(System(), t, more) && TickTouches(After(System(), t, more), pid);
    }
  }
}
