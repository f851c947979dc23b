/** Runs of the process manager: goroutines, handlers and the operating system interleaved. */
module ProcessRuns {
  import opened Text
  import opened Processes
  import opened Runs

  /** The goroutine that waits for one spawned child. */
  datatype Waiter = Waiting | Notifying | Closing | Finished

  /** The Start call of one spawned child. */
  datatype Starter = Selecting | ReturnedPid | ReturnedError

  datatype Child = Child(name: string, waiter: Waiter, starter: Starter, notices: nat)

  datatype State = State(
    tables: Tables,
    children: map<nat, Child>,      // every child Start has spawned
    watchers: set<(string, nat)>,   // goroutines in watchPIDExit
    alive: set<nat>,
    used: set<nat>,                 // pids that exist or have existed
    ours: set<(string, nat)>,       // who was spawned or adopted under which name
    stopped: set<nat>,              // pids Stop has signalled
    told: multiset<(string, nat)>,  // notifications sent by watchers
    late: multiset<(string, nat)>)  // adoptions that came when the pid had already exited, and started a watcher

  datatype Event =
    | Start(name: string, env: StartInput)
    | Adopt(name: string, pid: nat)
    | Stop(name: string)
    | Exit(pid: nat)              // the operating system
    | Reap(pid: nat)              // the waiter's locked section
    | Report(pid: nat)            // the waiter after it: fireExit, or close(exitedEarly)
    | Timeout(pid: nat)           // Start's select takes the timer
    | SeeEarlyExit(pid: nat)      // Start's select takes the channel
    | Watched(name: string, pid: nat)

  ghost predicate Enabled(s: State, e: Event) {
    match e
    case Start(name, env) =>
      // a live process always answers the probe; a dead, unreaped one may answer too
      && (name in s.tables.procs && s.tables.procs[name] in s.alive ==> env.procAlive)
      && (name in s.tables.adopted && s.tables.adopted[name] in s.alive ==> env.adoptedAlive)
      && (env.spawn.Some? ==> env.spawn.value !in s.used)
    case Adopt(name, pid) => pid in s.used
    case Stop(_) => true
    case Exit(pid) => pid in s.alive
    case Reap(pid) => pid in s.children && pid !in s.alive && s.children[pid].waiter == Waiting
    case Report(pid) => pid in s.children && s.children[pid].waiter in {Notifying, Closing}
    case Timeout(pid) => pid in s.children && s.children[pid].starter == Selecting
    case SeeEarlyExit(pid) =>
      && pid in s.children && s.children[pid].starter == Selecting
      && s.children[pid].waiter == Finished && pid in s.tables.phases && s.tables.phases[pid] == ExitedEarly
    case Watched(name, pid) => (name, pid) in s.watchers && pid !in s.alive
  }

  ghost function Apply(s: State, e: Event): State {
    match e
    case Start(name, env) =>
      var (tables, result) := StartSection(s.tables, name, env);
      if result.Spawned? then
        var pid := result.pid;
        s.(tables := tables, children := s.children[pid := Child(name, Waiting, Selecting, 0)],
           alive := s.alive + {pid}, used := s.used + {pid}, ours := s.ours + {(name, pid)})
      else s.(tables := tables)
    case Adopt(name, pid) =>
      var (tables, watch) := AdoptSection(s.tables, name, pid);
      s.(tables := tables, watchers := if watch then s.watchers + {(name, pid)} else s.watchers,
         ours := s.ours + {(name, pid)},
         late := if watch && pid !in s.alive then s.late + multiset{(name, pid)} else s.late)
    case Stop(name) =>
      var (tables, killed) := StopSection(s.tables, name);
      s.(tables := tables, stopped := if killed.Some? then s.stopped + {killed.value} else s.stopped)
    case Exit(pid) => s.(alive := s.alive - {pid})
    case Reap(pid) =>
      if pid in s.children && pid in s.tables.phases then
        var (tables, notify) := ReapSection(s.tables, s.children[pid].name, pid);
        s.(tables := tables,
           children := s.children[pid := s.children[pid].(waiter := if notify then Notifying else Closing)])
      else s
    case Report(pid) =>
      if pid in s.children then
        var c := s.children[pid];
        s.(children := s.children[pid :=
             c.(waiter := Finished, notices := if c.waiter == Notifying then c.notices + 1 else c.notices)])
      else s
    case Timeout(pid) =>
      if pid in s.children && pid in s.tables.phases then
        var (tables, committed) := CommitSection(s.tables, pid);
        s.(tables := tables,
           children := s.children[pid := s.children[pid].(starter := if committed then ReturnedPid else ReturnedError)])
      else s
    case SeeEarlyExit(pid) =>
      if pid in s.children then s.(children := s.children[pid := s.children[pid].(starter := ReturnedError)]) else s
    case Watched(name, pid) =>
      var (tables, stillOurs) := WatchSection(s.tables, name, pid);
      s.(tables := tables, watchers := s.watchers - {(name, pid)},
         told := if stillOurs then s.told + multiset{(name, pid)} else s.told)
  }

  ghost function System(): Machine<State, Event> {
    Machine((s, e) => Enabled(s, e), (s, e) => Apply(s, e))
  }

  /** A freshly started daemon; children of an earlier daemon may still be alive. */
  ghost predicate Initial(s: State) {
    && s.tables == Tables(map[], map[], map[]) && s.children == map[] && s.watchers == {}
    && s.ours == {} && s.stopped == {} && s.told == multiset{} && s.late == multiset{} && s.alive <= s.used
  }

  /** The run with one more event, and the state after it. */
  lemma Step(s: State, events: seq<Event>, e: Event) returns (t: State, longer: seq<Event>)
    requires Legal(System(), s, events) && Enabled(After(System(), s, events), e)
    ensures longer == events + [e] && Legal(System(), s, longer)
    ensures t == After(System(), s, longer) == Apply(After(System(), s, events), e)
  {
    Extend(System(), s, events, e);
    longer := events + [e];
    t := After(System(), s, longer);
  }

  // ---- No lost child ----

  ghost predicate Tracks(t: Tables, name: string, pid: nat) {
    (name in t.procs && t.procs[name] == pid) || (name in t.adopted && t.adopted[name] == pid)
  }

  /** A live child of ours under this name that nobody has stopped. */
  ghost predicate Serving(s: State, name: string, pid: nat) {
    (name, pid) in s.ours && pid in s.alive && pid !in s.stopped
  }

  /** Every such child is still tracked. */
  ghost predicate NoneLost(s: State) {
    forall name, pid | (name, pid) in s.ours && Serving(s, name, pid) :: Tracks(s.tables, name, pid)
  }

  /** No name tracks two different live pids. */
  ghost predicate OneLive(s: State) {
    forall name | name in s.tables.procs && name in s.tables.adopted ::
      s.tables.procs[name] == s.tables.adopted[name]
      || s.tables.procs[name] !in s.alive || s.tables.adopted[name] !in s.alive
  }

  ghost predicate Bookkeeping(s: State) {
    && s.alive <= s.used && s.stopped <= s.used
    && (forall name | name in s.tables.procs :: (name, s.tables.procs[name]) in s.ours)
    && (forall name | name in s.tables.adopted :: (name, s.tables.adopted[name]) in s.ours)
    && (forall name, pid | (name, pid) in s.ours :: pid in s.used)
    && (forall pid | pid in s.children :: pid in s.used && pid in s.tables.phases)
  }

  ghost predicate Sound(s: State) {
    var none, one := NoneLost(s), OneLive(s);
    none && one
  }

  /** The events that lose a child or track two: Stop forgets a live adopted child behind another
      pid in procs; Adopt overwrites a live adopted pid, or adopts beside a live spawned one. */
  ghost predicate Harmful(s: State, e: Event) {
    var t := s.tables;
    match e
    case Stop(name) =>
      && name in t.procs && name in t.adopted && t.procs[name] != t.adopted[name]
      && t.adopted[name] in s.alive && t.adopted[name] !in s.stopped
    case Adopt(name, pid) =>
      || (name in t.adopted && t.adopted[name] != pid && t.adopted[name] in s.alive
          && t.adopted[name] !in s.stopped && !(name in t.procs && t.procs[name] == t.adopted[name]))
      || (name in t.procs && t.procs[name] != pid && t.procs[name] in s.alive && pid in s.alive
          && !(name in t.adopted && t.adopted[name] == pid))
    case _ => false
  }

  lemma BookkeepingStep(s: State, e: Event)
    requires Bookkeeping(s) && Enabled(s, e)
    ensures Bookkeeping(Apply(s, e))
  {
  }

  lemma OthersKeepSound(s: State, e: Event)
    requires Bookkeeping(s) && Sound(s) && Enabled(s, e) && !e.Adopt? && !e.Stop?
    ensures Sound(Apply(s, e))
  {
  }

  lemma AdoptSoundExactly(s: State, name: string, pid: nat)
    requires Bookkeeping(s) && Sound(s) && Enabled(s, Adopt(name, pid))
    ensures Sound(Apply(s, Adopt(name, pid))) <==> !Harmful(s, Adopt(name, pid))
  {
    if Harmful(s, Adopt(name, pid)) {
      var q := if name in s.tables.adopted && s.tables.adopted[name] != pid then s.tables.adopted[name] else pid;
      assert (name, q) in Apply(s, Adopt(name, pid)).ours;
    }
  }

  lemma StopSoundExactly(s: State, name: string)
    requires Bookkeeping(s) && Sound(s)
    ensures Sound(Apply(s, Stop(name))) <==> !Harmful(s, Stop(name))
  {
    if Harmful(s, Stop(name)) {
      assert (name, s.tables.adopted[name]) in Apply(s, Stop(name)).ours;
    }
  }

  /** Exactly the harmful events break the bookkeeping of live children. */
  lemma LosesExactlyWhenHarmful(s: State, e: Event)
    requires Bookkeeping(s) && Sound(s) && Enabled(s, e)
    ensures Sound(Apply(s, e)) <==> !Harmful(s, e)
  {
    match e
    case Adopt(name, pid) => AdoptSoundExactly(s, name, pid);
    case Stop(name) => StopSoundExactly(s, name);
    case _ => OthersKeepSound(s, e);
  }

  /** An Adopt that meets nothing else tracked for the name: no spawned child but that pid, and no other
      adopted pid unless it has exited. */
  ghost predicate OwnPid(s: State, e: Event) {
    e.Adopt? ==>
      && (e.name in s.tables.procs ==> s.tables.procs[e.name] == e.pid)
      && (e.name in s.tables.adopted ==> s.tables.adopted[e.name] == e.pid || s.tables.adopted[e.name] !in s.alive)
  }

  ghost predicate Agree(t: Tables) {
    forall name | name in t.procs && name in t.adopted :: t.procs[name] == t.adopted[name]
  }

  ghost function CarefulSystem(): Machine<State, Event> {
    Machine((s, e) => Enabled(s, e) && OwnPid(s, e), (s, e) => Apply(s, e))
  }

  ghost predicate CarefulInvariant(s: State) {
    Bookkeeping(s) && Sound(s) && Agree(s.tables)
  }

  lemma CarefulStep(s: State, e: Event)
    requires CarefulInvariant(s) && Enabled(s, e) && OwnPid(s, e)
    ensures CarefulInvariant(Apply(s, e))
  {
    BookkeepingStep(s, e);
    LosesExactlyWhenHarmful(s, e);
  }

  /** Over every run in which each Adopt meets nothing else tracked for its name, except that pid itself or an
      adopted pid that has exited, no live child is ever lost. */
  lemma NoLostChild(s: State, events: seq<Event>)
    requires Initial(s) && Legal(CarefulSystem(), s, events)
    ensures Sound(After(CarefulSystem(), s, events))
  {
    CarefulRun(s, events);
  }

  lemma CarefulRun(s: State, events: seq<Event>)
    requires Initial(s) && Legal(CarefulSystem(), s, events)
    ensures CarefulInvariant(After(CarefulSystem(), s, events))
  {
    forall t, e | CarefulInvariant(t) && CarefulSystem().enabled(t, e)
      ensures CarefulInvariant(CarefulSystem().apply(t, e))
    {
      CarefulStep(t, e);
    }
    Invariant(CarefulSystem(), t => CarefulInvariant(t), s, events);
  }

  /** After every such run, a Start of a name with a serving child answers that child and changes nothing. Any pid it
      answers is tracked for the name; and where neither entry answers the probe, a command and a child that can be
      started are enough for that child to be the answer, to serve and to be tracked. */
  lemma StartAnswersTheServingChild(s: State, events: seq<Event>, name: string, env: StartInput, pid: nat)
    requires Initial(s) && Legal(CarefulSystem(), s, events)
    requires Enabled(After(CarefulSystem(), s, events), Start(name, env))
    ensures var t := After(CarefulSystem(), s, events);
            var result, u := StartSection(t.tables, name, env).1, Apply(t, Start(name, env));
            && (Serving(t, name, pid) ==> result == AlreadyRunning(pid))
            && (result == AlreadyRunning(pid) ==> Tracks(t.tables, name, pid) && u == t)
            && (!env.procAlive && !env.adoptedAlive && env.hasCmd && env.spawn == Some(pid) ==>
                  && result == Spawned(pid) && Serving(u, name, pid) && Tracks(u.tables, name, pid)
                  && forall p | Serving(t, name, p) :: false)
  {
    CarefulRun(s, events);
    var t := After(CarefulSystem(), s, events);
    assert forall p | Serving(t, name, p) :: Tracks(t.tables, name, p);
    assert Bookkeeping(t);
  }

  /** And a child that has exited is replaced, whether or not it has been reaped. */
  lemma ExitedChildIsReplaced(s: State) returns (events: seq<Event>)
    requires Initial(s) && s.used == {}
    ensures var silent := (pid: nat) => StartInput(false, false, true, Some(pid));
            events == [Start("app", silent(1)), Exit(1), Start("app", silent(2))]
    ensures Legal(CarefulSystem(), s, events) && Serving(After(CarefulSystem(), s, events), "app", 2)
  {
    var t: State;
    t, events := CarefulThen(s, [], Start("app", StartInput(false, false, true, Some(1))));
    t, events := CarefulThen(s, events, Exit(1));
    assert t.used == {1} && t.alive == {};
    t, events := CarefulThen(s, events, Start("app", StartInput(false, false, true, Some(2))));
  }

  /** So is an adopted one. */
  lemma ExitedAdoptedIsReplaced(s: State) returns (events: seq<Event>)
    requires Initial(s) && s.used == {9} && s.alive == {9}
    ensures events == [Adopt("app", 9), Exit(9), Start("app", StartInput(false, false, true, Some(1)))]
    ensures Legal(CarefulSystem(), s, events) && Serving(After(CarefulSystem(), s, events), "app", 1)
  {
    var t: State;
    t, events := CarefulThen(s, [], Adopt("app", 9));
    t, events := CarefulThen(s, events, Exit(9));
    assert t.used == {9} && t.alive == {};
    t, events := CarefulThen(s, events, Start("app", StartInput(false, false, true, Some(1))));
  }

  lemma CarefulThen(s: State, events: seq<Event>, e: Event) returns (t: State, longer: seq<Event>)
    requires Legal(CarefulSystem(), s, events) && Enabled(After(CarefulSystem(), s, events), e)
    requires OwnPid(After(CarefulSystem(), s, events), e)
    ensures longer == events + [e] && Legal(CarefulSystem(), s, longer)
    ensures t == After(CarefulSystem(), s, longer) == Apply(After(CarefulSystem(), s, events), e)
  {
    Extend(CarefulSystem(), s, events, e);
    longer := events + [e];
    t := After(CarefulSystem(), s, longer);
  }

  /** After every such run, a Stop of a name leaves no child of it serving, and signals no pid that is not tracked for
      the name; children of other names are left alone. */
  lemma StopReachesTheServingChild(s: State, events: seq<Event>, name: string, pid: nat)
    requires Initial(s) && Legal(CarefulSystem(), s, events)
    ensures var t := After(CarefulSystem(), s, events);
            var u := Apply(t, Stop(name));
            && !Serving(u, name, pid) && !Tracks(u.tables, name, pid)
            && (pid in u.stopped && pid !in t.stopped ==> Tracks(t.tables, name, pid))
            && forall n, p | n != name :: Tracks(u.tables, n, p) <==> Tracks(t.tables, n, p)
  {
    CarefulRun(s, events);
    var t := After(CarefulSystem(), s, events);
    assert Serving(t, name, pid) ==> Tracks(t.tables, name, pid);
  }

  /** Before every event of the run, and after the last, each live child not stopped is tracked. */
  ghost predicate Kept(s: State, events: seq<Event>)
    decreases |events|
  {
    Sound(s) && (events != [] ==> Kept(Apply(s, events[0]), events[1..]))
  }

  /** No event of the run is harmful when its turn comes. */
  ghost predicate Harmless(s: State, events: seq<Event>)
    decreases |events|
  {
    events != [] ==> !Harmful(s, events[0]) && Harmless(Apply(s, events[0]), events[1..])
  }

  /** The exact condition over whole runs. */
  lemma {:induction false} KeptExactly(s: State, events: seq<Event>)
    requires Bookkeeping(s) && Sound(s) && Legal(System(), s, events)
    ensures Kept(s, events) <==> Harmless(s, events)
    decreases |events|
  {
    if events != [] {
      LosesExactlyWhenHarmful(s, events[0]);
      if !Harmful(s, events[0]) {
        BookkeepingStep(s, events[0]);
        KeptExactly(Apply(s, events[0]), events[1..]);
      }
    }
  }

  /** Adopting while a dead predecessor is not yet reaped is not careful enough: a later Stop signals
      the dead pid and forgets the live one, although at no time were two live pids tracked. */
  lemma UnreapedPredecessorLosesAdopted(s: State) returns (before: seq<Event>)
    requires Initial(s) && s.used == {9} && s.alive == {9}
    ensures Legal(System(), s, before) && |before| == 3 && Kept(s, before)
    ensures Legal(System(), s, before + [Stop("app")]) && !NoneLost(After(System(), s, before + [Stop("app")]))
  {
    var t: State;
    t, before := Step(s, [], Start("app", StartInput(false, false, true, Some(1))));
    t, before := Step(s, before, Exit(1));
    t, before := Step(s, before, Adopt("app", 9));
    assert t.tables.procs == map["app" := 1] && t.tables.adopted == map["app" := 9] && t.stopped == {};
    assert Kept(s, before) by {
      HarmlessRun(s, before);
    }
    var u, all := Step(s, before, Stop("app"));
    assert ("app", 9) in u.ours && 9 in u.alive && 9 !in u.stopped && !Tracks(u.tables, "app", 9);
  }

  lemma HarmlessRun(s: State, events: seq<Event>)
    requires Initial(s) && s.used == {9} && s.alive == {9}
    requires events == [Start("app", StartInput(false, false, true, Some(1))), Exit(1), Adopt("app", 9)]
             && Legal(System(), s, events)
    ensures Kept(s, events)
  {
    var s1 := Apply(s, events[0]);
    var s2 := Apply(s1, events[1]);
    assert events[1..][0] == events[1] && events[1..][1..][0] == events[2] && events[1..][1..][1..] == [];
    assert !Harmful(s2, events[2]) && Harmless(Apply(s2, events[2]), []);
    assert Harmless(s2, events[1..][1..]);
    assert Harmless(s1, events[1..]);
    KeptExactly(s, events);
  }

  // ---- Startup window ----

  ghost predicate InWindow(s: State, pid: nat)
    requires pid in s.children && pid in s.tables.phases
  {
    var c := s.children[pid];
    && (c.waiter != Waiting ==> pid !in s.alive)
    && match s.tables.phases[pid]
       case Starting => c.waiter == Waiting && c.starter == Selecting && c.notices == 0
       case Running =>
         && c.starter == ReturnedPid && c.waiter != Closing
         && c.notices == if c.waiter == Finished then 1 else 0
       case ExitedEarly => c.waiter in {Closing, Finished} && c.starter != ReturnedPid && c.notices == 0
  }

  ghost predicate WindowInvariant(s: State) {
    && (forall pid | pid in s.children :: pid in s.used && pid in s.tables.phases && InWindow(s, pid))
    && s.alive <= s.used
  }

  lemma WindowStep(s: State, e: Event)
    requires WindowInvariant(s) && Enabled(s, e)
    ensures WindowInvariant(Apply(s, e))
  {
    var t := Apply(s, e);
    forall pid | pid in t.children
      ensures pid in t.used && pid in t.tables.phases && InWindow(t, pid)
    {
      if pid in s.children {
        assert InWindow(s, pid);
      }
    }
  }

  /** What a run has told the outside about one child's exit. */
  ghost predicate ReportedAsError(s: State, pid: nat)
    requires pid in s.children
  {
    s.children[pid].starter == ReturnedError
  }

  ghost predicate Settled(s: State, pid: nat)
    requires pid in s.children
  {
    s.children[pid].waiter == Finished && s.children[pid].starter != Selecting
  }

  /** In every run the waiter of a child sends at most one notification, only after Start has committed and
      returned the pid, and never for an exit that Start reports as its error. Once both goroutines
      are through, exactly one of the two reports has been made, and the child is dead. */
  lemma ExitReportedOnce(s: State, events: seq<Event>, pid: nat)
    requires Initial(s) && Legal(System(), s, events)
    requires pid in After(System(), s, events).children
    ensures var t := After(System(), s, events);
            && t.children[pid].notices <= 1
            && (t.children[pid].notices == 1 ==> t.children[pid].starter == ReturnedPid)
            && (Settled(t, pid) ==> pid !in t.alive && (ReportedAsError(t, pid) <==> t.children[pid].notices == 0))
            && (t.children[pid].starter == ReturnedError ==> pid !in t.alive)
  {
    forall t, e | WindowInvariant(t) && System().enabled(t, e)
      ensures WindowInvariant(System().apply(t, e))
    {
      WindowStep(t, e);
    }
    Invariant(System(), t => WindowInvariant(t), s, events);
    assert InWindow(After(System(), s, events), pid);
  }

  /** An exit inside the first second does reach Start as its error, and nobody is notified. */
  lemma EarlyExitIsTheError(s: State) returns (events: seq<Event>)
    requires Initial(s) && s.used == {}
    ensures events == [Start("app", StartInput(false, false, true, Some(1))), Exit(1), Reap(1), Report(1),
                       SeeEarlyExit(1)]
    ensures var t := After(System(), s, events);
            Legal(System(), s, events) && t.children == map[1 := Child("app", Finished, ReturnedError, 0)]
  {
    var t: State;
    t, events := Step(s, [], Start("app", StartInput(false, false, true, Some(1))));
    t, events := Step(s, events, Exit(1));
    t, events := Step(s, events, Reap(1));
    t, events := Step(s, events, Report(1));
    assert t.tables.phases == map[1 := ExitedEarly];
    t, events := Step(s, events, SeeEarlyExit(1));
  }

  // ---- Both reporters ----

  /** Recovery may adopt a child that was spawned, so its exit has two reporters: the waiter and a watcher. A watcher
      reports once, but an adoption that loses the race with the child's exit starts another. */
  ghost predicate ToldOk(s: State, name: string, pid: nat) {
    var told, late := s.told[(name, pid)], s.late[(name, pid)];
    && told + (if name in s.tables.adopted && s.tables.adopted[name] == pid then 1 else 0) <= 1 + late
    && (told > 0 || late > 0 ==> pid in s.used && pid !in s.alive)
  }

  ghost predicate ToldInvariant(s: State) {
    && WindowInvariant(s) && (forall name | name in s.tables.adopted :: s.tables.adopted[name] in s.used)
    && forall name, pid :: ToldOk(s, name, pid)
  }

  lemma ToldKept(s: State, e: Event, name: string, pid: nat)
    requires s.alive <= s.used && (forall n | n in s.tables.adopted :: s.tables.adopted[n] in s.used)
    requires ToldOk(s, name, pid) && Enabled(s, e)
    ensures ToldOk(Apply(s, e), name, pid)
  {
  }

  lemma ToldStep(s: State, e: Event)
    requires ToldInvariant(s) && Enabled(s, e)
    ensures ToldInvariant(Apply(s, e))
  {
    WindowStep(s, e);
    forall name, pid
      ensures ToldOk(Apply(s, e), name, pid)
    {
      ToldKept(s, e, name, pid);
    }
  }

  /** In every run an exit brings at most one notification from the waiter, and from the watchers of a name at most
      one more than adoptions of the pid came too late; none while the process lives, and none from the waiter if
      Start reports the exit. */
  lemma EachReporterOnce(s: State, events: seq<Event>, name: string, pid: nat)
    requires Initial(s) && Legal(System(), s, events)
    ensures var t := After(System(), s, events);
            && t.told[(name, pid)] <= 1 + t.late[(name, pid)] && (t.told[(name, pid)] > 0 ==> pid !in t.alive)
            && (pid in t.children ==>
                  && t.children[pid].notices <= 1 && (t.children[pid].notices == 1 ==> pid !in t.alive)
                  && (ReportedAsError(t, pid) ==> t.children[pid].notices == 0))
  {
    var m := System();
    forall t, e | ToldInvariant(t) && m.enabled(t, e)
      ensures ToldInvariant(m.apply(t, e))
    {
      ToldStep(t, e);
    }
    Invariant(m, t => ToldInvariant(t), s, events);
    var t := After(m, s, events);
    assert ToldOk(t, name, pid);
    assert pid in t.children ==> InWindow(t, pid);
  }

  /** And such an adoption does bring a second one. */
  lemma LateAdoptionReportsAgain(s: State) returns (events: seq<Event>)
    requires Initial(s) && s.used == {9} && s.alive == {9}
    ensures Legal(System(), s, events)
    ensures var t := After(System(), s, events); t.told[("app", 9)] == 2 && t.late[("app", 9)] == 1
  {
    var t: State;
    t, events := Step(s, [], Adopt("app", 9));
    t, events := Step(s, events, Exit(9));
    t, events := Step(s, events, Watched("app", 9));
    assert t.told == multiset{("app", 9)} && t.late == multiset{} && t.tables.adopted == map[];
    t, events := Step(s, events, Adopt("app", 9));
    t, events := Step(s, events, Watched("app", 9));
    assert t.told == multiset{("app", 9), ("app", 9)} && t.late == multiset{("app", 9)};
  }

  /** Spawned, committed, re-adopted. */
  lemma Readopted(s: State) returns (t: State, events: seq<Event>)
    requires Initial(s) && s.used == {}
    ensures Legal(System(), s, events) && t == After(System(), s, events)
    ensures t.tables == Tables(map["app" := 1], map["app" := 1], map[1 := Running])
    ensures t.children == map[1 := Child("app", Waiting, ReturnedPid, 0)]
    ensures t.watchers == {("app", 1)} && t.alive == {1} && t.told == multiset{}
  {
    t, events := Step(s, [], Start("app", StartInput(false, false, true, Some(1))));
    t, events := Step(s, events, Timeout(1));
    t, events := Step(s, events, Adopt("app", 1));
  }

  /** Both do report: the child dies after it was re-adopted. */
  lemma BothReport(s: State) returns (events: seq<Event>)
    requires Initial(s) && s.used == {}
    ensures var t := After(System(), s, events);
            Legal(System(), s, events) && 1 in t.children && t.children[1].notices == 1 && t.told[("app", 1)] == 1
  {
    var t: State;
    t, events := Readopted(s);
    t, events := Step(s, events, Exit(1));
    assert t.alive == {};
    t, events := Step(s, events, Reap(1));
    t, events := Step(s, events, Report(1));
    assert t.children == map[1 := Child("app", Finished, ReturnedPid, 1)];
    t, events := Step(s, events, Watched("app", 1));
    assert t.told == multiset{("app", 1)};
  }

  /** Steps a dead child's goroutines still have to take. */
  ghost function Pending(s: State, pid: nat): nat
    requires pid in s.children
  {
    var c := s.children[pid];
    (match c.waiter case Waiting => 2 case Notifying => 1 case Closing => 1 case Finished => 0)
    + (if c.starter == Selecting then 1 else 0)
  }

  /** A dead child whose exit is not settled always has a step to take, and no step of any
      goroutine sets it back: the report cannot be starved by the interleaving. */
  lemma ReportIsNeverStuck(s: State, pid: nat) returns (e: Event)
    requires WindowInvariant(s) && pid in s.children && pid !in s.alive && !Settled(s, pid)
    ensures Enabled(s, e) && pid in Apply(s, e).children && Pending(Apply(s, e), pid) < Pending(s, pid)
  {
    assert InWindow(s, pid);
    var c := s.children[pid];
    e := if c.waiter == Waiting then Reap(pid) else if c.waiter != Finished then Report(pid) else Timeout(pid);
  }

  lemma PendingNeverGrows(s: State, e: Event, pid: nat)
    requires WindowInvariant(s) && Enabled(s, e) && pid in s.children
    ensures pid in Apply(s, e).children && Pending(Apply(s, e), pid) <= Pending(s, pid)
  {
    assert InWindow(s, pid);
  }
}
