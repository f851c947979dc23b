/** Runs of the timers: table writes, activity, timers firing, callbacks and time passing. */
module TimerRuns {
  import opened Text
  import opened Timers
  import opened Runs

  datatype Event =
    | AddRoute(name: string, route: Route)   // register, overwrite, and the write of an update
    | RemoveRoute(name: string)
    | Touch(name: string)                    // a proxied request
    | MarkRunning(name: string)
    | MarkStopped(name: string)
    | Fire(id: nat)                          // a countdown ends
    | RunCallback(id: nat)                   // the callback goroutine runs, at once or much later
    | Tick(d: int)

  /** The state, with the time of each name's last start and last table write. */
  datatype World = World(s: State, started: map<string, int>, written: map<string, int>)

  /** The timers the server still points at. */
  ghost predicate Tracked(s: State, id: nat) {
    (exists name | name in s.ttlTimers :: s.ttlTimers[name] == id)
    || (exists name | name in s.idleTimers :: s.idleTimers[name] == id)
  }

  ghost predicate Enabled(w: World, e: Event) {
    var s := w.s;
    match e
    case AddRoute(name, r) =>
      && r.registeredAt <= s.now
      && (r.lastActivity.Some? ==> r.lastActivity.value <= s.now)
    case RemoveRoute(_) => true
    case Touch(name) => name in s.table
    case MarkRunning(name) => name in s.table
    case MarkStopped(name) => name in s.table
    case Fire(id) => id in s.pending && s.pending[id].due <= s.now
    case RunCallback(id) => id in s.fired
    case Tick(d) =>
      // a tracked timer fires and runs on time; a stopped or overtaken one may come at any time
      && d >= 0
      && forall id {:trigger Tracked(s, id)} | Tracked(s, id) ::
         id !in s.fired && (id in s.pending ==> s.now + d <= s.pending[id].due)
  }

  ghost function Apply(w: World, e: Event): World {
    var s := w.s;
    match e
    case AddRoute(name, r) =>
      World(Add(s, name, r), w.started, w.written[name := s.now])
    case RemoveRoute(name) => w.(s := Remove(s, name))
    case Touch(name) =>
      if name in s.table then w.(s := s.(table := s.table[name := s.table[name].(lastActivity := Some(s.now))])) else w
    case MarkRunning(name) =>
      if name in s.table then
        World(s.(table := s.table[name := s.table[name].(running := true)]), w.started[name := s.now], w.written)
      else w
    case MarkStopped(name) =>
      if name in s.table then w.(s := s.(table := s.table[name := s.table[name].(running := false)])) else w
    case Fire(id) =>
      if id in s.pending then w.(s := s.(pending := s.pending - {id}, fired := s.fired[id := s.pending[id]])) else w
    case RunCallback(id) =>
      if id in s.fired then
        var t := s.fired[id];
        var s1 := s.(fired := s.fired - {id});
        w.(s := if t.callback == ExpireTtl then RunExpireTtl(s1, t.name) else RunCheckIdle(s1, t.name))
      else w
    case Tick(d) => w.(s := s.(now := s.now + d))
  }

  ghost function System(): Machine<World, Event> {
    Machine((w, e) => Enabled(w, e), (w, e) => Apply(w, e))
  }

  ghost predicate Initial(w: World) {
    var s := w.s;
    && s.table == map[] && s.ttlTimers == map[] && s.idleTimers == map[]
    && s.pending == map[] && s.fired == map[] && w.started == map[] && w.written == map[]
  }

  // ---- The two timer maps ----

  /** Timer `id` exists, is not stopped, and is for this name and callback. */
  ghost predicate Live(s: State, id: nat, callback: Callback, name: string) {
    || (id in s.pending && s.pending[id].callback == callback && s.pending[id].name == name)
    || (id in s.fired && s.fired[id].callback == callback && s.fired[id].name == name)
  }

  ghost function Due(s: State, id: nat): int {
    if id in s.pending then s.pending[id].due else if id in s.fired then s.fired[id].due else 0
  }

  ghost function Max(a: int, b: int): int {
    if a < b then b else a
  }

  /** When a running idle route must have been looked at: T + 1s after the latest of its last
      activity, its last start and its last table write. */
  ghost function IdleBound(w: World, name: string): int
    requires name in w.s.table && name in w.written
  {
    var r := w.s.table[name];
    var seen := if r.lastActivity.Some? then Max(r.lastActivity.value, w.written[name]) else w.written[name];
    (if name in w.started then Max(seen, w.started[name]) else seen) + Timeout(r) + SECOND
  }

  ghost predicate TimersOk(s: State) {
    && (forall id | id in s.pending :: id < s.nextId && id !in s.fired)
    && (forall id | id in s.fired :: id < s.nextId && s.fired[id].due <= s.now)
  }

  ghost predicate ClocksOk(w: World, name: string) {
    && (name in w.written ==> w.written[name] <= w.s.now)
    && (name in w.started ==> w.started[name] <= w.s.now)
    && (name in w.s.table ==>
          var r := w.s.table[name];
          && name in w.written && r.registeredAt <= w.written[name]
          && (r.lastActivity.Some? ==> r.lastActivity.value <= w.s.now))
  }

  /** ttlTimers holds exactly the table's TTL routes, each with its current deadline (or the time
      of the write, for a route that was already past its deadline when it was added). */
  ghost predicate TtlExact(w: World, name: string) {
    var s := w.s;
    && (name in s.ttlTimers <==> name in s.table && IsTtl(s.table[name]))
    && (name in s.ttlTimers ==>
          && Live(s, s.ttlTimers[name], ExpireTtl, name) && name in w.written
          && s.now <= Due(s, s.ttlTimers[name]) == Max(s.table[name].expiresAt.value, w.written[name]))
  }

  /** idleTimers holds exactly the table's idle routes, each due in time. */
  ghost predicate IdleExact(w: World, name: string) {
    var s := w.s;
    && (name in s.idleTimers <==> name in s.table && IsIdle(s.table[name]))
    && (name in s.idleTimers ==>
          && Live(s, s.idleTimers[name], CheckIdle, name) && name in w.written
          && s.now <= Due(s, s.idleTimers[name]) <=
             if s.table[name].running then IdleBound(w, name) else s.now + Timeout(s.table[name]) + SECOND)
  }

  ghost predicate NameOk(w: World, name: string) {
    var clocks, ttl, idle := ClocksOk(w, name), TtlExact(w, name), IdleExact(w, name);
    clocks && ttl && idle
  }

  /** What a step has to keep, one name at a time. */
  ghost predicate Sound(w: World, name: string) {
    var timers, routes := TimersOk(w.s), NameOk(w, name);
    timers && routes
  }

  ghost predicate TimerInvariant(w: World) {
    var timers := TimersOk(w.s);
    timers && forall name :: NameOk(w, name)
  }

  /** Add first clears the name's timers, if it overwrites, and then arms the new route's. */
  ghost function Slate(s: State, name: string, r: Route): State {
    var s1 := s.(table := s.table[name := r]);
    if name in s.table then OnRouteRemoved(s1, name) else s1
  }

  lemma SlateSelf(w: World, name: string, r: Route)
    requires TimerInvariant(w)
    ensures var s := Slate(w.s, name, r);
            && s.now == w.s.now && s.nextId == w.s.nextId && TimersOk(s) && s.table == w.s.table[name := r]
            && name !in s.ttlTimers && name !in s.idleTimers && Add(w.s, name, r) == OnRouteAdded(s, name, r)
  {
    assert NameOk(w, name);
  }

  lemma SlateOther(w: World, name: string, r: Route, n: string)
    requires TimerInvariant(w) && n != name
    ensures NameOk(w.(s := Slate(w.s, name, r)), n)
  {
    assert NameOk(w, n) && NameOk(w, name);
  }

  lemma Cleared(w: World, name: string, r: Route, n: string) returns (s: State)
    requires TimerInvariant(w)
    ensures s.now == w.s.now && s.nextId == w.s.nextId && TimersOk(s) && s.table == w.s.table[name := r]
    ensures name !in s.ttlTimers && name !in s.idleTimers
    ensures n != name ==> NameOk(w.(s := s), n)
    ensures Add(w.s, name, r) == OnRouteAdded(s, name, r)
  {
    s := Slate(w.s, name, r);
    SlateSelf(w, name, r);
    if n != name {
      SlateOther(w, name, r, n);
    }
  }

  lemma ArmTtlStep(w: World, s: State, name: string, expires: int, n: string)
    requires TimersOk(s) && name !in s.ttlTimers
    ensures var t := ArmTtl(s, name, expires);
            && TimersOk(t) && t == s.(pending := t.pending, ttlTimers := t.ttlTimers, nextId := t.nextId)
            && name in t.ttlTimers && Live(t, t.ttlTimers[name], ExpireTtl, name)
            && Due(t, t.ttlTimers[name]) == Max(expires, s.now)
    ensures n != name && NameOk(w.(s := s), n) ==> NameOk(w.(s := ArmTtl(s, name, expires)), n)
  {
  }

  lemma ArmIdleStep(w: World, s: State, name: string, n: string)
    requires TimersOk(s) && name !in s.idleTimers && name in s.table && IsIdle(s.table[name])
    ensures var t := ArmIdle(s, name);
            && TimersOk(t) && t == s.(pending := t.pending, idleTimers := t.idleTimers, nextId := t.nextId)
            && name in t.idleTimers && Live(t, t.idleTimers[name], CheckIdle, name)
            && Due(t, t.idleTimers[name]) == s.now + Timeout(s.table[name])
    ensures n != name && NameOk(w.(s := s), n) ==> NameOk(w.(s := ArmIdle(s, name)), n)
  {
  }

  lemma AddStepOther(w: World, name: string, r: Route, n: string)
    requires TimerInvariant(w) && Enabled(w, AddRoute(name, r)) && n != name
    ensures Sound(Apply(w, AddRoute(name, r)), n)
  {
    var s := Cleared(w, name, r, n);
    if IsTtl(r) {
      ArmTtlStep(w, s, name, r.expiresAt.value, n);
    } else if IsIdle(r) {
      ArmIdleStep(w, s, name, n);
    }
    var t := OnRouteAdded(s, name, r);
    var u, v := w.(s := t), Apply(w, AddRoute(name, r));
    assert NameOk(u, n);
    assert v.s == t && v.started == u.started && (n in v.written <==> n in u.written);
    assert ClocksOk(v, n);
    assert TtlExact(v, n);
    assert IdleExact(v, n);
  }

  lemma AddStepSelf(w: World, name: string, r: Route)
    requires TimerInvariant(w) && Enabled(w, AddRoute(name, r))
    ensures Sound(Apply(w, AddRoute(name, r)), name)
  {
    assert ClocksOk(w, name) by {
      assert NameOk(w, name);
    }
    var s := Cleared(w, name, r, name);
    var v := Apply(w, AddRoute(name, r));
    if IsTtl(r) {
      ArmTtlStep(w, s, name, r.expiresAt.value, name);
    } else if IsIdle(r) {
      ArmIdleStep(w, s, name, name);
      assert Due(v.s, v.s.idleTimers[name]) == v.s.now + Timeout(r);
      assert v.s.now <= IdleBound(v, name) - Timeout(r);
    }
    assert v.s.table[name] == r && v.written[name] == v.s.now;
  }

  lemma RemoveStep(w: World, name: string, n: string)
    requires TimerInvariant(w)
    ensures NameOk(w.(s := Remove(w.s, name)), n) && TimersOk(Remove(w.s, name))
  {
    assert NameOk(w, n) && NameOk(w, name);
  }

  lemma FlagStep(w: World, e: Event, n: string)
    requires TimerInvariant(w) && Enabled(w, e) && (e.Touch? || e.MarkRunning? || e.MarkStopped?)
    ensures Sound(Apply(w, e), n)
  {
    assert NameOk(w, n);
    var v := Apply(w, e);
    assert TimersOk(v.s);
    assert ClocksOk(v, n) && TtlExact(v, n);
    if n in w.s.idleTimers {
      assert v.s.table[n].idleTimeout == w.s.table[n].idleTimeout;
      assert w.s.table[n].running && v.s.table[n].running ==> IdleBound(w, n) <= IdleBound(v, n);
    }
    assert IdleExact(v, n);
  }

  lemma FireStep(w: World, id: nat, n: string)
    requires TimerInvariant(w) && Enabled(w, Fire(id))
    ensures Sound(Apply(w, Fire(id)), n)
  {
    assert NameOk(w, n);
  }

  lemma TickStep(w: World, d: int, n: string)
    requires TimerInvariant(w) && Enabled(w, Tick(d))
    ensures Sound(Apply(w, Tick(d)), n)
  {
    assert NameOk(w, n);
    var s := w.s;
    assert n in s.ttlTimers ==> Tracked(s, s.ttlTimers[n]);
    assert n in s.idleTimers ==> Tracked(s, s.idleTimers[n]);
  }

  lemma TtlCallbackStep(w: World, id: nat, n: string)
    requires TimerInvariant(w) && id in w.s.fired && w.s.fired[id].callback == ExpireTtl
    ensures Sound(Apply(w, RunCallback(id)), n)
  {
    assert NameOk(w, n) && NameOk(w, w.s.fired[id].name);
  }

  lemma RearmStep(w: World, s: State, name: string, d: int, n: string)
    requires TimersOk(s) && name in s.idleTimers
    ensures var t := RearmIdle(s, name, d);
            && TimersOk(t) && t == s.(pending := t.pending, idleTimers := t.idleTimers, nextId := t.nextId)
            && t.idleTimers.Keys == s.idleTimers.Keys && Live(t, t.idleTimers[name], CheckIdle, name)
            && Due(t, t.idleTimers[name]) == s.now + Max(d, SECOND)
    ensures n != name && NameOk(w.(s := s), n) ==> NameOk(w.(s := RearmIdle(s, name, d)), n)
    ensures TtlExact(w.(s := s), n) ==> TtlExact(w.(s := RearmIdle(s, name, d)), n)
  {
  }

  /** RunCheckIdle is one rearm of a state that may have lost its running flag. */
  ghost function Stopped(s: State, name: string): State {
    if name in s.table && s.table[name].running && s.now - LastActive(s.table[name]) >= Timeout(s.table[name]) then
      s.(table := s.table[name := s.table[name].(running := false)])
    else s
  }

  ghost function NextLook(s: State, r: Route): int {
    if r.running && s.now - LastActive(r) < Timeout(r) then Timeout(r) - (s.now - LastActive(r)) else Timeout(r)
  }

  /** What the idle check does, in two parts. */
  lemma IdleCallbackIs(w: World, id: nat)
    requires Enabled(w, RunCallback(id)) && w.s.fired[id].callback == CheckIdle
    ensures var s, name := w.s, w.s.fired[id].name;
            var s1 := s.(fired := s.fired - {id});
            Apply(w, RunCallback(id)) ==
              if name in s.table && IsIdle(s.table[name])
              then w.(s := RearmIdle(Stopped(s1, name), name, NextLook(s, s.table[name]))) else w.(s := s1)
  {
  }

  lemma StoppedKeeps(w: World, id: nat, n: string)
    requires TimerInvariant(w) && id in w.s.fired && w.s.fired[id].callback == CheckIdle
    ensures var name := w.s.fired[id].name;
            var s2 := Stopped(w.s.(fired := w.s.fired - {id}), name);
            var timers, ttl := TimersOk(s2), TtlExact(w.(s := s2), n);
            && s2.idleTimers == w.s.idleTimers && s2.now == w.s.now && timers && ttl
            && (n != name ==> NameOk(w.(s := s2), n))
  {
    assert NameOk(w, n) && NameOk(w, w.s.fired[id].name);
  }

  lemma IdleCallbackOther(w: World, id: nat, n: string)
    requires TimerInvariant(w) && id in w.s.fired && w.s.fired[id].callback == CheckIdle && n != w.s.fired[id].name
    ensures Sound(Apply(w, RunCallback(id)), n)
  {
    var s, name := w.s, w.s.fired[id].name;
    assert NameOk(w, name);
    IdleCallbackIs(w, id);
    StoppedKeeps(w, id, n);
    var s1 := s.(fired := s.fired - {id});
    if name in s.table && IsIdle(s.table[name]) {
      RearmStep(w, Stopped(s1, name), name, NextLook(s, s.table[name]), n);
    } else {
      assert Stopped(s1, name) == s1 || name in s.table;
      assert NameOk(w, n);
    }
  }

  lemma IdleCallbackSelf(w: World, id: nat)
    requires TimerInvariant(w) && id in w.s.fired && w.s.fired[id].callback == CheckIdle
    ensures Sound(Apply(w, RunCallback(id)), w.s.fired[id].name)
  {
    var s, name := w.s, w.s.fired[id].name;
    assert NameOk(w, name);
    IdleCallbackIs(w, id);
    if name in s.table && IsIdle(s.table[name]) {
      var r := s.table[name];
      var s2 := Stopped(s.(fired := s.fired - {id}), name);
      StoppedKeeps(w, id, name);
      RearmStep(w, s2, name, NextLook(s, r), name);
      var v := Apply(w, RunCallback(id));
      assert v.s.table[name] == r || v.s.table[name] == r.(running := false);
      assert ClocksOk(v, name);
      if v.s.table[name].running {
        assert Max(NextLook(s, r), SECOND) <= NextLook(s, r) + SECOND;
        assert LastActive(r) + Timeout(r) + SECOND <= IdleBound(w, name) == IdleBound(v, name);
      }
    }
  }

  lemma TimerStep(w: World, e: Event)
    requires TimerInvariant(w) && Enabled(w, e)
    ensures TimerInvariant(Apply(w, e))
  {
    forall n
      ensures Sound(Apply(w, e), n) && NameOk(Apply(w, e), n)
    {
      match e
      case AddRoute(name, r) =>
        if n == name {
          AddStepSelf(w, name, r);
        } else {
          AddStepOther(w, name, r, n);
        }
      case RemoveRoute(name) => RemoveStep(w, name, n);
      case RunCallback(id) =>
        if w.s.fired[id].callback == ExpireTtl {
          TtlCallbackStep(w, id, n);
        } else {
          if n == w.s.fired[id].name {
            IdleCallbackSelf(w, id);
          } else {
            IdleCallbackOther(w, id, n);
          }
        }
      case Fire(id) => FireStep(w, id, n);
      case Tick(d) => TickStep(w, d, n);
      case _ => FlagStep(w, e, n);
    }
    assert Sound(Apply(w, e), "");
  }

  lemma TimerRun(w: World, events: seq<Event>)
    requires Initial(w) && Legal(System(), w, events)
    ensures TimerInvariant(After(System(), w, events))
  {
    forall t, e | TimerInvariant(t) && System().enabled(t, e)
      ensures TimerInvariant(System().apply(t, e))
    {
      TimerStep(t, e);
    }
    Invariant(System(), t => TimerInvariant(t), w, events);
  }

  // ---- What the runs mean, read off the events alone ----

  /** The clock, and for each name the route last written to the table and not taken out by a request, when it was
      written, the last activity recorded for it since, by a request or with the write itself, its last start, and
      whether it was last said to run. */
  datatype Diary = Diary(clock: int, routes: map<string, Route>, written: map<string, int>, active: map<string, int>,
                         started: map<string, int>, up: map<string, bool>)

  ghost function Note(d: Diary, e: Event): Diary {
    match e
    case AddRoute(name, r) =>
      d.(routes := d.routes[name := r], written := d.written[name := d.clock],
         active := if r.lastActivity.Some? then d.active[name := r.lastActivity.value] else d.active - {name},
         up := d.up[name := r.running])
    case RemoveRoute(name) => d.(routes := d.routes - {name})
    case Touch(name) => d.(active := d.active[name := d.clock])
    case MarkRunning(name) => d.(started := d.started[name := d.clock], up := d.up[name := true])
    case MarkStopped(name) => d.(up := d.up[name := false])
    case Tick(t) => d.(clock := d.clock + t)
    case _ => d
  }

  ghost function Noted(d: Diary, events: seq<Event>): Diary
    decreases |events|
  {
    if events == [] then d else Noted(Note(d, events[0]), events[1..])
  }

  /** The table's routes are the ones written, but for their flags and their activity. */
  ghost predicate Matches(w: World, d: Diary, name: string) {
    && d.clock == w.s.now && d.written == w.written && d.started == w.started
    && (name in w.s.table ==>
          && name in d.routes && name in d.up && (w.s.table[name].running ==> d.up[name])
          && w.s.table[name] ==
             d.routes[name].(running := w.s.table[name].running, lastActivity := w.s.table[name].lastActivity)
          && w.s.table[name].lastActivity == if name in d.active then Some(d.active[name]) else None)
  }

  lemma MatchStep(w: World, d: Diary, e: Event, name: string)
    requires Matches(w, d, name) && Enabled(w, e)
    ensures Matches(Apply(w, e), Note(d, e), name)
  {
    match e
    case AddRoute(n, r) => AddFrame(w.s, n, r);
    case RemoveRoute(n) => RemoveFrame(w.s, n);
    case RunCallback(id) => MatchCallback(w, d, id, name);
    case _ =>
  }

  lemma MatchCallback(w: World, d: Diary, id: nat, name: string)
    requires Matches(w, d, name) && id in w.s.fired
    ensures Matches(Apply(w, RunCallback(id)), d, name)
  {
    var s1 := w.s.(fired := w.s.fired - {id});
    RemoveFrame(s1, w.s.fired[id].name);
    IdleCheckFrame(s1, w.s.fired[id].name);
  }

  lemma AddFrame(s: State, name: string, r: Route)
    ensures Add(s, name, r).table == s.table[name := r] && Add(s, name, r).now == s.now
  {
    var t := Slate(s, name, r);
    assert Add(s, name, r) == OnRouteAdded(t, name, r);
    ArmFrame(t, name, r);
  }

  lemma ArmFrame(s: State, name: string, r: Route)
    ensures var t := OnRouteAdded(s, name, r); t.table == s.table && t.now == s.now
  {
  }

  lemma RemoveFrame(s: State, name: string)
    ensures Remove(s, name).table == s.table - {name} && Remove(s, name).now == s.now
  {
  }

  lemma IdleCheckFrame(s: State, name: string)
    ensures var t := RunCheckIdle(s, name);
            && t.now == s.now && t.table.Keys == s.table.Keys
            && forall n | n in s.table :: t.table[n] == s.table[n].(running := t.table[n].running)
  {
  }

  lemma {:induction false} MatchRun(w: World, d: Diary, events: seq<Event>, name: string)
    requires Matches(w, d, name) && Legal(System(), w, events)
    ensures Matches(After(System(), w, events), Noted(d, events), name)
    decreases |events|
  {
    if events != [] {
      MatchStep(w, d, events[0], name);
      MatchRun(Apply(w, events[0]), Note(d, events[0]), events[1..], name);
    }
  }

  /** Nothing has been written, touched or started yet. */
  ghost predicate Blank(w: World, d: Diary) {
    Initial(w) && d == Diary(w.s.now, map[], map[], map[], map[], map[])
  }

  /** In every run: ttlTimers holds exactly the TTL routes of the table, each with its current
      deadline; no TTL route outlives its deadline (or its write, if added late); the first run of
      its own callback removes it; and a callback, stale or not, removes a route exactly if it is the
      name's TTL callback and the route is a TTL route past its own deadline. */
  lemma TtlRoutesExpireOnTime(w: World, d0: Diary, events: seq<Event>, name: string, id: nat)
    requires Blank(w, d0) && Legal(System(), w, events)
    ensures var v, d := After(System(), w, events), Noted(d0, events);
            var s := v.s;
            && (name in s.ttlTimers <==>
                  name in s.table && name in d.routes && d.routes[name].kind == Ttl && d.routes[name].expiresAt.Some?)
            && (name in s.ttlTimers ==>
                  && name in d.written
                  && var deadline := d.routes[name].expiresAt.value;
                     var last := if deadline < d.written[name] then d.written[name] else deadline;
                     && Due(s, s.ttlTimers[name]) == last && d.clock <= last
                     && (id == s.ttlTimers[name] && id in s.fired ==> name !in Apply(v, RunCallback(id)).s.table))
            && (id in s.fired && name in s.table ==>
                  && name in d.routes
                  && (name !in Apply(v, RunCallback(id)).s.table <==>
                        && s.fired[id].callback == ExpireTtl && s.fired[id].name == name && d.routes[name].kind == Ttl
                        && d.routes[name].expiresAt.Some? && d.routes[name].expiresAt.value <= d.clock))
  {
    TimerRun(w, events);
    MatchRun(w, d0, events, name);
    var v := After(System(), w, events);
    assert NameOk(v, name);
    if id in v.s.fired && name in v.s.table {
      RemovedBy(v, id, name);
    }
  }

  /** A callback removes exactly its own name's TTL route past its deadline. */
  lemma RemovedBy(w: World, id: nat, name: string)
    requires id in w.s.fired && name in w.s.table
    ensures name !in Apply(w, RunCallback(id)).s.table <==>
              && w.s.fired[id].callback == ExpireTtl && w.s.fired[id].name == name
              && w.s.table[name].kind == Ttl && w.s.table[name].expiresAt.Some?
              && w.s.table[name].expiresAt.value <= w.s.now
  {
  }

  /** When a running idle route must have been looked at, read off the events: its timeout and a second after the
      latest of its last activity, its last start and its last table write. */
  ghost function LatestStop(d: Diary, name: string): int
    requires name in d.routes && name in d.written
  {
    var seen := if name in d.active && d.written[name] < d.active[name] then d.active[name] else d.written[name];
    var latest := if name in d.started && seen < d.started[name] then d.started[name] else seen;
    latest + d.routes[name].idleTimeout * 60_000_000_000 + 1_000_000_000
  }

  /** When it has been idle for its timeout: that long after the last activity recorded, or after its registration
      if none ever was. */
  ghost function IdleSince(d: Diary, name: string): int
    requires name in d.routes
  {
    (if name in d.active then d.active[name] else d.routes[name].registeredAt)
    + d.routes[name].idleTimeout * 60_000_000_000
  }

  /** In every run, time does not pass an idle route's timeout and a second after the latest of its last activity,
      its start and its last table write while the route still runs: by then the timers have stopped it. And a
      callback, stale or not, stops a running route exactly if it is an idle check of a managed route with a
      timeout, and that long has passed since the last activity, or since the registration if there was none. */
  lemma IdleRoutesStopInTime(w: World, d0: Diary, events: seq<Event>, name: string)
    requires Blank(w, d0) && Legal(System(), w, events)
    requires var s := After(System(), w, events).s; name in s.table && s.table[name].running
    ensures var v, d := After(System(), w, events), Noted(d0, events);
            && name in d.routes && name in d.written && name in d.up && d.up[name]
            && (d.routes[name].kind == Managed && d.routes[name].idleTimeout > 0 ==> d.clock <= LatestStop(d, name))
            && forall id | id in v.s.fired ::
                 var t := Apply(v, RunCallback(id)).s;
                 name in t.table && !t.table[name].running <==>
                   && v.s.fired[id].callback == CheckIdle && v.s.fired[id].name == name
                   && d.routes[name].kind == Managed && d.routes[name].idleTimeout > 0 && IdleSince(d, name) <= d.clock
  {
    TimerRun(w, events);
    MatchRun(w, d0, events, name);
    var v := After(System(), w, events);
    assert NameOk(v, name);
    forall id | id in v.s.fired
      ensures var t := Apply(v, RunCallback(id)).s;
              name in t.table && !t.table[name].running <==>
                && v.s.fired[id].callback == CheckIdle && v.s.fired[id].name == name
                && Noted(d0, events).routes[name].kind == Managed && Noted(d0, events).routes[name].idleTimeout > 0
                && IdleSince(Noted(d0, events), name) <= v.s.now
    {
      StoppedBy(v, Noted(d0, events), id, name);
    }
  }

  lemma StoppedBy(w: World, d: Diary, id: nat, name: string)
    requires Matches(w, d, name) && id in w.s.fired && name in w.s.table && w.s.table[name].running
    ensures var t := Apply(w, RunCallback(id)).s;
            name in t.table && !t.table[name].running <==>
              && w.s.fired[id].callback == CheckIdle && w.s.fired[id].name == name
              && d.routes[name].kind == Managed && d.routes[name].idleTimeout > 0 && IdleSince(d, name) <= w.s.now
  {
  }

  // ---- The timers do what they are for ----

  /** One more event of a run. */
  lemma Step(w: World, events: seq<Event>, e: Event) returns (v: World, longer: seq<Event>)
    requires Legal(System(), w, events) && Enabled(After(System(), w, events), e)
    ensures Legal(System(), w, longer) && longer == events + [e]
    ensures v == After(System(), w, longer) == Apply(After(System(), w, events), e)
  {
    Extend(System(), w, events, e);
    longer := events + [e];
    v := After(System(), w, longer);
  }

  /** A TTL route is served until its deadline, and gone then. */
  lemma TtlRouteExpires(w: World, name: string, r: Route) returns (events: seq<Event>)
    requires Initial(w) && r.kind == Ttl && r.registeredAt <= w.s.now && r.lastActivity.None?
    requires r.expiresAt.Some? && w.s.now <= r.expiresAt.value
    ensures events == [AddRoute(name, r), Tick(r.expiresAt.value - w.s.now)]
    ensures var done := [Fire(w.s.nextId), RunCallback(w.s.nextId)];
            var t, v := After(System(), w, events), After(System(), w, events + done);
            && Legal(System(), w, events + done) && t.s.now == r.expiresAt.value && t.s.table == map[name := r]
            && v.s.table == map[]
  {
    var id := w.s.nextId;
    var v: World;
    v, events := Step(w, [], AddRoute(name, r));
    assert v.s.pending == map[id := Timer(ExpireTtl, name, r.expiresAt.value)] && v.s.ttlTimers == map[name := id];
    v, events := Step(w, events, Tick(r.expiresAt.value - w.s.now));
    var all := events;
    v, all := Step(w, all, Fire(id));
    v, all := Step(w, all, RunCallback(id));
    assert all == events + [Fire(id), RunCallback(id)];
  }

  /** The first part of the run below: the route is started, and used while its countdown runs. */
  lemma UsedInTime(w: World, name: string, r: Route, use: int) returns (v: World, events: seq<Event>)
    requires Initial(w) && r.kind == Managed && r.idleTimeout > 0 && r.registeredAt <= w.s.now
    requires r.lastActivity.None? && !r.running && 0 <= use < r.idleTimeout * 60_000_000_000
    ensures events == [AddRoute(name, r), MarkRunning(name), Tick(use), Touch(name)]
    ensures var id, timeout := w.s.nextId, r.idleTimeout * 60_000_000_000;
            v.s == State(w.s.now + use, map[name := r.(running := true, lastActivity := Some(w.s.now + use))],
                         map[], map[name := id],
                         map[id := Timer(CheckIdle, name, w.s.now + timeout)], map[], id + 1)
    ensures Legal(System(), w, events) && v == After(System(), w, events)
  {
    var s, timeout := w.s, r.idleTimeout * 60_000_000_000;
    v, events := Step(w, [], AddRoute(name, r));
    assert v.s == State(s.now, map[name := r], map[], map[name := s.nextId],
                        map[s.nextId := Timer(CheckIdle, name, s.now + timeout)], map[], s.nextId + 1);
    v, events := Step(w, events, MarkRunning(name));
    v, events := Step(w, events, Tick(use));
    v, events := Step(w, events, Touch(name));
  }

  /** The second part: the check at the end of the countdown finds a route used since. */
  lemma UsedAtFirstCheck(w: World, name: string, r: Route, use: int) returns (v: World, events: seq<Event>)
    requires Initial(w) && r.kind == Managed && r.idleTimeout > 0 && r.registeredAt <= w.s.now
    requires r.lastActivity.None? && !r.running && 1_000_000_000 <= use < r.idleTimeout * 60_000_000_000
    ensures var id, timeout := w.s.nextId, r.idleTimeout * 60_000_000_000;
            && events == [AddRoute(name, r), MarkRunning(name), Tick(use), Touch(name), Tick(timeout - use), Fire(id),
                          RunCallback(id)]
            && v.s == State(w.s.now + timeout, map[name := r.(running := true, lastActivity := Some(w.s.now + use))],
                            map[], map[name := id + 1],
                            map[id + 1 := Timer(CheckIdle, name, w.s.now + timeout + use)], map[], id + 2)
    ensures Legal(System(), w, events) && v == After(System(), w, events)
  {
    var s, timeout := w.s, r.idleTimeout * 60_000_000_000;
    v, events := UsedInTime(w, name, r, use);
    var used := v.s.table;
    v, events := Step(w, events, Tick(timeout - use));
    v, events := Step(w, events, Fire(s.nextId));
    assert v.s == State(s.now + timeout, used, map[], map[name := s.nextId], map[],
                        map[s.nextId := Timer(CheckIdle, name, s.now + timeout)], s.nextId + 1);
    v, events := Step(w, events, RunCallback(s.nextId));
  }

  /** An idle route that is used while its countdown runs is still served when it ends, and is looked at again and
      stopped when its timeout has passed since that use. */
  lemma UsedRouteStopsLater(w: World, name: string, r: Route, use: int) returns (served: World, stopped: World,
                                                                               events: seq<Event>)
    requires Initial(w) && r.kind == Managed && r.idleTimeout > 0 && r.registeredAt <= w.s.now
    requires r.lastActivity.None? && !r.running && 1_000_000_000 <= use < r.idleTimeout * 60_000_000_000
    ensures var id, timeout := w.s.nextId, r.idleTimeout * 60_000_000_000;
            && events == [AddRoute(name, r), MarkRunning(name), Tick(use), Touch(name), Tick(timeout - use), Fire(id),
                          RunCallback(id)] + [Tick(use), Fire(id + 1), RunCallback(id + 1)]
            && served == After(System(), w, events[..7]) && stopped == After(System(), w, events)
            && Legal(System(), w, events)
            && served.s.table.Keys == stopped.s.table.Keys == {name}
            && served.s.table[name].running && served.s.now == w.s.now + timeout
            && !stopped.s.table[name].running && stopped.s.now == w.s.now + timeout + use
  {
    var id := w.s.nextId;
    var first;
    served, first := UsedAtFirstCheck(w, name, r, use);
    stopped, events := Step(w, first, Tick(use));
    stopped, events := Step(w, events, Fire(id + 1));
    assert stopped.s.fired == map[id + 1 := served.s.pending[id + 1]];
    stopped, events := Step(w, events, RunCallback(id + 1));
    assert events == first + [Tick(use), Fire(id + 1), RunCallback(id + 1)];
    assert events[..7] == first;
  }
}
