/** managedStrangerOnPort in internal/daemon/daemon.go: a probe shared by every request of a route,
    run by any number of callers, one atomic access at a time. */
module OwnerProbe {
  import opened Runs

  const INTERVAL := 3_000_000_000

  datatype Pc =
    | LoadChecked          // last := ownerCheckedUnixNano.Load()
    | Decide               // fresh by the clock? then the answer hangs on ownerForeign
    | TrySwap              // ownerChecking.CompareAndSwap(false, true)
    | LoadVerdict          // lost the race: serve the cached verdict
    | ReloadChecked        // under the guard
    | ReDecide
    | Probing              // portForeignToRoute runs
    | StoreForeign(verdict: bool)
    | StoreChecked(verdict: bool)
    | Release(answer: bool)
    | Returned(answer: bool)

  /** One call: the clock it read on entry, the timestamp it loaded last, where it is. */
  datatype Call = Call(now: int, last: int, pc: Pc)

  datatype State = State(clock: int, foreign: bool, checked: int, checking: bool, calls: map<nat, Call>)

  datatype Event = Enter(id: nat) | Step(id: nat) | Verdict(id: nat, foreign: bool) | Tick(d: nat)

  predicate Fresh(now: int, last: int) {
    last != 0 && now - last < INTERVAL
  }

  ghost predicate Enabled(s: State, e: Event) {
    match e
    case Enter(id) => id !in s.calls
    case Step(id) => id in s.calls && s.calls[id].pc != Probing && !s.calls[id].pc.Returned?
    case Verdict(id, _) => id in s.calls && s.calls[id].pc == Probing
    case Tick(_) => true
  }

  function StepCall(s: State, id: nat, c: Call): State {
    match c.pc
    case LoadChecked => s.(calls := s.calls[id := c.(last := s.checked, pc := Decide)])
    case Decide =>
      s.(calls := s.calls[id := c.(pc := if Fresh(c.now, c.last) && !s.foreign then Returned(false) else TrySwap)])
    case TrySwap =>
      if s.checking then s.(calls := s.calls[id := c.(pc := LoadVerdict)])
      else s.(checking := true, calls := s.calls[id := c.(pc := ReloadChecked)])
    case LoadVerdict => s.(calls := s.calls[id := c.(pc := Returned(s.foreign))])
    case ReloadChecked => s.(calls := s.calls[id := c.(last := s.checked, pc := ReDecide)])
    case ReDecide =>
      s.(calls := s.calls[id := c.(pc := if Fresh(c.now, c.last) && !s.foreign then Release(false) else Probing)])
    case Probing => s
    case StoreForeign(v) => s.(foreign := v, calls := s.calls[id := c.(pc := StoreChecked(v))])
    case StoreChecked(v) => s.(checked := s.clock, calls := s.calls[id := c.(pc := Release(v))])
    case Release(a) => s.(checking := false, calls := s.calls[id := c.(pc := Returned(a))])
    case Returned(_) => s
  }

  ghost function Apply(s: State, e: Event): State {
    match e
    case Enter(id) => s.(calls := s.calls[id := Call(s.clock, 0, LoadChecked)])
    case Step(id) => if id in s.calls then StepCall(s, id, s.calls[id]) else s
    case Verdict(id, v) =>
      if id in s.calls then s.(calls := s.calls[id := s.calls[id].(pc := StoreForeign(v))]) else s
    case Tick(d) => s.(clock := s.clock + d)
  }

  ghost function System(): Machine<State, Event> {
    Machine((s, e) => Enabled(s, e), (s, e) => Apply(s, e))
  }

  ghost predicate Initial(s: State) {
    s.clock > 0 && !s.foreign && s.checked == 0 && !s.checking && s.calls == map[]
  }

  predicate HoldsGuard(pc: Pc) {
    pc.ReloadChecked? || pc.ReDecide? || pc.Probing? || pc.StoreForeign? || pc.StoreChecked? || pc.Release?
  }

  ghost predicate GuardInvariant(s: State) {
    && s.clock > 0 && 0 <= s.checked <= s.clock
    && (forall i, j | i in s.calls && j in s.calls && HoldsGuard(s.calls[i].pc) && HoldsGuard(s.calls[j].pc) :: i == j)
    && (s.checking <==> exists i | i in s.calls :: HoldsGuard(s.calls[i].pc))
    && (forall i | i in s.calls :: CallOk(s, s.calls[i]))
  }

  ghost predicate CallOk(s: State, c: Call) {
    && c.now <= s.clock
    && (c.pc.ReDecide? ==> c.last == s.checked)
    && (c.pc.StoreChecked? ==> s.foreign == c.pc.verdict)
    && (c.pc.Release? && c.pc.answer ==> s.foreign)
  }

  lemma CallStep(s: State, e: Event, i: nat)
    requires GuardInvariant(s) && Enabled(s, e) && i in Apply(s, e).calls
    ensures CallOk(Apply(s, e), Apply(s, e).calls[i])
  {
    assert i in s.calls ==> CallOk(s, s.calls[i]);
    assert e.Step? ==> CallOk(s, s.calls[e.id]);
    if e.Step? && e.id != i && i in s.calls && HoldsGuard(s.calls[i].pc) {
      assert !HoldsGuard(s.calls[e.id].pc);
    }
  }

  /** Only the compare-and-swap takes the guard, and only the release gives it up. */
  lemma HolderFrame(s: State, e: Event, i: nat)
    requires Enabled(s, e) && i in Apply(s, e).calls
    ensures HoldsGuard(Apply(s, e).calls[i].pc) <==>
            || (i in s.calls && HoldsGuard(s.calls[i].pc) && !(e == Step(i) && s.calls[i].pc.Release?))
            || (e == Step(i) && s.calls[i].pc == TrySwap && !s.checking)
  {
  }

  lemma HolderStep(s: State, e: Event)
    requires GuardInvariant(s) && Enabled(s, e)
    ensures var t := Apply(s, e);
            && (forall i, j | i in t.calls && j in t.calls && HoldsGuard(t.calls[i].pc) && HoldsGuard(t.calls[j].pc) ::
                  i == j)
            && (t.checking <==> exists i | i in t.calls :: HoldsGuard(t.calls[i].pc))
  {
    var t := Apply(s, e);
    forall i | i in t.calls
      ensures HoldsGuard(t.calls[i].pc) <==>
              || (i in s.calls && HoldsGuard(s.calls[i].pc) && !(e == Step(i) && s.calls[i].pc.Release?))
              || (e == Step(i) && s.calls[i].pc == TrySwap && !s.checking)
    {
      HolderFrame(s, e, i);
    }
    if t.checking {
      if s.checking {
        var i :| i in s.calls && HoldsGuard(s.calls[i].pc);
        assert i in t.calls && HoldsGuard(t.calls[i].pc);
      } else {
        assert e.id in t.calls && HoldsGuard(t.calls[e.id].pc);
      }
    }
  }

  lemma GuardStep(s: State, e: Event)
    requires GuardInvariant(s) && Enabled(s, e)
    ensures GuardInvariant(Apply(s, e))
  {
    HolderStep(s, e);
    forall i | i in Apply(s, e).calls
      ensures CallOk(Apply(s, e), Apply(s, e).calls[i])
    {
      CallStep(s, e, i);
    }
  }

  lemma GuardRun(s: State, events: seq<Event>)
    requires Initial(s) && Legal(System(), s, events)
    ensures GuardInvariant(After(System(), s, events))
  {
    forall t, e | GuardInvariant(t) && System().enabled(t, e)
      ensures GuardInvariant(System().apply(t, e))
    {
      GuardStep(t, e);
    }
    Invariant(System(), t => GuardInvariant(t), s, events);
  }

  /** At most one probe of a route is in flight, however many requests arrive. */
  lemma OneProbeInFlight(s: State, events: seq<Event>, i: nat, j: nat)
    requires Initial(s) && Legal(System(), s, events)
    requires var t := After(System(), s, events);
             && i in t.calls && j in t.calls
             && t.calls[i].pc == t.calls[j].pc == Probing
    ensures i == j
  {
    GuardRun(s, events);
  }

  /** While the last stored verdict is healthy and was stored at T, no call that read its clock
      before T + 3s starts a probe. */
  lemma HealthyVerdictHolds(s: State, events: seq<Event>, id: nat)
    requires Initial(s) && Legal(System(), s, events)
    requires var t := After(System(), s, events);
             Enabled(t, Step(id)) && Apply(t, Step(id)).calls[id].pc == Probing
    ensures var t := After(System(), s, events);
            t.foreign || t.checked == 0 || t.calls[id].now >= t.checked + INTERVAL
  {
    GuardRun(s, events);
    var t := After(System(), s, events);
    assert CallOk(t, t.calls[id]);
  }

  /** A call answers true only while the last stored verdict is foreign. */
  lemma TrueOnlyWhenForeign(s: State, events: seq<Event>, id: nat)
    requires Initial(s) && Legal(System(), s, events)
    requires var t := After(System(), s, events);
             && Enabled(t, Step(id))
             && Apply(t, Step(id)).calls[id].pc == Returned(true)
    ensures After(System(), s, events).foreign
  {
    GuardRun(s, events);
    var t := After(System(), s, events);
    assert CallOk(t, t.calls[id]);
  }

  // ---- What a call answers ----

  /** What an observer sees of the calls: the clock each read on entering, the timestamp it loaded last, whether it
      has met a healthy verdict inside the window, the verdict its own probe brought, and the stored verdict it
      loaded after losing the swap. */
  datatype Seen = Seen(
    entered: map<nat, int>, loaded: map<nat, int>, calm: set<nat>, heard: map<nat, bool>, served: map<nat, bool>)

  datatype World = World(s: State, seen: Seen)

  ghost predicate InWindow(seen: Seen, id: nat) {
    && id in seen.entered && id in seen.loaded
    && seen.loaded[id] != 0 && seen.entered[id] < seen.loaded[id] + 3_000_000_000
  }

  ghost function Observe(w: World, e: Event): Seen {
    var s, seen := w.s, w.seen;
    match e
    case Enter(id) => seen.(entered := seen.entered[id := s.clock])
    case Verdict(id, v) => seen.(heard := seen.heard[id := v])
    case Tick(_) => seen
    case Step(id) =>
      if id !in s.calls then seen
      else
        match s.calls[id].pc
        case LoadChecked => seen.(loaded := seen.loaded[id := s.checked])
        case ReloadChecked => seen.(loaded := seen.loaded[id := s.checked])
        case LoadVerdict => seen.(served := seen.served[id := s.foreign])
        case Decide => if !s.foreign && InWindow(seen, id) then seen.(calm := seen.calm + {id}) else seen
        case ReDecide => if !s.foreign && InWindow(seen, id) then seen.(calm := seen.calm + {id}) else seen
        case _ => seen
  }

  ghost function Watched(): Machine<World, Event> {
    Machine((w: World, e: Event) => Enabled(w.s, e), (w: World, e: Event) => World(Apply(w.s, e), Observe(w, e)))
  }

  ghost predicate Fits(w: World, id: nat) {
    var seen := w.seen;
    if id !in w.s.calls then id !in seen.calm && id !in seen.heard && id !in seen.served
    else
      var c := w.s.calls[id];
      && id in seen.entered && c.now == seen.entered[id]
      && (c.pc == Decide || c.pc == ReDecide ==> id in seen.loaded && c.last == seen.loaded[id])
      && match c.pc
         case StoreForeign(v) => OwnVerdict(seen, id, v)
         case StoreChecked(v) => OwnVerdict(seen, id, v)
         case Release(a) => OwnVerdict(seen, id, a) || (Calmed(seen, id) && !a)
         case Returned(a) => OwnVerdict(seen, id, a) || OthersVerdict(seen, id, a) || (Calmed(seen, id) && !a)
         case _ => id !in seen.calm && id !in seen.heard && id !in seen.served
  }

  ghost predicate OwnVerdict(seen: Seen, id: nat, v: bool) {
    id in seen.heard && seen.heard[id] == v && id !in seen.calm && id !in seen.served
  }

  ghost predicate OthersVerdict(seen: Seen, id: nat, v: bool) {
    id in seen.served && seen.served[id] == v && id !in seen.calm && id !in seen.heard
  }

  ghost predicate Calmed(seen: Seen, id: nat) {
    id in seen.calm && id !in seen.heard && id !in seen.served
  }

  lemma FitsStep(w: World, e: Event, id: nat)
    requires Fits(w, id) && Enabled(w.s, e)
    ensures Fits(World(Apply(w.s, e), Observe(w, e)), id)
  {
  }

  /** In every run a call answers the verdict of its own probe; without one, the stored verdict it loaded after
      losing the swap; without that, false, having met a healthy verdict less than three seconds old when it
      entered. It answers true exactly in the first two cases, when the verdict is foreign. */
  lemma AnswersExactly(w: World, events: seq<Event>, id: nat, answer: bool)
    requires Initial(w.s) && w.seen == Seen(map[], map[], {}, map[], map[]) && Legal(Watched(), w, events)
    requires var s := After(Watched(), w, events).s; id in s.calls && s.calls[id].pc == Returned(answer)
    ensures var seen := After(Watched(), w, events).seen;
            && answer == (if id in seen.heard then seen.heard[id]
                          else if id in seen.served then seen.served[id] else false)
            && (id !in seen.heard && id !in seen.served <==> id in seen.calm)
  {
    forall v, e | (forall i :: Fits(v, i)) && Watched().enabled(v, e)
      ensures forall i :: Fits(Watched().apply(v, e), i)
    {
      forall i
        ensures Fits(Watched().apply(v, e), i)
      {
        FitsStep(v, e, i);
      }
    }
    Invariant(Watched(), (v: World) => forall i :: Fits(v, i), w, events);
    assert Fits(After(Watched(), w, events), id);
  }

  // ---- A call alone ----

  /** The call's next event, if its probe will find `verdict`. */
  ghost function Next(s: State, id: nat, verdict: bool): Event {
    if id !in s.calls then Enter(id) else if s.calls[id].pc == Probing then Verdict(id, verdict) else Step(id)
  }

  /** The call's own next events, at most n of them. */
  ghost function Alone(s: State, id: nat, verdict: bool, n: nat): seq<Event>
    decreases n
  {
    if n == 0 || (id in s.calls && s.calls[id].pc.Returned?) then []
    else [Next(s, id, verdict)] + Alone(Apply(s, Next(s, id, verdict)), id, verdict, n - 1)
  }

  lemma AloneStep(s: State, id: nat, verdict: bool, n: nat)
    requires n > 0 && !(id in s.calls && s.calls[id].pc.Returned?)
    ensures var e := Next(s, id, verdict);
            var rest := Alone(Apply(s, e), id, verdict, n - 1);
            && Alone(s, id, verdict, n) == [e] + rest
            && After(System(), s, Alone(s, id, verdict, n)) == After(System(), Apply(s, e), rest)
            && (Legal(System(), s, Alone(s, id, verdict, n)) <==> Enabled(s, e) && Legal(System(), Apply(s, e), rest))
  {
    var e := Next(s, id, verdict);
    var rest := Alone(Apply(s, e), id, verdict, n - 1);
    assert ([e] + rest)[1..] == rest;
  }

  /** The call has legally run alone for at most n events, to this end. */
  ghost predicate EndsAs(s: State, id: nat, verdict: bool, n: nat, t: State) {
    Legal(System(), s, Alone(s, id, verdict, n)) && After(System(), s, Alone(s, id, verdict, n)) == t
  }

  lemma Onward(s: State, id: nat, verdict: bool, n: nat, t: State)
    requires n > 0 && !(id in s.calls && s.calls[id].pc.Returned?)
    requires Enabled(s, Next(s, id, verdict)) && EndsAs(Apply(s, Next(s, id, verdict)), id, verdict, n - 1, t)
    ensures EndsAs(s, id, verdict, n, t)
  {
    AloneStep(s, id, verdict, n);
  }

  /** The state with the call returned. */
  function Answered(s: State, id: nat, last: int, answer: bool): State
    requires id in s.calls
  {
    s.(calls := s.calls[id := Call(s.calls[id].now, last, Returned(answer))])
  }

  lemma StoresAlone(s: State, id: nat, verdict: bool, n: nat)
    requires n >= 3 && id in s.calls && s.calls[id].pc == StoreForeign(verdict)
    ensures EndsAs(s, id, verdict, n, Answered(s, id, s.calls[id].last, verdict).(
                     foreign := verdict, checked := s.clock, checking := false))
  {
    var t := Answered(s, id, s.calls[id].last, verdict).(foreign := verdict, checked := s.clock, checking := false);
    var s1 := Apply(s, Step(id));
    var s2 := Apply(s1, Step(id));
    assert Apply(s2, Step(id)) == t;
    assert EndsAs(t, id, verdict, n - 3, t);
    Onward(s2, id, verdict, n - 2, t);
    Onward(s1, id, verdict, n - 1, t);
    Onward(s, id, verdict, n, t);
  }

  /** The part under the guard. */
  lemma GuardedAlone(s: State, id: nat, verdict: bool, n: nat)
    requires n >= 6 && id in s.calls && s.calls[id].pc == ReloadChecked
    requires s.checked == 0 || s.calls[id].now >= s.checked + 3_000_000_000 || s.foreign
    ensures EndsAs(s, id, verdict, n, Answered(s, id, s.checked, verdict).(
                     foreign := verdict, checked := s.clock, checking := false))
  {
    var t := Answered(s, id, s.checked, verdict).(foreign := verdict, checked := s.clock, checking := false);
    var s1 := Apply(s, Step(id));
    var s2 := Apply(s1, Step(id));
    var s3 := Apply(s2, Verdict(id, verdict));
    StoresAlone(s3, id, verdict, n - 3);
    assert EndsAs(s3, id, verdict, n - 3, t);
    Onward(s2, id, verdict, n - 2, t);
    Onward(s1, id, verdict, n - 1, t);
    Onward(s, id, verdict, n, t);
  }

  /** The part from the swap on. */
  lemma SwapAlone(s: State, id: nat, verdict: bool, n: nat)
    requires n >= 7 && id in s.calls && s.calls[id].pc == TrySwap
    requires s.checked == 0 || s.calls[id].now >= s.checked + 3_000_000_000 || s.foreign
    ensures EndsAs(s, id, verdict, n,
                   if s.checking then Answered(s, id, s.calls[id].last, s.foreign)
                   else Answered(s, id, s.checked, verdict).(foreign := verdict, checked := s.clock))
  {
    var s1 := Apply(s, Step(id));
    if s.checking {
      var t := Answered(s, id, s.calls[id].last, s.foreign);
      assert Apply(s1, Step(id)) == t && EndsAs(t, id, verdict, n - 2, t);
      Onward(s1, id, verdict, n - 1, t);
      Onward(s, id, verdict, n, t);
    } else {
      var t := Answered(s, id, s.checked, verdict).(foreign := verdict, checked := s.clock);
      GuardedAlone(s1, id, verdict, n - 1);
      assert EndsAs(s1, id, verdict, n - 1, t);
      Onward(s, id, verdict, n, t);
    }
  }

  /** Uninterrupted, a call is over after at most ten events: a healthy verdict less than three seconds old is
      answered at once; while another call probes, the stored verdict is; otherwise the call probes, stores the
      verdict and the time, gives the guard back and answers the verdict. */
  lemma CallAlone(s: State, id: nat, verdict: bool, n: nat)
    requires n >= 10 && id !in s.calls
    ensures var events := Alone(s, id, verdict, n);
            var t := After(System(), s, events);
            && Legal(System(), s, events) && id in t.calls && t.calls[id].pc.Returned?
            && t == s.(calls := s.calls[id := t.calls[id]], foreign := t.foreign, checked := t.checked)
            && var answer := t.calls[id].pc.answer;
               if s.checked != 0 && s.clock < s.checked + 3_000_000_000 && !s.foreign then
                 !answer && !t.foreign && t.checked == s.checked
               else if s.checking then answer == s.foreign == t.foreign && t.checked == s.checked
               else answer == verdict == t.foreign && t.checked == s.clock
  {
    var s1 := Apply(s, Enter(id));
    var s2 := Apply(s1, Step(id));
    var s3 := Apply(s2, Step(id));
    var t: State;
    if s.checked != 0 && s.clock < s.checked + 3_000_000_000 && !s.foreign {
      t := s3;
      assert EndsAs(s3, id, verdict, n - 3, t);
    } else {
      SwapAlone(s3, id, verdict, n - 3);
      t := if s.checking then Answered(s3, id, s3.calls[id].last, s.foreign)
           else Answered(s3, id, s.checked, verdict).(foreign := verdict, checked := s.clock);
    }
    Onward(s2, id, verdict, n - 2, t);
    Onward(s1, id, verdict, n - 1, t);
    Onward(s, id, verdict, n, t);
  }

  /** Three seconds after a healthy verdict, with no probe under way, the next call probes again. */
  lemma ProbedAgain(s: State, d: nat, id: nat, verdict: bool, n: nat)
    requires n >= 10 && id !in s.calls && !s.checking && s.clock + d >= s.checked + 3_000_000_000
    ensures var events := [Tick(d)] + Alone(Apply(s, Tick(d)), id, verdict, n);
            var t := After(System(), s, events);
            && Legal(System(), s, events) && id in t.calls && t.calls[id].pc == Returned(verdict)
            && t.foreign == verdict && t.checked == t.clock == s.clock + d
  {
    CallAlone(Apply(s, Tick(d)), id, verdict, n);
    var rest := Alone(Apply(s, Tick(d)), id, verdict, n);
    assert ([Tick(d)] + rest)[1..] == rest;
  }
}
