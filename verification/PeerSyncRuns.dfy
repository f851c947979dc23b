/** Runs of refreshes of many peers, by any number of callers. */
module PeerSyncRuns {
  import opened Runs
  import opened PeerRows
  import opened PeerSync

  /** Where one call of refreshPeerRoutes stands: it has read the tag, is waiting for the peer, has the
      response, or has new names to put on the certificate. */
  datatype Pc = Ready | Flying | Replied(resp: Response) | Reloading | Done

  datatype Call = Call(peer: Peer, sent: ETag, pc: Pc)

  /** Where one run of reloadTLSCert stands: it has still to read the names, has read them, has written the
      certificate files, which all runs share, or has loaded what the files held. */
  datatype Stage = Wanted | Named(names: set<string>) | Filed | Loaded(names: set<string>)

  /** `sources` is each peer's own list, by fingerprint; `seen` the list each last answered with; `file` and
      `covered` the peer names in the certificate files and in the certificate served. A reload has the id of
      the refresh that asked for it, or one of its own if a local route was saved. */
  datatype State = State(
    peers: seq<Peer>, sources: map<string, seq<Summary>>, states: States, file: set<string>, covered: set<string>,
    calls: map<nat, Call>, reloads: map<nat, Stage>, seen: map<string, seq<Summary>>)

  datatype Event =
    | Change(fp: string, list: seq<Summary>)
    | Enter(id: nat, peer: Peer)
    | Swap(id: nat)
    | Reply(id: nat, ok: bool)
    | Receive(id: nat)
    | BeginReload(id: nat)
    | Snapshot(id: nat)
    | WriteFiles(id: nat)
    | LoadFiles(id: nat)
    | Store(id: nat)

  ghost predicate Busy(s: State, name: string) {
    exists id | id in s.calls :: s.calls[id].peer.name == name && s.calls[id].pc != Done
  }

  ghost predicate At(s: State, id: nat, pc: Pc) {
    id in s.calls && s.calls[id].pc == pc
  }

  ghost predicate Enabled(s: State, e: Event) {
    match e
    case Change(_, _) => true
    case Enter(id, p) => id !in s.calls && id !in s.reloads && p in s.peers
    case Swap(id) => At(s, id, Ready) && s.calls[id].peer.name in s.states
    case Reply(id, ok) => At(s, id, Flying) && (ok ==> s.calls[id].peer.fingerprint in s.sources)
    case Receive(id) => id in s.calls && s.calls[id].pc.Replied? && s.calls[id].peer.name in s.states
    case BeginReload(id) => id !in s.calls && id !in s.reloads
    case Snapshot(id) => id in s.reloads && s.reloads[id] == Wanted
    case WriteFiles(id) => id in s.reloads && s.reloads[id].Named?
    case LoadFiles(id) => id in s.reloads && s.reloads[id] == Filed
    case Store(id) =>
      && id in s.reloads && s.reloads[id].Loaded?
      && (id in s.calls ==> s.calls[id].pc == Reloading && s.calls[id].peer.name in s.states)
  }

  /** Refreshes of one peer do not overlap. */
  ghost predicate Sequential(s: State, e: Event) {
    e.Enter? ==> !Busy(s, e.peer.name)
  }

  function Moved(s: State, id: nat, pc: Pc): State
    requires id in s.calls
  {
    s.(calls := s.calls[id := s.calls[id].(pc := pc)])
  }

  function SetState(s: State, name: string, st: PeerState): State {
    s.(states := s.states[name := st])
  }

  /** Every cached name: what tlsHostnames reads, as far as peers go. */
  ghost function CachedNames(s: State): set<string> {
    NamesOf(Rows(s.peers, CacheOf(s.states)))
  }

  ghost function ReceiveStep(s: State, id: nat): State
    requires Enabled(s, Receive(id))
  {
    var c := s.calls[id];
    var st, resp := s.states[c.peer.name], c.pc.resp;
    var st' := Received(st, c.sent, resp);
    var s' := if resp.Answer? then s.(seen := s.seen[c.peer.fingerprint := resp.list]) else s;
    if Renames(st, c.sent, resp) then
      Moved(SetState(s', c.peer.name, st'), id, Reloading).(reloads := s.reloads[id := Wanted])
    else
      Moved(SetState(s', c.peer.name, st'.(refreshing := false)), id, Done)
  }

  ghost function Apply(s: State, e: Event): State {
    if !Enabled(s, e) then s
    else
      match e
      case Change(fp, list) => s.(sources := s.sources[fp := list])
      case Enter(id, p) =>
        var states := Warm(s.states, p.name);
        s.(states := states, calls := s.calls[id := Call(p, states[p.name].etag, Ready)])
      case Swap(id) =>
        var name := s.calls[id].peer.name;
        if s.states[name].refreshing then Moved(s, id, Done)
        else Moved(SetState(s, name, s.states[name].(refreshing := true)), id, Flying)
      case Reply(id, ok) =>
        Moved(s, id, Replied(if ok then Answer(s.sources[s.calls[id].peer.fingerprint]) else Failed))
      case Receive(id) => ReceiveStep(s, id)
      case BeginReload(id) => s.(reloads := s.reloads[id := Wanted])
      case Snapshot(id) => s.(reloads := s.reloads[id := Named(CachedNames(s))])
      case WriteFiles(id) => s.(file := s.reloads[id].names, reloads := s.reloads[id := Filed])
      case LoadFiles(id) => s.(reloads := s.reloads[id := Loaded(s.file)])
      case Store(id) =>
        var s' := s.(covered := s.reloads[id].names, reloads := s.reloads - {id});
        if id !in s.calls then s'
        else
          var name := s.calls[id].peer.name;
          Moved(SetState(s', name, s.states[name].(refreshing := false)), id, Done)
  }

  /** All interleavings, or only those where refreshes of one peer do not overlap. */
  ghost function System(sequential: bool): Machine<State, Event> {
    Machine((s, e) => Enabled(s, e) && (sequential ==> Sequential(s, e)), (s, e) => Apply(s, e))
  }

  ghost predicate Initial(s: State) {
    s.states == map[] && s.calls == map[] && s.reloads == map[] && s.seen == map[]
  }

  ghost predicate DistinctPeers(peers: seq<Peer>) {
    forall p, q | p in peers && q in peers && (p.name == q.name || p.fingerprint == q.fingerprint) :: p == q
  }

  // ---- The cache agrees with its source ----

  function RoutesAt(s: State, n: string): seq<Summary> {
    if n in s.states then s.states[n].routes else []
  }

  function TagAt(s: State, n: string): ETag {
    if n in s.states then s.states[n].etag else NoTag
  }

  /** Only a received response touches the cached list and its tag, and only those of its peer. */
  lemma Frame(s: State, e: Event, n: string)
    requires Enabled(s, e)
    ensures var t := Apply(s, e);
            && t.peers == s.peers && (n in s.states ==> n in t.states)
            && (!(e.Receive? && s.calls[e.id].peer.name == n) ==>
               RoutesAt(t, n) == RoutesAt(s, n) && TagAt(t, n) == TagAt(s, n))
            && (!e.Store? ==> t.covered == s.covered) && (!e.Receive? ==> t.seen == s.seen)
            && (!e.WriteFiles? ==> t.file == s.file)
  {
    match e
    case Change(_, _) =>
    case Enter(_, _) =>
    case Swap(_) =>
    case Reply(_, _) =>
    case Receive(_) =>
    case BeginReload(_) =>
    case Snapshot(_) =>
    case WriteFiles(_) =>
    case LoadFiles(_) =>
    case Store(_) =>
  }

  lemma ReceiveFrame(s: State, id: nat)
    requires Enabled(s, Receive(id))
    ensures var t, c := Apply(s, Receive(id)), s.calls[id];
            var st := Received(s.states[c.peer.name], c.sent, c.pc.resp);
            && c.peer.name in t.states && t.states[c.peer.name].routes == st.routes
            && t.states[c.peer.name].etag == st.etag
            && t.seen == (if c.pc.resp.Answer? then s.seen[c.peer.fingerprint := c.pc.resp.list] else s.seen)
            && t.calls ==
               s.calls[id := c.(pc := if Renames(s.states[c.peer.name], c.sent, c.pc.resp) then Reloading else Done)]
            && t.reloads ==
               if Renames(s.states[c.peer.name], c.sent, c.pc.resp) then s.reloads[id := Wanted] else s.reloads
  {
  }

  /** A call keeps its peer and the tag it sent, and moves only by its own events. */
  ghost predicate CallMoves(s: State, e: Event, id: nat)
    requires id in Apply(s, e).calls
  {
    var c := Apply(s, e).calls[id];
    if id in s.calls then
      && c.peer == s.calls[id].peer && c.sent == s.calls[id].sent
      && (c.pc == s.calls[id].pc || e == Swap(id) || (e.Reply? && e.id == id) || e == Receive(id) || e == Store(id))
      && (s.calls[id].pc == Done ==> c.pc == Done)
      && (c.pc == Ready || c.pc == Flying || c.pc.Replied? ==>
            s.calls[id].pc == Ready || s.calls[id].pc == Flying || s.calls[id].pc.Replied?)
    else e == Enter(id, c.peer) && c.sent == TagAt(s, c.peer.name) && c.pc == Ready
  }

  lemma FetchMoves(s: State, e: Event, id: nat)
    requires Enabled(s, e) && id in Apply(s, e).calls
    requires e.Change? || e.Enter? || e.Swap? || e.Reply? || e.Receive?
    ensures CallMoves(s, e, id)
  {
    match e
    case Change(_, _) =>
    case Enter(_, _) =>
    case Swap(_) =>
    case Reply(_, _) =>
    case Receive(_) =>
  }

  lemma ReloadMoves(s: State, e: Event, id: nat)
    requires Enabled(s, e) && id in Apply(s, e).calls
    requires !(e.Change? || e.Enter? || e.Swap? || e.Reply? || e.Receive?)
    ensures CallMoves(s, e, id)
  {
    match e
    case BeginReload(_) =>
    case Snapshot(_) =>
    case WriteFiles(_) =>
    case LoadFiles(_) =>
    case Store(_) =>
  }

  lemma CallFrame(s: State, e: Event, id: nat)
    requires Enabled(s, e) && id in Apply(s, e).calls
    ensures CallMoves(s, e, id)
  {
    if e.Change? || e.Enter? || e.Swap? || e.Reply? || e.Receive? {
      FetchMoves(s, e, id);
    } else {
      ReloadMoves(s, e, id);
    }
  }

  /** What the cache holds for a peer: the last list it answered with, nothing before that. */
  ghost predicate Agrees(s: State, p: Peer) {
    RoutesAt(s, p.name) == if p.fingerprint in s.seen then s.seen[p.fingerprint] else []
  }

  /** The tag belongs to the cached list. */
  ghost predicate Tagged(st: PeerState) {
    if st.etag == NoTag then st.routes == [] else st.etag == Hash(st.routes)
  }

  ghost predicate CallOk(s: State, c: Call) {
    && c.peer in s.peers && c.peer.name in s.states
    && (c.pc == Ready || c.pc == Flying || c.pc.Replied? ==> c.sent == s.states[c.peer.name].etag)
  }

  ghost predicate CacheInvariant(s: State) {
    && DistinctPeers(s.peers)
    && (forall p | p in s.peers :: Agrees(s, p))
    && (forall n | n in s.states :: Tagged(s.states[n]))
    && (forall id | id in s.calls :: CallOk(s, s.calls[id]))
    && OneBusyEach(s)
  }

  ghost predicate OneBusyEach(s: State) {
    forall i, j | i in s.calls && j in s.calls && s.calls[i].peer.name == s.calls[j].peer.name
                  && s.calls[i].pc != Done && s.calls[j].pc != Done :: i == j
  }

  lemma AgreesStep(s: State, e: Event, p: Peer)
    requires CacheInvariant(s) && Enabled(s, e) && p in s.peers
    ensures Agrees(Apply(s, e), p)
  {
    assert Agrees(s, p);
    Frame(s, e, p.name);
    if e.Receive? {
      var c := s.calls[e.id];
      ReceiveFrame(s, e.id);
      assert CallOk(s, c) && Tagged(s.states[c.peer.name]);
      assert c.peer != p ==> c.peer.name != p.name && c.peer.fingerprint != p.fingerprint;
    }
  }

  lemma TaggedStep(s: State, e: Event, n: string)
    requires CacheInvariant(s) && Enabled(s, e) && n in Apply(s, e).states
    ensures Tagged(Apply(s, e).states[n])
  {
    assert n in s.states ==> Tagged(s.states[n]);
    Frame(s, e, n);
    if e.Receive? {
      ReceiveFrame(s, e.id);
    }
  }

  lemma CallStep(s: State, e: Event, id: nat)
    requires CacheInvariant(s) && Enabled(s, e) && Sequential(s, e) && id in Apply(s, e).calls
    ensures CallOk(Apply(s, e), Apply(s, e).calls[id])
  {
    assert id in s.calls ==> CallOk(s, s.calls[id]);
    CallFrame(s, e, id);
    Frame(s, e, Apply(s, e).calls[id].peer.name);
    if e.Receive? {
      ReceiveFrame(s, e.id);
      assert OneBusyEach(s);
    }
  }

  lemma BusyStep(s: State, e: Event)
    requires OneBusyEach(s) && Enabled(s, e) && Sequential(s, e)
    ensures OneBusyEach(Apply(s, e))
  {
    var t := Apply(s, e);
    forall i, j | i in t.calls && j in t.calls && t.calls[i].peer.name == t.calls[j].peer.name
                  && t.calls[i].pc != Done && t.calls[j].pc != Done
      ensures i == j
    {
      CallFrame(s, e, i);
      CallFrame(s, e, j);
    }
  }

  lemma CacheStep(s: State, e: Event)
    requires CacheInvariant(s) && Enabled(s, e) && Sequential(s, e)
    ensures CacheInvariant(Apply(s, e))
  {
    var t := Apply(s, e);
    assert t.peers == s.peers;
    BusyStep(s, e);
    forall p | p in t.peers ensures Agrees(t, p) { AgreesStep(s, e, p); }
    forall n | n in t.states ensures Tagged(t.states[n]) { TaggedStep(s, e, n); }
    forall id | id in t.calls ensures CallOk(t, t.calls[id]) { CallStep(s, e, id); }
  }

  /** If peers have distinct names and refreshes of one peer do not overlap, then after every run the
      cache holds, for each peer, exactly the list that peer had when it last answered -- with 200 or with
      304 -- and failures change nothing. */
  lemma CacheAgreesWithItsSource(s: State, events: seq<Event>, p: Peer)
    requires Initial(s) && DistinctPeers(s.peers) && p in s.peers && Legal(System(true), s, events)
    ensures Agrees(After(System(true), s, events), p)
  {
    var m := System(true);
    var inv := (t: State) => CacheInvariant(t) && t.peers == s.peers;
    forall t, e | inv(t) && m.enabled(t, e)
      ensures inv(m.apply(t, e))
    {
      CacheStep(t, e);
    }
    Invariant(m, inv, s, events);
  }

  // ---- Single flight ----

  /** The call has taken the guard of its peer's name and not given it back. */
  ghost predicate Holds(s: State, id: nat, name: string) {
    && id in s.calls && s.calls[id].peer.name == name
    && (s.calls[id].pc == Flying || s.calls[id].pc.Replied? || s.calls[id].pc == Reloading)
  }

  /** One name's guard: held by one call while it is set, and by none otherwise. */
  ghost predicate GuardOk(s: State, name: string) {
    && (forall i, j | Holds(s, i, name) && Holds(s, j, name) :: i == j)
    && ((exists i :: Holds(s, i, name)) <==> name in s.states && s.states[name].refreshing)
  }

  lemma GuardStep(s: State, e: Event, name: string)
    requires GuardOk(s, name) && Enabled(s, e)
    ensures GuardOk(Apply(s, e), name)
  {
    match e
    case Change(_, _) => SameHolders(s, e, name);
    case Enter(_, _) => SameHolders(s, e, name);
    case Swap(id) => SwapStep(s, id, name);
    case Reply(_, _) => SameHolders(s, e, name);
    case Receive(id) => ReceiveKeepsGuard(s, id, name);
    case Store(id) =>
      if id in s.calls {
        StoreKeepsGuard(s, id, name);
      } else {
        SameHolders(s, e, name);
      }
    case _ => SameHolders(s, e, name);
  }

  lemma SameHolders(s: State, e: Event, name: string)
    requires GuardOk(s, name) && Enabled(s, e)
    requires !e.Swap? && !e.Receive? && (e.Store? ==> e.id !in s.calls)
    ensures GuardOk(Apply(s, e), name)
  {
    var t := Apply(s, e);
    forall i
      ensures Holds(t, i, name) <==> Holds(s, i, name)
    {
    }
    assert name in t.states && t.states[name].refreshing <==> name in s.states && s.states[name].refreshing;
  }

  lemma SwapStep(s: State, id: nat, name: string)
    requires GuardOk(s, name) && Enabled(s, Swap(id))
    ensures GuardOk(Apply(s, Swap(id)), name)
  {
    var t := Apply(s, Swap(id));
    assert forall i | i != id :: Holds(t, i, name) <==> Holds(s, i, name);
    assert !Holds(s, id, name);
    if s.calls[id].peer.name == name && !s.states[name].refreshing {
      assert Holds(t, id, name);
    } else {
      assert !Holds(t, id, name);
    }
  }

  lemma ReceiveKeepsGuard(s: State, id: nat, name: string)
    requires GuardOk(s, name) && Enabled(s, Receive(id))
    ensures GuardOk(Apply(s, Receive(id)), name)
  {
    var t := Apply(s, Receive(id));
    ReceiveFrame(s, id);
    assert forall i | i != id :: Holds(t, i, name) <==> Holds(s, i, name);
    if s.calls[id].peer.name == name {
      assert Holds(s, id, name);
      assert Holds(t, id, name) <==> t.states[name].refreshing;
    } else {
      assert !Holds(t, id, name) && !Holds(s, id, name);
    }
  }

  lemma StoreKeepsGuard(s: State, id: nat, name: string)
    requires GuardOk(s, name) && Enabled(s, Store(id)) && id in s.calls
    ensures GuardOk(Apply(s, Store(id)), name)
  {
    var t := Apply(s, Store(id));
    assert forall i | i != id :: Holds(t, i, name) <==> Holds(s, i, name);
    assert !Holds(t, id, name);
    if s.calls[id].peer.name == name {
      assert Holds(s, id, name);
    }
  }

  /** In every interleaving at most one refresh of a name is between taking its guard and giving it back, and the guard
      is set exactly while there is one: it is never lost. */
  lemma OneRefreshInFlight(s: State, events: seq<Event>, name: string, i: nat, j: nat)
    requires Initial(s) && Legal(System(false), s, events)
    ensures var t := After(System(false), s, events);
            && (Holds(t, i, name) && Holds(t, j, name) ==> i == j)
            && ((exists k :: Holds(t, k, name)) <==> name in t.states && t.states[name].refreshing)
  {
    var m := System(false);
    forall t, e | GuardOk(t, name) && m.enabled(t, e)
      ensures GuardOk(m.apply(t, e), name)
    {
      GuardStep(t, e, name);
    }
    Invariant(m, t => GuardOk(t, name), s, events);
  }

  // ---- Exactly when a receipt keeps the agreement ----

  /** What holds in every interleaving, overlapping refreshes included. */
  ghost predicate OpenInvariant(s: State) {
    && (forall n | n in s.states :: Tagged(s.states[n]))
    && (forall id | id in s.calls :: OpenCallOk(s, s.calls[id]))
  }

  ghost predicate OpenCallOk(s: State, c: Call) {
    c.peer in s.peers && c.peer.name in s.states && (c.sent != NoTag ==> s.states[c.peer.name].etag != NoTag)
  }

  lemma OpenStep(s: State, e: Event)
    requires OpenInvariant(s) && Enabled(s, e)
    ensures OpenInvariant(Apply(s, e))
  {
    var t := Apply(s, e);
    forall n | n in t.states
      ensures Tagged(t.states[n])
    {
      assert n in s.states ==> Tagged(s.states[n]);
      Frame(s, e, n);
      if e.Receive? {
        ReceiveFrame(s, e.id);
      }
    }
    forall id | id in t.calls
      ensures OpenCallOk(t, t.calls[id])
    {
      assert id in s.calls ==> OpenCallOk(s, s.calls[id]);
      CallFrame(s, e, id);
      Frame(s, e, t.calls[id].peer.name);
      if e.Receive? {
        ReceiveFrame(s, e.id);
      }
    }
  }

  /** A 304 to a tag that is no longer the cached one. */
  ghost predicate StaleReceipt(s: State, e: Event) {
    e.Receive? && Enabled(s, e) &&
    var c := s.calls[e.id];
    NotModified(c.sent, c.pc.resp) && s.states[c.peer.name].etag != c.sent
  }

  /** In every interleaving, for a peer that shares neither name nor fingerprint: receiving an answer makes the
      cache agree with what the peer has just answered, unless it is a 304 to a tag that is no longer the
      cached one -- and then it never does; a failure, and every other event, leaves agreement as it was. */
  lemma ReceiptAgreesExactly(s0: State, run: seq<Event>, e: Event, p: Peer)
    requires Initial(s0) && DistinctPeers(s0.peers) && p in s0.peers && Legal(System(false), s0, run)
    requires Enabled(After(System(false), s0, run), e)
    ensures var s := After(System(false), s0, run);
            Agrees(Apply(s, e), p) <==>
              if e.Receive? && s.calls[e.id].peer == p && s.calls[e.id].pc.resp.Answer? then !StaleReceipt(s, e)
              else Agrees(s, p)
  {
    OpenRun(s0, run);
    var s := After(System(false), s0, run);
    Frame(s, e, p.name);
    if e.Receive? {
      var c := s.calls[e.id];
      ReceiveFrame(s, e.id);
      assert OpenCallOk(s, c) && Tagged(s.states[c.peer.name]);
      assert c.peer != p ==> c.peer.name != p.name && c.peer.fingerprint != p.fingerprint;
    }
  }

  lemma OpenRun(s0: State, run: seq<Event>)
    requires Initial(s0) && Legal(System(false), s0, run)
    ensures OpenInvariant(After(System(false), s0, run)) && After(System(false), s0, run).peers == s0.peers
  {
    var m := System(false);
    var inv := (t: State) => OpenInvariant(t) && t.peers == s0.peers;
    forall t, e | inv(t) && m.enabled(t, e)
      ensures inv(m.apply(t, e))
    {
      OpenStep(t, e);
      Frame(t, e, "");
    }
    Invariant(m, inv, s0, run);
  }

  /** Any interleaving in which no receipt is stale. */
  ghost function FreshSystem(): Machine<State, Event> {
    Machine((s, e) => Enabled(s, e) && !StaleReceipt(s, e), (s, e) => Apply(s, e))
  }

  /** So refreshes of one peer may overlap at will: while no receipt is stale, the cache agrees. */
  lemma CacheAgreesUnlessStale(s0: State, run: seq<Event>, p: Peer)
    requires Initial(s0) && DistinctPeers(s0.peers) && p in s0.peers && Legal(FreshSystem(), s0, run)
    ensures Agrees(After(FreshSystem(), s0, run), p)
  {
    var m := FreshSystem();
    var inv := (t: State) => OpenInvariant(t) && t.peers == s0.peers && Agrees(t, p);
    forall t, e | inv(t) && m.enabled(t, e)
      ensures inv(m.apply(t, e))
    {
      OpenStep(t, e);
      Frame(t, e, p.name);
      if e.Receive? {
        var c := t.calls[e.id];
        ReceiveFrame(t, e.id);
        assert OpenCallOk(t, c) && Tagged(t.states[c.peer.name]);
        assert c.peer != p ==> c.peer.name != p.name && c.peer.fingerprint != p.fingerprint;
      }
    }
    Invariant(m, inv, s0, run);
  }

  // ---- The certificate covers the cache ----

  lemma {:induction false} NamesUpTo(peers: seq<Peer>, cache: Cache, n: nat, name: string)
    requires n <= |peers|
    ensures name in NamesOf(RowsUpTo(peers, cache, n)) <==>
            exists i | 0 <= i < n :: name in SummaryNames(Cached(cache, peers[i]))
  {
    if n > 0 {
      var p, list := peers[n - 1], Cached(cache, peers[n - 1]);
      var mine := RowsOf(p, list);
      NamesUpTo(peers, cache, n - 1, name);
      assert name in NamesOf(mine) <==> name in SummaryNames(list) by {
        assert forall i | 0 <= i < |list| :: mine[i].summary == list[i];
      }
      NamesOfConcat(RowsUpTo(peers, cache, n - 1), mine, name);
    }
  }

  lemma NamesOfRows(peers: seq<Peer>, cache: Cache, name: string)
    ensures name in NamesOf(Rows(peers, cache)) <==> exists p | p in peers :: name in SummaryNames(Cached(cache, p))
  {
    NamesUpTo(peers, cache, |peers|, name);
    if p :| p in peers && name in SummaryNames(Cached(cache, p)) {
      var i :| 0 <= i < |peers| && peers[i] == p;
    }
  }

  lemma NamesOfConcat(a: seq<Row>, b: seq<Row>, name: string)
    ensures name in NamesOf(a + b) <==> name in NamesOf(a) || name in NamesOf(b)
  {
    var c := a + b;
    assert forall i | 0 <= i < |a| :: c[i] == a[i];
    assert forall i | 0 <= i < |b| :: c[|a| + i] == b[i];
    if name in NamesOf(c) {
      var i :| 0 <= i < |c| && c[i].summary.name == name;
      if i >= |a| {
        assert b[i - |a|].summary.name == name;
      }
    }
  }

  /** A reload under way that will bring the name, as things stand. */
  ghost predicate Brings(s: State, id: nat, name: string) {
    && id in s.reloads
    && match s.reloads[id]
       case Wanted => true
       case Named(names) => name in names
       case Filed => name in s.file
       case Loaded(names) => name in names
  }

  ghost predicate Promised(s: State, name: string) {
    exists id :: Brings(s, id, name)
  }

  /** Every cached name is on the certificate, or on its way there. */
  ghost predicate Provided(s: State) {
    forall name | name in CachedNames(s) :: name in s.covered || Promised(s, name)
  }

  /** No reload is under way. */
  ghost predicate Settled(s: State) {
    s.reloads == map[]
  }

  ghost predicate IsReload(e: Event) {
    e.Snapshot? || e.WriteFiles? || e.LoadFiles? || e.Store?
  }

  /** A reload writes or stores names read before a now-cached name arrived, and nothing else still brings that
      name: the files are lost to a run that had yet to load them, or the certificate goes back. */
  ghost predicate Overtaken(s: State, e: Event) {
    || (e.WriteFiles? && Enabled(s, e)
        && exists name | name in CachedNames(s) :: name !in s.reloads[e.id].names && name !in s.covered
              && !exists id :: id != e.id && Brings(s, id, name) && s.reloads[id] != Filed)
    || (e.Store? && Enabled(s, e)
        && exists name | name in CachedNames(s) :: name !in s.reloads[e.id].names
              && !exists id :: id != e.id && Brings(s, id, name))
  }

  /** What the steps of a reload do to one name. */
  lemma ReloadFrame(s: State, e: Event)
    requires Enabled(s, e) && IsReload(e)
    ensures var t := Apply(s, e);
            && CachedNames(t) == CachedNames(s) && t.reloads - {e.id} == s.reloads - {e.id}
            && (!e.Store? ==> t.covered == s.covered) && (!e.WriteFiles? ==> t.file == s.file)
  {
    var t := Apply(s, e);
    assert t.reloads - {e.id} == s.reloads - {e.id};
    if e.Store? && e.id in s.calls {
      GuardIsNotCached(s.states, s.calls[e.id].peer.name, false);
    }
  }

  lemma OthersBring(s: State, e: Event, id: nat, name: string)
    requires Enabled(s, e) && IsReload(e) && id != e.id
    ensures (e.WriteFiles? && id in s.reloads && s.reloads[id] == Filed)
            || (Brings(Apply(s, e), id, name) <==> Brings(s, id, name))
  {
    ReloadFrame(s, e);
    var t := Apply(s, e);
    assert id in t.reloads <==> id in t.reloads - {e.id};
    assert id in s.reloads <==> id in s.reloads - {e.id};
    assert id in s.reloads ==> (t.reloads - {e.id})[id] == (s.reloads - {e.id})[id];
  }

  lemma ProvidedName(s: State, e: Event, name: string)
    requires Enabled(s, e) && IsReload(e) && name in CachedNames(s) && (name in s.covered || Promised(s, name))
    ensures var t := Apply(s, e);
            name in t.covered || Promised(t, name) <==>
            !((e.WriteFiles? && name !in s.reloads[e.id].names && name !in s.covered
               && !exists id :: id != e.id && Brings(s, id, name) && s.reloads[id] != Filed)
              || (e.Store? && name !in s.reloads[e.id].names && !exists id :: id != e.id && Brings(s, id, name)))
  {
    var t := Apply(s, e);
    ReloadFrame(s, e);
    forall id | id != e.id
      ensures (e.WriteFiles? && id in s.reloads && s.reloads[id] == Filed)
              || (Brings(t, id, name) <==> Brings(s, id, name))
    {
      OthersBring(s, e, id, name);
    }
    match e
    case Snapshot(id) =>
      assert Brings(t, id, name);
    case LoadFiles(id) =>
      assert Brings(t, id, name) <==> Brings(s, id, name);
    case WriteFiles(id) =>
      WriteBrings(s, id, name);
    case Store(id) =>
      assert !Brings(t, id, name);
  }

  lemma WriteBrings(s: State, id: nat, name: string)
    requires Enabled(s, WriteFiles(id))
    ensures var t := Apply(s, WriteFiles(id));
            && (Brings(t, id, name) <==> name in s.reloads[id].names)
            && forall i | i != id && i in s.reloads && s.reloads[i] == Filed ::
                 Brings(t, i, name) <==> name in s.reloads[id].names
  {
  }

  /** In every state where each cached name is provided for, a step of a reload keeps that so exactly unless it
      is overtaken; and no other event ever breaks it. */
  lemma ProvidedExactly(s: State, e: Event)
    requires OpenInvariant(s) && CallsReload(s) && Provided(s) && Enabled(s, e)
    ensures Provided(Apply(s, e)) <==> !Overtaken(s, e)
  {
    var t := Apply(s, e);
    if IsReload(e) {
      ReloadFrame(s, e);
      forall name | name in CachedNames(s)
        ensures name in t.covered || Promised(t, name) <==>
                !((e.WriteFiles? && name !in s.reloads[e.id].names && name !in s.covered
                   && !exists id :: id != e.id && Brings(s, id, name) && s.reloads[id] != Filed)
                  || (e.Store? && name !in s.reloads[e.id].names && !exists id :: id != e.id && Brings(s, id, name)))
      {
        ProvidedName(s, e, name);
      }
    } else {
      OthersProvide(s, e);
    }
  }

  /** A refresh that waits for a reload has one. */
  ghost predicate CallsReload(s: State) {
    forall id | id in s.calls && s.calls[id].pc != Reloading :: id !in s.reloads
  }

  lemma CallsReloadStep(s: State, e: Event)
    requires CallsReload(s) && Enabled(s, e)
    ensures CallsReload(Apply(s, e))
  {
    if e.Receive? {
      ReceiveFrame(s, e.id);
    }
  }

  lemma OthersProvide(s: State, e: Event)
    requires OpenInvariant(s) && CallsReload(s) && Provided(s) && Enabled(s, e) && !IsReload(e)
    ensures Provided(Apply(s, e))
  {
    var t := Apply(s, e);
    Frame(s, e, "");
    if e.Receive? {
      ReceiveFrame(s, e.id);
    }
    forall name | name in CachedNames(t)
      ensures name in t.covered || Promised(t, name)
    {
      if e.BeginReload? || (e.Receive? && t.calls[e.id].pc == Reloading) {
        assert Brings(t, e.id, name);
      } else {
        NoNewNames(s, e, name);
        assert name in s.covered || Promised(s, name);
        if id :| Brings(s, id, name) {
          assert Brings(t, id, name);
        }
      }
    }
  }

  lemma NoNewNames(s: State, e: Event, name: string)
    requires OpenInvariant(s) && Enabled(s, e) && !IsReload(e) && name in CachedNames(Apply(s, e))
    requires e.Receive? ==> Apply(s, e).calls[e.id].pc != Reloading
    ensures name in CachedNames(s)
  {
    var t := Apply(s, e);
    NamesOfRows(t.peers, CacheOf(t.states), name);
    var p :| p in t.peers && name in SummaryNames(Cached(CacheOf(t.states), p));
    assert RoutesAt(t, p.name) == Cached(CacheOf(t.states), p) && RoutesAt(s, p.name) == Cached(CacheOf(s.states), p);
    Frame(s, e, p.name);
    if e.Receive? {
      ReceiveFrame(s, e.id);
    }
    assert name in SummaryNames(RoutesAt(s, p.name));
    NamesOfRows(s.peers, CacheOf(s.states), name);
  }

  /** Every interleaving in which no reload is overtaken. */
  ghost function OrderlySystem(): Machine<State, Event> {
    Machine((s, e) => Enabled(s, e) && !Overtaken(s, e), (s, e) => Apply(s, e))
  }

  ghost predicate CoverInvariant(s: State) {
    var open, calls, provided := OpenInvariant(s), CallsReload(s), Provided(s);
    open && calls && provided
  }

  lemma OrderlyRun(s0: State, run: seq<Event>)
    requires Initial(s0) && Legal(OrderlySystem(), s0, run)
    ensures CoverInvariant(After(OrderlySystem(), s0, run))
  {
    assert CachedNames(s0) == {} by {
      forall name
        ensures name !in CachedNames(s0)
      {
        NamesOfRows(s0.peers, CacheOf(s0.states), name);
      }
    }
    forall t, e | CoverInvariant(t) && OrderlySystem().enabled(t, e)
      ensures CoverInvariant(OrderlySystem().apply(t, e))
    {
      OpenStep(t, e);
      CallsReloadStep(t, e);
      ProvidedExactly(t, e);
    }
    Invariant(OrderlySystem(), t => CoverInvariant(t), s0, run);
  }

  /** However refreshes and reloads interleave, and whether or not peers or names repeat: while no reload is
      overtaken, the certificate covers every cached name whenever no reload is under way. */
  lemma CertificateCoversTheCache(s0: State, run: seq<Event>)
    requires Initial(s0) && Legal(OrderlySystem(), s0, run) && Settled(After(OrderlySystem(), s0, run))
    ensures var s := After(OrderlySystem(), s0, run); CachedNames(s) <= s.covered
  {
    OrderlyRun(s0, run);
    var s := After(OrderlySystem(), s0, run);
    assert forall name :: !Promised(s, name);
  }

  /** A name that is neither covered nor on its way. */
  ghost predicate Lost(s: State, name: string) {
    name in CachedNames(s) && name !in s.covered && !Promised(s, name)
  }

  lemma LostStaysLost(s: State, e: Event, name: string)
    requires Enabled(s, e) && IsReload(e) && Lost(s, name)
    ensures Lost(Apply(s, e), name)
  {
    var t := Apply(s, e);
    ReloadFrame(s, e);
    assert !Brings(s, e.id, name);
    forall id
      ensures !Brings(t, id, name)
    {
      if id != e.id {
        OthersBring(s, e, id, name);
        assert !Brings(s, id, name);
      }
      if e.WriteFiles? {
        WriteBrings(s, e.id, name);
      }
    }
  }

  lemma {:induction false} LostForGood(s: State, more: seq<Event>, name: string)
    requires Lost(s, name) && Legal(System(false), s, more) && forall i | 0 <= i < |more| :: IsReload(more[i])
    ensures Lost(After(System(false), s, more), name)
    decreases |more|
  {
    if more != [] {
      LostStaysLost(s, more[0], name);
      assert forall i | 0 <= i < |more[1..]| :: more[1..][i] == more[i + 1];
      LostForGood(Apply(s, more[0]), more[1..], name);
    }
  }

  /** Once a reload is overtaken, the reloads under way, all succeeding, leave a cached name uncovered. */
  lemma OvertakenLeavesUncovered(s0: State, run: seq<Event>, e: Event, more: seq<Event>)
    requires Initial(s0) && Legal(OrderlySystem(), s0, run) && Overtaken(After(OrderlySystem(), s0, run), e)
    requires Legal(System(false), Apply(After(OrderlySystem(), s0, run), e), more)
    requires forall i | 0 <= i < |more| :: IsReload(more[i])
    ensures var t := After(System(false), Apply(After(OrderlySystem(), s0, run), e), more);
            !(CachedNames(t) <= t.covered)
  {
    OrderlyRun(s0, run);
    var s := After(OrderlySystem(), s0, run);
    ProvidedExactly(s, e);
    var t := Apply(s, e);
    var name :| name in CachedNames(t) && name !in t.covered && !Promised(t, name);
    LostForGood(t, more, name);
  }

  // ---- Runs that show why the conditions are needed ----

  lemma Take(sequential: bool, s0: State, events: seq<Event>, e: Event) returns (t: State, longer: seq<Event>)
    requires Legal(System(sequential), s0, events)
    requires Enabled(After(System(sequential), s0, events), e)
    requires sequential ==> Sequential(After(System(sequential), s0, events), e)
    ensures Legal(System(sequential), s0, longer)
    ensures t == After(System(sequential), s0, longer) == Apply(After(System(sequential), s0, events), e)
  {
    Extend(System(sequential), s0, events, e);
    longer := events + [e];
    t := After(System(sequential), s0, longer);
  }

  /** A refresh in flight, with the guard taken. */
  function InFlight(s: State, id: nat, p: Peer, pc: Pc): State {
    s.(states := s.states[p.name := PeerState(RoutesAt(s, p.name), TagAt(s, p.name), true)],
       calls := s.calls[id := Call(p, TagAt(s, p.name), pc)])
  }

  lemma TakeOff(sequential: bool, s0: State, before: seq<Event>, id: nat, p: Peer)
      returns (t: State, events: seq<Event>)
    requires Legal(System(sequential), s0, before)
    requires var s := After(System(sequential), s0, before);
             && id !in s.calls && id !in s.reloads && p in s.peers
             && (p.name in s.states ==> !s.states[p.name].refreshing) && (sequential ==> !Busy(s, p.name))
    ensures Legal(System(sequential), s0, events) && t == After(System(sequential), s0, events)
    ensures t == InFlight(After(System(sequential), s0, before), id, p, Flying)
  {
    var s := After(System(sequential), s0, before);
    t, events := Take(sequential, s0, before, Enter(id, p));
    assert t.states == Warm(s.states, p.name) && t.calls == s.calls[id := Call(p, TagAt(s, p.name), Ready)];
    t, events := Take(sequential, s0, events, Swap(id));
    assert t.calls == InFlight(s, id, p, Flying).calls;
    assert t.states == InFlight(s, id, p, Flying).states;
  }

  /** A refresh that has been answered with a list the cache does not have. */
  function Landed(s: State, id: nat, p: Peer, list: seq<Summary>): State {
    s.(states := s.states[p.name := PeerState(list, Hash(list), false)],
       calls := s.calls[id := Call(p, TagAt(s, p.name), Done)], seen := s.seen[p.fingerprint := list])
  }

  lemma Landing(s: State, id: nat, p: Peer, list: seq<Summary>)
    requires TagAt(s, p.name) != Hash(list)
    ensures var f := InFlight(s, id, p, Replied(Answer(list)));
            var g := Apply(f, Receive(id));
            && Enabled(f, Receive(id))
            && (if g.calls[id].pc == Reloading then
                  g == Landed(s, id, p, list).(
                         states := s.states[p.name := PeerState(list, Hash(list), true)],
                         calls := s.calls[id := Call(p, TagAt(s, p.name), Reloading)],
                         reloads := s.reloads[id := Wanted])
                else g == Landed(s, id, p, list))
  {
    var f := InFlight(s, id, p, Replied(Answer(list)));
    ReceiveFrame(f, id);
    var g := Apply(f, Receive(id));
    assert g.calls == s.calls[id := Call(p, TagAt(s, p.name), g.calls[id].pc)];
    assert g.states == s.states[p.name := PeerState(list, Hash(list), g.calls[id].pc == Reloading)];
  }

  /** A reload up to where it has its certificate, with nothing in between. */
  lemma TakeLoaded(sequential: bool, s0: State, before: seq<Event>, id: nat) returns (t: State, events: seq<Event>)
    requires Legal(System(sequential), s0, before)
    requires var s := After(System(sequential), s0, before); id in s.reloads && s.reloads[id] == Wanted
    ensures Legal(System(sequential), s0, events) && t == After(System(sequential), s0, events)
    ensures var s := After(System(sequential), s0, before);
            t == s.(file := CachedNames(s), reloads := s.reloads[id := Loaded(CachedNames(s))])
  {
    t, events := Take(sequential, s0, before, Snapshot(id));
    t, events := Take(sequential, s0, events, WriteFiles(id));
    t, events := Take(sequential, s0, events, LoadFiles(id));
    var s := After(System(sequential), s0, before);
    assert t.reloads == s.reloads[id := Loaded(CachedNames(s))];
  }

  /** A whole reload with nothing in between. */
  lemma TakeReload(sequential: bool, s0: State, before: seq<Event>, id: nat) returns (t: State, events: seq<Event>)
    requires Legal(System(sequential), s0, before)
    requires var s := After(System(sequential), s0, before);
             && id in s.reloads && s.reloads[id] == Wanted && id in s.calls && s.calls[id].pc == Reloading
             && s.calls[id].peer.name in s.states
    ensures Legal(System(sequential), s0, events) && t == After(System(sequential), s0, events)
    ensures var s := After(System(sequential), s0, before);
            var name := s.calls[id].peer.name;
            t == Moved(SetState(s, name, s.states[name].(refreshing := false)), id, Done).(
                   file := CachedNames(s), covered := CachedNames(s), reloads := s.reloads - {id})
  {
    t, events := TakeLoaded(sequential, s0, before, id);
    t, events := Take(sequential, s0, events, Store(id));
    assert t.reloads == After(System(sequential), s0, before).reloads - {id};
  }

  /** One undisturbed refresh, its reload included, that is answered with a list the cache does not have. */
  lemma TakeRefresh(sequential: bool, s0: State, before: seq<Event>, id: nat, p: Peer)
      returns (t: State, events: seq<Event>)
    requires Legal(System(sequential), s0, before)
    requires var s := After(System(sequential), s0, before);
             && id !in s.calls && id !in s.reloads && p in s.peers && p.fingerprint in s.sources
             && TagAt(s, p.name) != Hash(s.sources[p.fingerprint])
             && (p.name in s.states ==> !s.states[p.name].refreshing) && (sequential ==> !Busy(s, p.name))
    ensures Legal(System(sequential), s0, events) && t == After(System(sequential), s0, events)
    ensures var s := After(System(sequential), s0, before);
            && t == Landed(s, id, p, s.sources[p.fingerprint]).(file := t.file, covered := t.covered)
            && (t.covered == s.covered || t.covered == CachedNames(t))
  {
    var s := After(System(sequential), s0, before);
    var list := s.sources[p.fingerprint];
    t, events := TakeArrival(sequential, s0, before, id, p);
    if t.calls[id].pc == Reloading {
      ghost var g := t;
      t, events := TakeReload(sequential, s0, events, id);
      ReloadLands(s, g, id, p, list);
    }
  }

  lemma ReloadLands(s: State, g: State, id: nat, p: Peer, list: seq<Summary>)
    requires id !in s.calls && id !in s.reloads
    requires g == Landed(s, id, p, list).(
                    states := s.states[p.name := PeerState(list, Hash(list), true)],
                    calls := s.calls[id := Call(p, TagAt(s, p.name), Reloading)],
                    reloads := s.reloads[id := Wanted])
    ensures var t := Moved(SetState(g, p.name, g.states[p.name].(refreshing := false)), id, Done).(
                       file := CachedNames(g), covered := CachedNames(g), reloads := g.reloads - {id});
            t == Landed(s, id, p, list).(file := t.file, covered := t.covered) && t.covered == CachedNames(t)
  {
    var t := Moved(SetState(g, p.name, g.states[p.name].(refreshing := false)), id, Done).(
               file := CachedNames(g), covered := CachedNames(g), reloads := g.reloads - {id});
    assert t.states == Landed(s, id, p, list).states && t.calls == Landed(s, id, p, list).calls;
    assert t.reloads == s.reloads;
    GuardIsNotCached(g.states, p.name, false);
  }

  /** A refresh up to where its list is in the cache. */
  lemma TakeArrival(sequential: bool, s0: State, before: seq<Event>, id: nat, p: Peer)
      returns (t: State, events: seq<Event>)
    requires Legal(System(sequential), s0, before)
    requires var s := After(System(sequential), s0, before);
             && id !in s.calls && id !in s.reloads && p in s.peers && p.fingerprint in s.sources
             && TagAt(s, p.name) != Hash(s.sources[p.fingerprint])
             && (p.name in s.states ==> !s.states[p.name].refreshing) && (sequential ==> !Busy(s, p.name))
    ensures Legal(System(sequential), s0, events) && t == After(System(sequential), s0, events)
    ensures var s := After(System(sequential), s0, before);
            t == Apply(InFlight(s, id, p, Replied(Answer(s.sources[p.fingerprint]))), Receive(id))
    ensures var s := After(System(sequential), s0, before);
            var list := s.sources[p.fingerprint];
            if t.calls[id].pc == Reloading then
              t == Landed(s, id, p, list).(
                     states := s.states[p.name := PeerState(list, Hash(list), true)],
                     calls := s.calls[id := Call(p, TagAt(s, p.name), Reloading)],
                     reloads := s.reloads[id := Wanted])
            else t == Landed(s, id, p, list)
  {
    var s := After(System(sequential), s0, before);
    t, events := TakeOff(sequential, s0, before, id, p);
    t, events := Take(sequential, s0, events, Reply(id, true));
    assert t == InFlight(s, id, p, Replied(Answer(s.sources[p.fingerprint])));
    Landing(s, id, p, s.sources[p.fingerprint]);
    t, events := Take(sequential, s0, events, Receive(id));
  }

  /** Peers are paired by fingerprint but cached by name: when two have the same name, refreshing the second
      replaces the list of the first, and a route of the second is then looked for at the first. */
  lemma SharedNameMixesPeers(p: Peer, q: Peer, a: Summary, b: Summary) returns (s: State, events: seq<Event>)
    requires p.name == q.name && p.fingerprint != q.fingerprint && a != b
    ensures Initial(s) && s.peers == [p, q] && s.sources == map[p.fingerprint := [a], q.fingerprint := [b]]
    ensures Legal(System(true), s, events)
    ensures var t := After(System(true), s, events);
            && t.sources == s.sources && t.seen == s.sources && !Agrees(t, p)
            && RoutesAt(t, p.name) == [b] && Rows(t.peers, CacheOf(t.states)) == [Row(p, b), Row(q, b)]
  {
    s := State([p, q], map[p.fingerprint := [a], q.fingerprint := [b]], map[], {}, {}, map[], map[], map[]);
    var t;
    assert Legal(System(true), s, []);
    t, events := TakeRefresh(true, s, [], 0, p);
    t, events := TakeRefresh(true, s, events, 1, q);
    var cache := CacheOf(t.states);
    assert Cached(cache, p) == [b] == Cached(cache, q);
    assert RowsOf(p, [b]) == [Row(p, b)] && RowsOf(q, [b]) == [Row(q, b)];
    assert RowsUpTo(t.peers, cache, 1) == [Row(p, b)];
  }

  /** The tag is read before the guard is taken and not read again: if another refresh gets in between and
      the peer's list changes and changes back, the late refresh is told "not modified" and leaves the wrong
      list in the cache. */
  lemma OverlapLeavesStaleCache(p: Peer, a: Summary, b: Summary) returns (s: State, events: seq<Event>)
    requires a != b
    ensures Initial(s) && s.peers == [p] && Legal(System(false), s, events)
    ensures var t := After(System(false), s, events);
            && (forall id | id in t.calls :: t.calls[id].pc == Done)
            && t.sources == t.seen == map[p.fingerprint := [a]] && RoutesAt(t, p.name) == [b]
  {
    s := State([p], map[p.fingerprint := [a]], map[], {}, {}, map[], map[], map[]);
    var t;
    assert Legal(System(false), s, []);
    t, events := TakeRefresh(false, s, [], 0, p);
    t, events := Take(false, s, events, Enter(1, p));
    t, events := Take(false, s, events, Change(p.fingerprint, [b]));
    t, events := TakeRefresh(false, s, events, 2, p);
    t, events := Take(false, s, events, Change(p.fingerprint, [a]));
    t, events := Take(false, s, events, Swap(1));
    t, events := Take(false, s, events, Reply(1, true));
    t, events := Take(false, s, events, Receive(1));
  }

  /** Two refreshes of different peers, each undisturbed but for this: the first has loaded its certificate, then
      the second goes all the way, and then the first stores. Nothing is under way, every reload has succeeded,
      and the second peer's name is not covered. */
  lemma OvertakenReload(p: Peer, q: Peer, a: Summary, b: Summary)
      returns (s: State, before: seq<Event>, events: seq<Event>)
    requires p.name != q.name && p.fingerprint != q.fingerprint && a.name != b.name
    ensures Initial(s) && s.peers == [p, q] && Legal(System(true), s, before) && Legal(System(true), s, events)
    ensures events == before + [Store(0)] && Overtaken(After(System(true), s, before), Store(0))
    ensures var t := After(System(true), s, events);
            && Settled(t) && (forall id | id in t.calls :: t.calls[id].pc == Done)
            && b.name in CachedNames(t) && t.covered == {a.name}
  {
    var t;
    s, t, before := SecondHasStored(p, q, a, b);
    CachedAt(t, q, b);
    assert !exists id :: id != 0 && Brings(t, id, b.name);
    assert b.name !in t.reloads[0].names;
    Extend(System(true), s, before, Store(0));
    events := before + [Store(0)];
    assert Apply(t, Store(0)).reloads == map[];
    ReloadFrame(t, Store(0));
  }

  lemma SecondHasStored(p: Peer, q: Peer, a: Summary, b: Summary) returns (s: State, t: State, events: seq<Event>)
    requires p.name != q.name && p.fingerprint != q.fingerprint
    ensures Initial(s) && s.peers == [p, q] && Legal(System(true), s, events) && t == After(System(true), s, events)
    ensures t.peers == s.peers
            && t.states == map[p.name := PeerState([a], Hash([a]), true), q.name := PeerState([b], Hash([b]), false)]
    ensures t.calls == map[0 := Call(p, NoTag, Reloading), 1 := Call(q, NoTag, Done)]
            && t.reloads == map[0 := Loaded({a.name})]
  {
    s, t, events := FirstHasLoaded(p, q, a, b);
    t, events := TakeRefresh(true, s, events, 1, q);
  }

  lemma FirstHasLoaded(p: Peer, q: Peer, a: Summary, b: Summary) returns (s: State, t: State, events: seq<Event>)
    requires p.name != q.name && p.fingerprint != q.fingerprint
    ensures Initial(s) && s.peers == [p, q] && s.sources == map[p.fingerprint := [a], q.fingerprint := [b]]
    ensures Legal(System(true), s, events) && t == After(System(true), s, events)
    ensures t.peers == s.peers && t.sources == s.sources && t.states == map[p.name := PeerState([a], Hash([a]), true)]
    ensures t.calls == map[0 := Call(p, NoTag, Reloading)] && t.reloads == map[0 := Loaded({a.name})]
  {
    s := State([p, q], map[p.fingerprint := [a], q.fingerprint := [b]], map[], {}, {}, map[], map[], map[]);
    assert Legal(System(true), s, []);
    t, events := TakeArrival(true, s, [], 0, p);
    OneIsNew(a);
    NamesOfOne(t, p, a, q);
    t, events := TakeLoaded(true, s, events, 0);
  }

  lemma OneIsNew(a: Summary)
    ensures !SameNames([], [a])
  {
  }

  lemma NamesOfOne(s: State, p: Peer, a: Summary, q: Peer)
    requires s.peers == [p, q] && s.states.Keys == {p.name} && s.states[p.name].routes == [a] && p.name != q.name
    ensures CachedNames(s) == {a.name}
  {
    assert [a][0].name in SummaryNames([a]);
    forall name
      ensures name in CachedNames(s) <==> name == a.name
    {
      NamesOfRows(s.peers, CacheOf(s.states), name);
      assert Cached(CacheOf(s.states), p) == [a] && Cached(CacheOf(s.states), q) == [];
      assert p in s.peers && q in s.peers;
    }
  }

  lemma CachedAt(s: State, q: Peer, b: Summary)
    requires q in s.peers && q.name in s.states && s.states[q.name].routes == [b]
    ensures b.name in CachedNames(s)
  {
    assert [b][0].name in SummaryNames([b]);
    assert Cached(CacheOf(s.states), q) == [b];
    NamesOfRows(s.peers, CacheOf(s.states), b.name);
  }
}
