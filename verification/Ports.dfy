/** Port claims and port assignment: findFreePort in internal/daemon/daemon.go, and vibePortClaim,
    reservePortsClaim, checkVibePortCollisions and validateReservePorts in internal/daemon/api.go. */
module Ports {
  import opened Text

  /** The ports of a route; 0 is "none". */
  datatype Route = Route(port: nat, oauthCallbackPort: nat, reservePorts: map<string, nat>)

  /** RouteTable, by name. */
  type Table = map<string, Route>

  /** The daemon's own listeners. */
  datatype Config = Config(port: nat, tlsEnabled: bool, tlsPort: nat)

  predicate IsDaemonPort(cfg: Config, port: nat) {
    port == cfg.port || (cfg.tlsEnabled && port == cfg.tlsPort)
  }

  /** A port number of the route, in any of its three roles. */
  ghost predicate Claims(r: Route, port: nat) {
    && port > 0
    && (r.port == port || r.oauthCallbackPort == port || exists k | k in r.reservePorts :: r.reservePorts[k] == port)
  }

  ghost predicate Claimed(t: Table, port: nat) {
    exists n | n in t :: Claims(t[n], port)
  }

  ghost predicate ClaimedByOther(t: Table, name: string, port: nat) {
    exists n | n in t && n != name :: Claims(t[n], port)
  }

  // ---- Checking ----

  datatype Claim = DaemonPort | PortOf(name: string) | OAuthPortOf(name: string) | ReservedBy(name: string, key: string)

  method VibePortClaim(cfg: Config, t: Table, excludeRoute: string, port: nat) returns (claim: Option<Claim>)
    ensures claim.Some? <==>
              && port > 0
              && (port == cfg.port || (cfg.tlsEnabled && port == cfg.tlsPort) || ClaimedByOther(t, excludeRoute, port))
    ensures claim == Some(DaemonPort) <==> port > 0 && (port == cfg.port || (cfg.tlsEnabled && port == cfg.tlsPort))
    ensures claim.Some? && !claim.value.DaemonPort? ==>
              && claim.value.name in t && claim.value.name != excludeRoute
              && var r := t[claim.value.name];
                 match claim.value
                 case PortOf(_) => r.port == port
                 case OAuthPortOf(_) => r.oauthCallbackPort == port
                 case ReservedBy(_, key) => key in r.reservePorts && r.reservePorts[key] == port
  {
    if port == 0 {
      return None;
    }
    if port == cfg.port {
      return Some(DaemonPort);
    }
    if cfg.tlsEnabled && port == cfg.tlsPort {
      return Some(DaemonPort);
    }
    var todo := t.Keys;
    while todo != {}
      invariant todo <= t.Keys
      invariant forall n | n in t && n != excludeRoute && n !in todo :: !Claims(t[n], port)
    {
      var n :| n in todo;
      todo := todo - {n};
      if n == excludeRoute {
        continue;
      }
      if t[n].port == port {
        return Some(PortOf(n));
      } else if t[n].oauthCallbackPort == port {
        return Some(OAuthPortOf(n));
      }
      var keys := t[n].reservePorts.Keys;
      while keys != {}
        invariant keys <= t[n].reservePorts.Keys
        invariant forall k | k in t[n].reservePorts && k !in keys :: t[n].reservePorts[k] != port
      {
        var k :| k in keys;
        keys := keys - {k};
        if t[n].reservePorts[k] == port {
          return Some(ReservedBy(n, k));
        }
      }
    }
    return None;
  }

  method ReservePortsClaim(cfg: Config, t: Table, excludeRoute: string, reserve: map<string, nat>, names: seq<string>)
      returns (claim: Option<Claim>)
    requires forall k | k in reserve :: k in names
    requires forall k | k in names :: k in reserve
    ensures claim.Some? <==>
            exists k | k in reserve ::
                reserve[k] > 0 && (IsDaemonPort(cfg, reserve[k]) || ClaimedByOther(t, excludeRoute, reserve[k]))
  {
    var i := 0;
    while i < |names|
      invariant 0 <= i <= |names|
      invariant forall j | 0 <= j < i && reserve[names[j]] > 0 ::
                  !IsDaemonPort(cfg, reserve[names[j]]) && !ClaimedByOther(t, excludeRoute, reserve[names[j]])
    {
      var p := reserve[names[i]];
      if p != 0 {
        var msg := VibePortClaim(cfg, t, excludeRoute, p);
        if msg.Some? {
          assert names[i] in reserve;
          return msg;
        }
      }
      i := i + 1;
    }
    return None;
  }

  /** No port of the route is the daemon's or claimed by another route. */
  ghost predicate Startable(cfg: Config, t: Table, name: string)
    requires name in t
  {
    forall s: Slot | HasSlot(t[name], s) && PortAt(t[name], s) > 0 ::
      !IsDaemonPort(cfg, PortAt(t[name], s)) && !ClaimedByOther(t, name, PortAt(t[name], s))
  }

  method CheckVibePortCollisions(cfg: Config, t: Table, name: string, names: seq<string>) returns (claim: Option<Claim>)
    requires name in t
    requires forall k | k in t[name].reservePorts :: k in names
    requires forall k | k in names :: k in t[name].reservePorts
    ensures claim.None? <==> Startable(cfg, t, name)
  {
    var r := t[name];
    claim := VibePortClaim(cfg, t, name, r.port);
    assert HasSlot(r, Primary) && PortAt(r, Primary) == r.port;
    assert forall k | k in r.reservePorts :: HasSlot(r, Reserve(k)) && PortAt(r, Reserve(k)) == r.reservePorts[k];
    if claim.Some? {
      return;
    }
    claim := ReservePortsClaim(cfg, t, name, r.reservePorts, names);
  }

  // ---- Assigning ----

  /** A port a command binds: the primary one or a named reserve port. */
  datatype Slot = Primary | Reserve(name: string)

  predicate HasSlot(r: Route, s: Slot) {
    s.Reserve? ==> s.name in r.reservePorts
  }

  function PortAt(r: Route, s: Slot): nat
    requires HasSlot(r, s)
  {
    match s
    case Primary => r.port
    case Reserve(k) => r.reservePorts[k]
  }

  function Assign(r: Route, s: Slot, port: nat): Route {
    match s
    case Primary => r.(port := port)
    case Reserve(k) => r.(reservePorts := r.reservePorts[k := port])
  }

  /** What one call of findFreePort meets: the ports that can be bound, and the port the operating system
      would pick. */
  datatype Scan = Scan(bindable: set<nat>, osPort: Option<nat>)

  ghost predicate ScanHit(t: Table, scan: Scan, port: nat) {
    3000 <= port < 4000 && port in scan.bindable && !Claimed(t, port)
  }

  ghost predicate Exhausted(t: Table, scan: Scan) {
    forall p :: !ScanHit(t, scan, p)
  }

  /** `port` is what findFreePort may return: the least hit, or whatever the operating system says. */
  ghost predicate IsFreePort(t: Table, scan: Scan, port: Option<nat>) {
    if Exhausted(t, scan) then port == scan.osPort
    else port.Some? && ScanHit(t, scan, port.value) && forall p | ScanHit(t, scan, p) :: port.value <= p
  }

  method FindFreePort(t: Table, scan: Scan) returns (port: Option<nat>)
    ensures IsFreePort(t, scan, port)
    ensures forall p | 3000 <= p < 4000 && p in scan.bindable && !Claimed(t, p) ::
              port.Some? && 3000 <= port.value <= p && port.value in scan.bindable && !Claimed(t, port.value)
    ensures (forall p | 3000 <= p < 4000 && p in scan.bindable :: Claimed(t, p)) ==> port == scan.osPort
  {
    var claimed: set<nat> := {};
    var todo := t.Keys;
    while todo != {}
      invariant todo <= t.Keys
      invariant forall p: nat :: p in claimed <==> exists n | n in t && n !in todo :: Claims(t[n], p)
    {
      var n :| n in todo;
      ghost var before := claimed;
      var mine := ClaimsOf(t[n]);
      claimed := claimed + mine;
      todo := todo - {n};
    }
    assert forall p: nat :: p in claimed <==> Claimed(t, p);
    assert forall q | 3000 <= q < 4000 && q in scan.bindable && !Claimed(t, q) :: ScanHit(t, scan, q);
    var p := 3000;
    while p < 4000
      invariant 3000 <= p <= 4000
      invariant forall q: nat | q < p :: !ScanHit(t, scan, q)
    {
      if p !in claimed && p in scan.bindable {
        assert ScanHit(t, scan, p);
        return Some(p);
      }
      p := p + 1;
    }
    return scan.osPort;
  }

  /** The inner part of the claims loop. */
  method ClaimsOf(r: Route) returns (claimed: set<nat>)
    ensures forall p: nat :: p in claimed <==> Claims(r, p)
  {
    claimed := {};
    if r.port > 0 {
      claimed := claimed + {r.port};
    }
    if r.oauthCallbackPort > 0 {
      claimed := claimed + {r.oauthCallbackPort};
    }
    var keys := r.reservePorts.Keys;
    while keys != {}
      invariant keys <= r.reservePorts.Keys
      invariant forall p: nat :: p in claimed <==>
                  p > 0 && (r.port == p || r.oauthCallbackPort == p
                            || exists k | k in r.reservePorts && k !in keys :: r.reservePorts[k] == p)
    {
      var k :| k in keys;
      keys := keys - {k};
      if r.reservePorts[k] > 0 {
        claimed := claimed + {r.reservePorts[k]};
      }
    }
  }

  ghost function WithPort(t: Table, name: string, s: Slot, port: nat): Table
    requires name in t
  {
    t[name := Assign(t[name], s, port)]
  }

  /** The table after filling the slots of `name` one by one. */
  ghost function AfterPicks(t: Table, name: string, slots: seq<Slot>, picks: seq<nat>): (after: Table)
    requires name in t && |slots| == |picks|
    ensures name in after
  {
    if slots == [] then t
    else AfterPicks(WithPort(t, name, slots[0], picks[0]), name, slots[1..], picks[1..])
  }

  /** Each slot ends with its pick, and nothing else about any route changes. */
  lemma {:induction false} PicksLandInTheirSlots(t: Table, name: string, slots: seq<Slot>, picks: seq<nat>)
    requires name in t && |slots| == |picks| && forall i, j | 0 <= i < j < |slots| :: slots[i] != slots[j]
    ensures var after := AfterPicks(t, name, slots, picks);
            && after.Keys == t.Keys && (forall n | n in t && n != name :: after[n] == t[n])
            && after[name].oauthCallbackPort == t[name].oauthCallbackPort
            && (forall i | 0 <= i < |slots| ::
                  HasSlot(after[name], slots[i]) && PortAt(after[name], slots[i]) == picks[i])
            && (forall s | s !in slots && HasSlot(t[name], s) ::
                  HasSlot(after[name], s) && PortAt(after[name], s) == PortAt(t[name], s))
            && (forall s | s !in slots && HasSlot(after[name], s) :: HasSlot(t[name], s))
  {
    if slots != [] {
      var t' := WithPort(t, name, slots[0], picks[0]);
      PicksLandInTheirSlots(t', name, slots[1..], picks[1..]);
      assert slots[0] !in slots[1..];
      assert forall s | s in slots && s != slots[0] :: s in slots[1..];
      assert forall s | s != slots[0] && HasSlot(t[name], s) :: HasSlot(t'[name], s);
    }
  }

  /** A slot is the primary port or one reserve port. */
  lemma SlotsAreThePorts(r: Route, k: string, port: nat)
    ensures HasSlot(r, Primary) && PortAt(r, Primary) == r.port
    ensures HasSlot(r, Reserve(k)) <==> k in r.reservePorts
    ensures k in r.reservePorts ==> PortAt(r, Reserve(k)) == r.reservePorts[k]
  {
  }

  /** Each pick is what findFreePort returned at its turn, over the table as it stood then. */
  ghost predicate Scanned(t: Table, name: string, slots: seq<Slot>, scans: seq<Scan>, picks: seq<nat>)
    requires name in t && |slots| == |picks| <= |scans|
  {
    slots != [] ==>
      && IsFreePort(t, scans[0], Some(picks[0]))
      && Scanned(WithPort(t, name, slots[0], picks[0]), name, slots[1..], scans[1..], picks[1..])
  }

  lemma {:induction false} ScannedSnoc(t: Table, name: string, slots: seq<Slot>, scans: seq<Scan>, picks: seq<nat>,
                                       s: Slot, port: nat)
    requires name in t && |slots| == |picks| < |scans|
    requires Scanned(t, name, slots, scans, picks)
    requires IsFreePort(AfterPicks(t, name, slots, picks), scans[|slots|], Some(port))
    ensures Scanned(t, name, slots + [s], scans, picks + [port])
    ensures AfterPicks(t, name, slots + [s], picks + [port]) ==
            WithPort(AfterPicks(t, name, slots, picks), name, s, port)
  {
    var slots', picks' := slots + [s], picks + [port];
    if slots == [] {
      assert slots'[1..] == [] && picks'[1..] == [];
    } else {
      ScannedSnoc(WithPort(t, name, slots[0], picks[0]), name, slots[1..], scans[1..], picks[1..], s, port);
      assert slots'[1..] == slots[1..] + [s] && picks'[1..] == picks[1..] + [port];
    }
  }

  function ReserveSlots(names: seq<string>): (r: seq<Slot>)
    ensures |r| == |names| && forall i | 0 <= i < |r| :: r[i] == Reserve(names[i])
  {
    if names == [] then [] else [Reserve(names[0])] + ReserveSlots(names[1..])
  }

  lemma ReserveSlotsSnoc(names: seq<string>, i: nat)
    requires i < |names|
    ensures ReserveSlots(names[..i + 1]) == ReserveSlots(names[..i]) + [Reserve(names[i])]
  {
  }

  class PortTable {
    var table: Table

    /** Assigns the reserve ports of a worktree route, whose values are all zero. */
    method AssignReserves(name: string, names: seq<string>, scans: seq<Scan>) returns (picks: seq<nat>, ok: bool)
      requires name in table && |scans| >= |names|
      modifies this
      ensures ok ==> |picks| == |names| && Scanned(old(table), name, ReserveSlots(names), scans, picks)
      ensures ok ==> table == AfterPicks(old(table), name, ReserveSlots(names), picks)
      ensures !ok ==> table == old(table) - {name}
    {
      picks := [];
      var i := 0;
      while i < |names|
        invariant 0 <= i <= |names| && |picks| == i && name in table
        invariant Scanned(old(table), name, ReserveSlots(names[..i]), scans, picks)
        invariant table == AfterPicks(old(table), name, ReserveSlots(names[..i]), picks)
        invariant table - {name} == old(table) - {name}
      {
        var p := FindFreePort(table, scans[i]);
        if p.None? {
          table := table - {name};
          return picks, false;
        }
        ScannedSnoc(old(table), name, ReserveSlots(names[..i]), scans, picks, Reserve(names[i]), p.value);
        ReserveSlotsSnoc(names, i);
        var r := table[name];
        table := table[name := r.(reservePorts := r.reservePorts[names[i] := p.value])];
        picks := picks + [p.value];
        i := i + 1;
      }
      assert names[..i] == names;
      ok := true;
    }

    /** handleRegister for a worktree: the primary port, then the reserve ports. */
    method RegisterWorktreePorts(name: string, names: seq<string>, scans: seq<Scan>) returns (picks: seq<nat>, ok: bool)
      requires name in table && table[name].port == 0 && |scans| >= 1 + |names|
      modifies this
      ensures ok ==> |picks| == 1 + |names| && Scanned(old(table), name, [Primary] + ReserveSlots(names), scans, picks)
      ensures ok ==> table == AfterPicks(old(table), name, [Primary] + ReserveSlots(names), picks)
      ensures !ok ==> table == old(table) - {name}
    {
      var port := FindFreePort(table, scans[0]);
      if port.None? {
        table := table - {name};
        return [], false;
      }
      table := table[name := table[name].(port := port.value)];
      assert table - {name} == old(table) - {name};
      assert table == WithPort(old(table), name, Primary, port.value);
      var rest;
      rest, ok := AssignReserves(name, names, scans[1..]);
      picks := [port.value] + rest;
      assert picks[1..] == rest && ([Primary] + ReserveSlots(names))[1..] == ReserveSlots(names);
    }

    /** handleAdoptWorktree and startManagedNow: the reserve ports, then the primary port. */
    method AdoptWorktreePorts(name: string, names: seq<string>, scans: seq<Scan>) returns (picks: seq<nat>, ok: bool)
      requires name in table && table[name].port == 0 && |scans| >= 1 + |names|
      modifies this
      ensures ok ==> |picks| == 1 + |names| && Scanned(old(table), name, ReserveSlots(names) + [Primary], scans, picks)
      ensures ok ==> table == AfterPicks(old(table), name, ReserveSlots(names) + [Primary], picks)
      ensures !ok ==> table == old(table) - {name}
    {
      picks, ok := AssignReserves(name, names, scans);
      if !ok {
        return;
      }
      OnlyOneRouteChanges(old(table), name, ReserveSlots(names), picks);
      var port := FindFreePort(table, scans[|names|]);
      if port.None? {
        table := table - {name};
        return picks, false;
      }
      ScannedSnoc(old(table), name, ReserveSlots(names), scans, picks, Primary, port.value);
      table := table[name := table[name].(port := port.value)];
      picks := picks + [port.value];
    }
  }

  lemma {:induction false} OnlyOneRouteChanges(t: Table, name: string, slots: seq<Slot>, picks: seq<nat>)
    requires name in t && |slots| == |picks|
    ensures AfterPicks(t, name, slots, picks) - {name} == t - {name}
  {
    if slots != [] {
      OnlyOneRouteChanges(WithPort(t, name, slots[0], picks[0]), name, slots[1..], picks[1..]);
      assert WithPort(t, name, slots[0], picks[0]) - {name} == t - {name};
    }
  }

  // ---- What assignment guarantees ----

  /** The route's ports are distinct, and no other route nor the daemon has them. */
  ghost predicate Clean(cfg: Config, t: Table, name: string) {
    && name in t && Startable(cfg, t, name)
    && (forall a, b | HasSlot(t[name], a) && HasSlot(t[name], b) && PortAt(t[name], a) == PortAt(t[name], b) > 0 ::
          a == b)
    && (forall a | HasSlot(t[name], a) && PortAt(t[name], a) > 0 :: PortAt(t[name], a) != t[name].oauthCallbackPort)
  }

  ghost predicate Fresh(cfg: Config, t: Table, port: nat) {
    port > 0 && !Claimed(t, port) && !IsDaemonPort(cfg, port)
  }

  lemma SlotsAreClaims(t: Table, name: string, port: nat)
    requires name in t && port > 0
    ensures Claimed(t, port) <==>
            || ClaimedByOther(t, name, port) || t[name].oauthCallbackPort == port
            || exists s :: HasSlot(t[name], s) && PortAt(t[name], s) == port
  {
    var r := t[name];
    assert HasSlot(r, Primary) && PortAt(r, Primary) == r.port;
    assert forall k | k in r.reservePorts :: HasSlot(r, Reserve(k)) && PortAt(r, Reserve(k)) == r.reservePorts[k];
  }

  lemma OthersKeepTheirClaims(t: Table, name: string, s: Slot, port: nat)
    requires name in t
    ensures forall p :: ClaimedByOther(WithPort(t, name, s, port), name, p) <==> ClaimedByOther(t, name, p)
  {
    var t' := WithPort(t, name, s, port);
    forall p
      ensures ClaimedByOther(t', name, p) <==> ClaimedByOther(t, name, p)
    {
      if ClaimedByOther(t, name, p) {
        var n :| n in t && n != name && Claims(t[n], p);
        assert t'[n] == t[n];
      }
      if ClaimedByOther(t', name, p) {
        var n :| n in t' && n != name && Claims(t'[n], p);
        assert t'[n] == t[n];
      }
    }
  }

  /** Filling an empty slot keeps the route clean exactly when the port is fresh. */
  lemma FillingStaysClean(cfg: Config, t: Table, name: string, s: Slot, port: nat)
    requires Clean(cfg, t, name) && HasSlot(t[name], s) && PortAt(t[name], s) == 0 && port > 0
    ensures Clean(cfg, WithPort(t, name, s, port), name) <==> Fresh(cfg, t, port)
  {
    var t' := WithPort(t, name, s, port);
    SlotsAreClaims(t, name, port);
    OthersKeepTheirClaims(t, name, s, port);
    assert forall a | HasSlot(t[name], a) && a != s ::
        HasSlot(t'[name], a) && PortAt(t'[name], a) == PortAt(t[name], a);
    assert HasSlot(t'[name], s) && PortAt(t'[name], s) == port;
    assert forall a | HasSlot(t'[name], a) :: HasSlot(t[name], a);
  }

  /** A route that is not clean stays so however its empty slots are filled. */
  lemma FillingNeverCleans(cfg: Config, t: Table, name: string, s: Slot, port: nat)
    requires name in t && HasSlot(t[name], s) && PortAt(t[name], s) == 0 && Clean(cfg, WithPort(t, name, s, port), name)
    ensures Clean(cfg, t, name)
  {
    var t' := WithPort(t, name, s, port);
    OthersKeepTheirClaims(t, name, s, port);
    assert forall a | HasSlot(t[name], a) && PortAt(t[name], a) > 0 ::
        HasSlot(t'[name], a) && PortAt(t'[name], a) == PortAt(t[name], a);
  }

  ghost predicate EmptySlots(r: Route, slots: seq<Slot>) {
    && (forall i | 0 <= i < |slots| :: HasSlot(r, slots[i]) && PortAt(r, slots[i]) == 0)
    && (forall i, j | 0 <= i < j < |slots| :: slots[i] != slots[j])
  }

  /** Whenever the scan is exhausted, the port the operating system picks is fresh. */
  ghost predicate FallbacksFresh(cfg: Config, t: Table, name: string, slots: seq<Slot>, scans: seq<Scan>,
                                 picks: seq<nat>)
    requires name in t && |slots| == |picks| <= |scans|
  {
    slots != [] ==>
      && (Exhausted(t, scans[0]) ==> Fresh(cfg, t, picks[0]))
      && FallbacksFresh(cfg, WithPort(t, name, slots[0], picks[0]), name, slots[1..], scans[1..], picks[1..])
  }

  ghost predicate DaemonBound(cfg: Config, scan: Scan) {
    forall p | p in scan.bindable :: !IsDaemonPort(cfg, p)
  }

  lemma {:induction false} UncleanStays(cfg: Config, t: Table, name: string, slots: seq<Slot>, picks: seq<nat>)
    requires name in t && |slots| == |picks| && EmptySlots(t[name], slots)
    requires Clean(cfg, AfterPicks(t, name, slots, picks), name)
    ensures Clean(cfg, t, name)
  {
    if slots != [] {
      UncleanStays(cfg, WithPort(t, name, slots[0], picks[0]), name, slots[1..], picks[1..]);
      FillingNeverCleans(cfg, t, name, slots[0], picks[0]);
    }
  }

  /** Ports assigned by repeated scans over the growing table are pairwise distinct, unclaimed by every
      other route and by the daemon, exactly when no exhausted scan fell back to a claimed port. */
  lemma {:induction false} AssignedPortsAreExclusive(cfg: Config, t: Table, name: string, slots: seq<Slot>,
                                                     scans: seq<Scan>, picks: seq<nat>)
    requires Clean(cfg, t, name) && EmptySlots(t[name], slots) && |slots| == |picks| <= |scans|
    requires Scanned(t, name, slots, scans, picks)
    requires forall i | 0 <= i < |scans| ::
             DaemonBound(cfg, scans[i]) && (scans[i].osPort.Some? ==> scans[i].osPort.value > 0)
    ensures Clean(cfg, AfterPicks(t, name, slots, picks), name) <==> FallbacksFresh(cfg, t, name, slots, scans, picks)
  {
    if slots != [] {
      var t' := WithPort(t, name, slots[0], picks[0]);
      FillingStaysClean(cfg, t, name, slots[0], picks[0]);
      if Fresh(cfg, t, picks[0]) {
        AssignedPortsAreExclusive(cfg, t', name, slots[1..], scans[1..], picks[1..]);
      } else if Clean(cfg, AfterPicks(t, name, slots, picks), name) {
        UncleanStays(cfg, t', name, slots[1..], picks[1..]);
      } else {
        assert DaemonBound(cfg, scans[0]);
      }
    }
  }

  /** The fallback port is not checked against claims: with 3000-3999 taken, the operating system may hand
      out the port of a stopped route. */
  lemma FallbackCollides(cfg: Config) returns (t: Table, scan: Scan, port: nat)
    requires cfg.port != 50000 && cfg.tlsPort != 50000
    ensures "new" in t && Clean(cfg, t, "new") && t["new"].port == 0
    ensures DaemonBound(cfg, scan) && IsFreePort(t, scan, Some(port))
    ensures !Startable(cfg, WithPort(t, "new", Primary, port), "new")
  {
    t := map["new" := Route(0, 0, map[]), "old" := Route(50000, 0, map[])];
    scan := Scan({}, Some(50000));
    port := 50000;
    assert Claims(t["old"], 50000);
    var t' := WithPort(t, "new", Primary, port);
    assert Claims(t'["old"], 50000) && HasSlot(t'["new"], Primary) && PortAt(t'["new"], Primary) == 50000;
  }
}
