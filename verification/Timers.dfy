/** internal/daemon/managed_timers.go and the table of internal/daemon/routes.go:
    TTL and idle timers armed and cancelled from the table's add and remove hooks. */
module Timers {
  import opened Text

  const SECOND := 1_000_000_000

  datatype Kind = Sticky | PidTracked | Ttl | Managed | Bookmark

  datatype Route = Route(
    kind: Kind,
    expiresAt: Option<int>,
    idleTimeout: int,          // minutes; 0 = never
    registeredAt: int,
    running: bool,
    lastActivity: Option<int>)

  predicate IsTtl(r: Route) {
    r.kind == Ttl && r.expiresAt.Some?
  }

  predicate IsIdle(r: Route) {
    r.kind == Managed && r.idleTimeout > 0
  }

  function Timeout(r: Route): int {
    r.idleTimeout * 60_000_000_000  // minutes in nanoseconds
  }

  function LastActive(r: Route): int {
    if r.lastActivity.Some? then r.lastActivity.value else r.registeredAt
  }

  datatype Callback = ExpireTtl | CheckIdle

  /** One time.AfterFunc: what it runs, for which name, and when it is due. */
  datatype Timer = Timer(callback: Callback, name: string, due: int)

  /** The table, the server's two timer maps, and the runtime's timers: `pending` still run their
      countdown, `fired` have expired and their callback goroutine has yet to run. Stop removes a
      timer from `pending` only. */
  datatype State = State(
    now: int,
    table: map<string, Route>,
    ttlTimers: map<string, nat>,
    idleTimers: map<string, nat>,
    pending: map<nat, Timer>,
    fired: map<nat, Timer>,
    nextId: nat)

  // ---- What each function of the source does to the state ----

  function AfterFunc(s: State, d: int, callback: Callback, name: string): State {
    s.(pending := s.pending[s.nextId := Timer(callback, name, s.now + d)], nextId := s.nextId + 1)
  }

  function StopTimer(s: State, timers: map<string, nat>, name: string): State {
    if name in timers then s.(pending := s.pending - {timers[name]}) else s
  }

  function ArmTtl(s: State, name: string, expires: int): State {
    var d := if expires - s.now < 0 then 0 else expires - s.now;
    var s' := AfterFunc(StopTimer(s, s.ttlTimers, name), d, ExpireTtl, name);
    s'.(ttlTimers := s'.ttlTimers[name := s.nextId])
  }

  function ArmIdle(s: State, name: string): State {
    if name !in s.table || !IsIdle(s.table[name]) then s
    else
      var s' := AfterFunc(StopTimer(s, s.idleTimers, name), Timeout(s.table[name]), CheckIdle, name);
      s'.(idleTimers := s'.idleTimers[name := s.nextId])
  }

  function OnRouteAdded(s: State, name: string, r: Route): State {
    if IsTtl(r) then ArmTtl(s, name, r.expiresAt.value)
    else if IsIdle(r) then ArmIdle(s, name)
    else s
  }

  function OnRouteRemoved(s: State, name: string): State {
    var s1 := StopTimer(s, s.ttlTimers, name);
    var s2 := StopTimer(s1, s.idleTimers, name);
    s2.(ttlTimers := s.ttlTimers - {name}, idleTimers := s.idleTimers - {name})
  }

  function Add(s: State, name: string, r: Route): State {
    var s1 := s.(table := s.table[name := r]);
    var s2 := if name in s.table then OnRouteRemoved(s1, name) else s1;
    OnRouteAdded(s2, name, r)
  }

  function Remove(s: State, name: string): State {
    if name in s.table then OnRouteRemoved(s.(table := s.table - {name}), name) else s
  }

  function RunExpireTtl(s: State, name: string): State {
    if name !in s.table then s
    else if !IsTtl(s.table[name]) || s.table[name].expiresAt.value > s.now then s
    else Remove(s, name)
  }

  function RearmIdle(s: State, name: string, d: int): State {
    if name in s.idleTimers then
      var s' := AfterFunc(s, if d < SECOND then SECOND else d, CheckIdle, name);
      s'.(idleTimers := s'.idleTimers[name := s.nextId])
    else s
  }

  function RunCheckIdle(s: State, name: string): State {
    if name !in s.table || !IsIdle(s.table[name]) then s
    else
      var r := s.table[name];
      if r.running then
        var idleFor := s.now - LastActive(r);
        if idleFor >= Timeout(r) then
          RearmIdle(s.(table := s.table[name := r.(running := false)]), name, Timeout(r))
        else RearmIdle(s, name, Timeout(r) - idleFor)
      else RearmIdle(s, name, Timeout(r))
  }

  // ---- The code ----

  class Server {
    var now: int
    var table: map<string, Route>
    var ttlTimers: map<string, nat>
    var idleTimers: map<string, nat>
    var pending: map<nat, Timer>
    var fired: map<nat, Timer>
    var nextId: nat

    ghost function St(): State
      reads this
    {
      State(now, table, ttlTimers, idleTimers, pending, fired, nextId)
    }

    /** The map points at a countdown with these particulars. */
    ghost predicate Armed(timers: map<string, nat>, name: string, t: Timer)
      reads this
    {
      name in timers && timers[name] in pending && pending[timers[name]] == t
    }

    /** The countdowns other than the one the map has for the name. */
    ghost function Counting(timers: map<string, nat>, name: string): set<nat>
      reads this
    {
      pending.Keys - if name in timers then {timers[name]} else {}
    }

    method StartTimer(d: int, callback: Callback, name: string) returns (id: nat)
      modifies this
      ensures St() == AfterFunc(old(St()), d, callback, name) && id == old(nextId)
    {
      id := nextId;
      pending := pending[id := Timer(callback, name, now + d)];
      nextId := nextId + 1;
    }

    method ArmTtlTimer(name: string, expires: int)
      modifies this
      ensures St() == ArmTtl(old(St()), name, expires)
      ensures Armed(ttlTimers, name, Timer(ExpireTtl, name, if expires < now then now else expires))
      ensures pending.Keys == old(Counting(ttlTimers, name)) + {old(nextId)}
    {
      var d := expires - now;
      if d < 0 {
        d := 0;
      }
      if name in ttlTimers {
        pending := pending - {ttlTimers[name]};
      }
      var id := StartTimer(d, ExpireTtl, name);
      ttlTimers := ttlTimers[name := id];
    }

    method ArmIdleTimer(name: string)
      modifies this
      ensures St() == ArmIdle(old(St()), name)
      ensures if name in table && table[name].kind == Managed && table[name].idleTimeout > 0 then
                && Armed(idleTimers, name, Timer(CheckIdle, name, now + table[name].idleTimeout * 60_000_000_000))
                && pending.Keys == old(Counting(idleTimers, name)) + {old(nextId)}
              else St() == old(St())
    {
      if name !in table || table[name].kind != Managed || table[name].idleTimeout <= 0 {
        return;
      }
      var timeout := Timeout(table[name]);
      if name in idleTimers {
        pending := pending - {idleTimers[name]};
      }
      var id := StartTimer(timeout, CheckIdle, name);
      idleTimers := idleTimers[name := id];
    }

    method RouteAdded(name: string, r: Route)
      modifies this
      ensures St() == OnRouteAdded(old(St()), name, r)
      ensures r.kind == Ttl && r.expiresAt.Some? ==>
              Armed(ttlTimers, name, Timer(ExpireTtl, name, if r.expiresAt.value < now then now else r.expiresAt.value))
      ensures ttlTimers.Keys == old(ttlTimers).Keys + if r.kind == Ttl && r.expiresAt.Some? then {name} else {}
      ensures r.kind == Managed && r.idleTimeout > 0 && name in table && table[name] == r ==>
              Armed(idleTimers, name, Timer(CheckIdle, name, now + r.idleTimeout * 60_000_000_000))
      ensures !(r.kind == Ttl && r.expiresAt.Some?) && !(r.kind == Managed && r.idleTimeout > 0) ==> St() == old(St())
    {
      if r.kind == Ttl && r.expiresAt.Some? {
        ArmTtlTimer(name, r.expiresAt.value);
      } else if r.kind == Managed && r.idleTimeout > 0 {
        ArmIdleTimer(name);
      }
    }

    method RouteRemoved(name: string)
      modifies this
      ensures St() == OnRouteRemoved(old(St()), name)
      ensures name !in ttlTimers && name !in idleTimers
      ensures pending.Keys == old(Counting(ttlTimers, name)) * old(Counting(idleTimers, name))
    {
      if name in ttlTimers {
        pending := pending - {ttlTimers[name]};
        ttlTimers := ttlTimers - {name};
      }
      if name in idleTimers {
        pending := pending - {idleTimers[name]};
        idleTimers := idleTimers - {name};
      }
    }

    method AddRoute(name: string, r: Route)
      modifies this
      ensures St() == Add(old(St()), name, r)
      ensures table == old(table)[name := r]
      ensures name in old(table) ==>
              && (name in ttlTimers <==> r.kind == Ttl && r.expiresAt.Some?)
              && (name in idleTimers <==> r.kind == Managed && r.idleTimeout > 0)
    {
      var existed := name in table;
      table := table[name := r];
      if existed {
        RouteRemoved(name);
      }
      RouteAdded(name, r);
    }

    method RemoveRoute(name: string) returns (ok: bool)
      modifies this
      ensures St() == Remove(old(St()), name) && ok == (name in old(table))
      ensures name !in table && (ok ==> name !in ttlTimers && name !in idleTimers)
    {
      ok := name in table;
      if ok {
        table := table - {name};
        RouteRemoved(name);
      }
    }

    method TtlCallback(name: string)
      modifies this
      ensures St() == RunExpireTtl(old(St()), name)
      ensures name in old(table) && name !in table <==>
              && name in old(table) && old(table)[name].kind == Ttl
              && old(table)[name].expiresAt.Some? && old(table)[name].expiresAt.value <= now
    {
      if name !in table {
        return;
      }
      var r := table[name];
      if r.kind != Ttl || r.expiresAt.None? || r.expiresAt.value > now {
        return;
      }
      var _ := RemoveRoute(name);
    }

    method IdleCallback(name: string)
      modifies this
      ensures St() == RunCheckIdle(old(St()), name)
      ensures table.Keys == old(table).Keys && forall n | n in table && n != name :: table[n] == old(table)[n]
      ensures name in table && old(table)[name].running && !table[name].running <==>
              && name in old(table)
              && var r := old(table)[name];
                 && r.running && r.kind == Managed && r.idleTimeout > 0
                 && (if r.lastActivity.Some? then r.lastActivity.value else r.registeredAt)
                    + r.idleTimeout * 60_000_000_000 <= now
      ensures name in old(table) && old(table)[name].kind == Managed && old(table)[name].idleTimeout > 0
              && name in old(idleTimers) ==>
                && idleTimers[name] == old(nextId) && old(nextId) in pending
                && now + 1_000_000_000 <= pending[old(nextId)].due
    {
      if name !in table || table[name].kind != Managed || table[name].idleTimeout <= 0 {
        return;
      }
      var timeout := Timeout(table[name]);
      if table[name].running {
        var idleFor := now - LastActive(table[name]);
        if idleFor >= timeout {
          table := table[name := table[name].(running := false)];
          Rearm(name, timeout);
          return;
        }
        Rearm(name, timeout - idleFor);
        return;
      }
      Rearm(name, timeout);
    }

    method Rearm(name: string, d: int)
      modifies this
      ensures St() == RearmIdle(old(St()), name, d)
      ensures if name in old(idleTimers)
              then Armed(idleTimers, name, Timer(CheckIdle, name, now + if d < 1_000_000_000 then 1_000_000_000 else d))
              else St() == old(St())
    {
      var wait := d;
      if wait < SECOND {
        wait := SECOND;
      }
      if name in idleTimers {
        var id := StartTimer(wait, CheckIdle, name);
        idleTimers := idleTimers[name := id];
      }
    }
  }
}
