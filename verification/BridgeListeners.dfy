/** internal/daemon/oauth_bridge.go: which bridge listeners run. */
module BridgeListeners {
  import opened Text
  import opened OAuthBridge

  /** The daemon's own listeners. */
  datatype Config = Config(port: int, tlsEnabled: bool, tlsPort: int)

  datatype ConfigError = OutOfRange | SameAsRoutePort | SameAsDaemon | UsedBy(name: string)

  ghost predicate ConfigOk(cfg: Config, routes: seq<Route>, routeName: string, appPort: int, callbackPort: int) {
    && 1 <= callbackPort <= 65535
    && (appPort > 0 ==> callbackPort != appPort)
    && callbackPort != cfg.port && (cfg.tlsEnabled ==> callbackPort != cfg.tlsPort)
    && forall r | r in routes :: r.name != routeName ==> r.oauthCallbackPort != callbackPort
  }

  method ValidateOAuthBridgeConfig(cfg: Config, routes: seq<Route>, routeName: string, appPort: int, callbackPort: int)
      returns (err: Option<ConfigError>)
    ensures err.None? <==> ConfigOk(cfg, routes, routeName, appPort, callbackPort)
    ensures err.Some? ==>
              match err.value
              case OutOfRange => callbackPort < 1 || 65535 < callbackPort
              case SameAsRoutePort => callbackPort == appPort
              case SameAsDaemon => callbackPort == cfg.port || (cfg.tlsEnabled && callbackPort == cfg.tlsPort)
              case UsedBy(name) =>
                exists r :: r in routes && r.name == name != routeName && r.oauthCallbackPort == callbackPort
  {
    if callbackPort < 1 || callbackPort > 65535 {
      return Some(OutOfRange);
    }
    if appPort > 0 && callbackPort == appPort {
      return Some(SameAsRoutePort);
    }
    if callbackPort == cfg.port || (cfg.tlsEnabled && callbackPort == cfg.tlsPort) {
      return Some(SameAsDaemon);
    }
    var i := 0;
    while i < |routes|
      invariant 0 <= i <= |routes|
      invariant forall j | 0 <= j < i :: routes[j].name != routeName ==> routes[j].oauthCallbackPort != callbackPort
    {
      if routes[i].name != routeName && routes[i].oauthCallbackPort == callbackPort {
        return Some(UsedBy(routes[i].name));
      }
      i := i + 1;
    }
    return None;
  }

  /** Every bridge a route declares is acceptable. */
  ghost predicate AllConfigsOk(cfg: Config, routes: seq<Route>) {
    forall r | r in routes && r.oauthCallbackPort > 0 :: ConfigOk(cfg, routes, r.name, r.port, r.oauthCallbackPort)
  }

  ghost function Wanted(routes: seq<Route>): set<nat> {
    set r | r in routes && r.oauthCallbackPort > 0 :: r.oauthCallbackPort as nat
  }

  datatype BridgeError = Invalid(reason: ConfigError) | Unavailable(port: nat)

  class BridgeServer {
    const cfg: Config
    /** Each maps a port to the listener that was bound, and to the listener that a server serves. */
    var listeners: map<nat, nat>
    var servers: map<nat, nat>

    constructor (cfg: Config)
      ensures this.cfg == cfg && Valid() && servers == map[]
    {
      this.cfg := cfg;
      listeners, servers := map[], map[];
    }

    /** One server per listener and the other way round. */
    ghost predicate Valid()
      reads this
    {
      servers == listeners
    }

    /** What reconciliation has to bring about, in one pass over the listing and without touching the
        running bridges: the ports wanted, or the first complaint. */
    method WantedPorts(routes: seq<Route>) returns (wanted: set<nat>, err: Option<ConfigError>)
      ensures err.None? <==> AllConfigsOk(cfg, routes)
      ensures err.None? ==> wanted == Wanted(routes)
    {
      wanted, err := {}, None;
      var i := 0;
      while i < |routes|
        invariant 0 <= i <= |routes| && err == None
        invariant forall j | 0 <= j < i && routes[j].oauthCallbackPort > 0 ::
                    ConfigOk(cfg, routes, routes[j].name, routes[j].port, routes[j].oauthCallbackPort)
        invariant wanted == Wanted(routes[..i])
      {
        var r := routes[i];
        assert routes[..i + 1] == routes[..i] + [r];
        if r.oauthCallbackPort > 0 {
          err := ValidateOAuthBridgeConfig(cfg, routes, r.name, r.port, r.oauthCallbackPort);
          if err.Some? {
            return;
          }
          wanted := wanted + {r.oauthCallbackPort};
        }
        i := i + 1;
      }
      assert routes[..i] == routes;
    }

    /** Succeeds exactly when every declared bridge is acceptable and each wanted port that is not served
        yet can be bound. `bindable` gives the listener that binding a port would produce. */
    method Reconcile(routes: seq<Route>, bindable: map<nat, nat>) returns (err: Option<BridgeError>)
      requires Valid()
      modifies this
      ensures Valid()
      ensures err.None? <==> AllConfigsOk(cfg, routes) && Wanted(routes) <= old(servers.Keys) + bindable.Keys
      ensures err.None? ==> servers.Keys == Wanted(routes)
      ensures err.Some? && err.value.Invalid? ==> servers == old(servers)
      ensures err.Some? && err.value.Unavailable? ==>
              && err.value.port in Wanted(routes) - bindable.Keys - old(servers.Keys)
              && Wanted(routes) * old(servers.Keys) <= servers.Keys <= Wanted(routes)
      ensures forall p | p in servers ::
              servers[p] == (if p in old(servers) then old(servers[p]) else if p in bindable then bindable[p] else 0)
    {
      var wanted, bad := WantedPorts(routes);
      if bad.Some? {
        return Some(Invalid(bad.value));
      }
      var running: set<nat> := servers.Keys;
      while running != {}
        invariant Valid()
        invariant running <= servers.Keys <= old(servers.Keys)
        invariant forall p | p in servers :: servers[p] == old(servers[p])
        invariant servers.Keys == running + wanted * old(servers.Keys)
      {
        var port :| port in running;
        running := running - {port};
        if port in wanted {
          continue;
        }
        servers := servers - {port};
        listeners := listeners - {port};
      }
      var todo := wanted;
      while todo != {}
        invariant Valid() && todo <= wanted
        invariant servers.Keys <= wanted && wanted * old(servers.Keys) <= servers.Keys && wanted - todo <= servers.Keys
        invariant servers.Keys <= old(servers.Keys) + bindable.Keys
        invariant forall p | p in servers ::
                    servers[p] ==
                    (if p in old(servers) then old(servers[p]) else if p in bindable then bindable[p] else 0)
      {
        var port :| port in todo;
        todo := todo - {port};
        if port in servers {
          continue;
        }
        if port !in bindable {
          return Some(Unavailable(port));
        }
        servers := servers[port := bindable[port]];
        listeners := listeners[port := bindable[port]];
      }
      return None;
    }

    method StopAll()
      requires Valid()
      modifies this
      ensures Valid() && servers == map[]
    {
      var running: set<nat> := servers.Keys;
      while running != {}
        invariant Valid() && servers.Keys == running
      {
        var port :| port in running;
        running := running - {port};
        servers := servers - {port};
        listeners := listeners - {port};
      }
    }
  }

  /** What a successful reconciliation says about the table: the wanted ports and the routes that declare
      one correspond one to one, and no such port is the route's own, the daemon's, or out of range. */
  lemma AcceptedBridgesAreExclusive(cfg: Config, routes: seq<Route>)
    requires forall i, j | 0 <= i < |routes| && 0 <= j < |routes| && routes[i].name == routes[j].name :: i == j
    ensures AllConfigsOk(cfg, routes) <==>
            && OneOwnerPerPort(routes)
            && (forall p | p in Wanted(routes) ::
                  && p <= 65535 && p != cfg.port && (cfg.tlsEnabled ==> p != cfg.tlsPort)
                  && Owner(routes, p).Some?
                  && (forall r | r in routes && r.oauthCallbackPort == p :: Owner(routes, p) == Some(r) && r.port != p))
  {
    if AllConfigsOk(cfg, routes) {
      forall x, y | x in routes && y in routes && x.oauthCallbackPort > 0 && x.oauthCallbackPort == y.oauthCallbackPort
        ensures x == y
      {
        assert ConfigOk(cfg, routes, x.name, x.port, x.oauthCallbackPort);
      }
      forall r | r in routes && r.oauthCallbackPort > 0
        ensures r.port != r.oauthCallbackPort
      {
        assert ConfigOk(cfg, routes, r.name, r.port, r.oauthCallbackPort);
      }
    } else {
      var r :| r in routes && r.oauthCallbackPort > 0 && !ConfigOk(cfg, routes, r.name, r.port, r.oauthCallbackPort);
      assert r.oauthCallbackPort in Wanted(routes);
    }
  }
}
