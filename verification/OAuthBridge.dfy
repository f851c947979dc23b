/** internal/daemon/oauth_bridge.go: the callback handler, and the whole trip of an OAuth state through
    worktree proxy, provider and bridge. */
module OAuthBridge {
  import opened Text
  import opened Urls
  import opened RouteNames
  import opened OAuthState

  /** What the bridge looks at in a route. */
  datatype Route = Route(name: string, parent: string, port: int, oauthCallbackPort: int)

  /** RouteTable.Get, over what RouteTable.List returns. */
  function Lookup(routes: seq<Route>, name: string): (r: Option<Route>)
    ensures r.Some? ==> r.value in routes && r.value.name == name
    ensures r.None? ==> forall x | x in routes :: x.name != name
  {
    if routes == [] then None
    else if routes[0].name == name then Some(routes[0])
    else Lookup(routes[1..], name)
  }

  /** A listing of the table: one route per name, every name legal and parent set from it. */
  ghost predicate IsTable(routes: seq<Route>) {
    && (forall i, j | 0 <= i < |routes| && 0 <= j < |routes| && routes[i].name == routes[j].name :: i == j)
    && (forall r | r in routes :: ParseRouteName(r.name) == Ok(r.parent))
  }

  /** No two routes own the same bridge; reconciliation keeps it so (see BridgeListeners). */
  ghost predicate OneOwnerPerPort(routes: seq<Route>) {
    forall x, y | x in routes && y in routes && x.oauthCallbackPort > 0 && x.oauthCallbackPort == y.oauthCallbackPort ::
      x == y
  }

  function Owner(routes: seq<Route>, callbackPort: int): (r: Option<Route>)
    ensures r.Some? ==> r.value in routes && r.value.oauthCallbackPort == callbackPort
    ensures r.None? ==> forall x | x in routes :: x.oauthCallbackPort != callbackPort
  {
    if routes == [] then None
    else if routes[0].oauthCallbackPort == callbackPort then Some(routes[0])
    else Owner(routes[1..], callbackPort)
  }

  datatype Reply = NotFound | Redirect(target: Url)

  /** Where a callback for `owner` goes, and with which query. */
  function Forward(routes: seq<Route>, owner: Route, q: Query): (string, Query) {
    match ParseWrappedOAuthState(Get(q, "state"))
    case Untagged => (owner.name, q)
    case Tagged(name, orig) =>
      var wt := Lookup(routes, name);
      if wt.Some? && wt.value.parent == owner.name then
        (name, if orig == "" then Del(q, "state") else Set(q, "state", orig))
      else (owner.name, q)
  }

  function Bridged(routes: seq<Route>, scheme: string, tld: string, callbackPort: int, u: Url): Reply {
    match Owner(routes, callbackPort)
    case None => NotFound
    case Some(owner) =>
      var (name, q) := Forward(routes, owner, u.query);
      Redirect(Url(scheme, name + "." + tld, u.path, q))
  }

  method HandleOAuthCallbackBridge(routes: seq<Route>, scheme: string, tld: string, callbackPort: int, u: Url)
      returns (reply: Reply)
    ensures reply == Bridged(routes, scheme, tld, callbackPort, u)
  {
    var route: Option<Route> := None;
    var i := 0;
    while i < |routes|
      invariant 0 <= i <= |routes|
      invariant route == None && Owner(routes, callbackPort) == Owner(routes[i..], callbackPort)
    {
      if routes[i].oauthCallbackPort == callbackPort {
        route := Some(routes[i]);
        break;
      }
      i := i + 1;
    }
    if route.None? {
      return NotFound;
    }
    var q, name := u.query, route.value.name;
    var tag := ParseWrappedOAuthState(Get(q, "state"));
    if tag.Tagged? {
      var wt := Lookup(routes, tag.routeName);
      if wt.Some? && wt.value.parent == route.value.name {
        if tag.original == "" {
          q := Del(q, "state");
        } else {
          q := Set(q, "state", tag.original);
        }
        name := wt.value.name;
      }
    }
    return Redirect(Url(scheme, name + "." + tld, u.path, q));
  }

  /** The first route of the listing with the bridge's port. */
  ghost predicate FirstOwner(routes: seq<Route>, callbackPort: int, i: nat) {
    && i < |routes| && routes[i].oauthCallbackPort == callbackPort
    && forall j | 0 <= j < i :: routes[j].oauthCallbackPort != callbackPort
  }

  /** The first route of the listing with this name is a worktree of this parent. */
  ghost predicate IsWorktree(routes: seq<Route>, name: string, parent: string) {
    exists k :: 0 <= k < |routes| && routes[k].name == name && routes[k].parent == parent
                && forall j | 0 <= j < k :: routes[j].name != name
  }

  lemma {:induction false} OwnerIsFirst(routes: seq<Route>, callbackPort: int, i: nat)
    requires FirstOwner(routes, callbackPort, i)
    ensures Owner(routes, callbackPort) == Some(routes[i])
  {
    if i > 0 {
      OwnerIsFirst(routes[1..], callbackPort, i - 1);
    }
  }

  lemma {:induction false} LookupIsFirst(routes: seq<Route>, name: string, parent: string)
    ensures IsWorktree(routes, name, parent) <==>
            Lookup(routes, name).Some? && Lookup(routes, name).value.parent == parent
  {
    if routes != [] && routes[0].name != name {
      var rest := routes[1..];
      LookupIsFirst(rest, name, parent);
      assert forall k | 0 <= k < |rest| :: rest[k] == routes[k + 1];
      if IsWorktree(rest, name, parent) {
        var k :| 0 <= k < |rest| && rest[k].name == name && rest[k].parent == parent
                 && forall j | 0 <= j < k :: rest[j].name != name;
        assert forall j | 0 <= j < k + 1 :: routes[j].name != name;
      }
      if IsWorktree(routes, name, parent) {
        var k :| 0 <= k < |routes| && routes[k].name == name && routes[k].parent == parent
                 && forall j | 0 <= j < k :: routes[j].name != name;
        assert rest[k - 1].name == name && forall j | 0 <= j < k - 1 :: rest[j].name != name;
      }
    }
  }

  /** A callback whose state is not the tag of a worktree of the bridge's owner, because it has no state, or one of
      another form, or a tag with another name, goes to the owner as it came: only scheme and host change. */
  lemma StrangersGoToTheOwner(routes: seq<Route>, scheme: string, tld: string, callbackPort: int, u: Url, i: nat,
                              state: string)
    requires FirstOwner(routes, callbackPort, i) && Carries(u.query, "state", state)
    requires forall name, orig | '!' !in name && state == "vibewt1!" + name + "!" + orig ::
               !IsWorktree(routes, name, routes[i].name)
    ensures Bridged(routes, scheme, tld, callbackPort, u) ==
            Redirect(Url(scheme, routes[i].name + "." + tld, u.path, u.query))
  {
    OwnerIsFirst(routes, callbackPort, i);
    assert Get(u.query, "state") == state;
    var tag := ParseWrappedOAuthState(state);
    if tag.Tagged? {
      OnlyWrappedUnwraps(state);
      assert state == "vibewt1!" + tag.routeName + "!" + tag.original;
      LookupIsFirst(routes, tag.routeName, routes[i].name);
    }
  }

  /** One whose state is such a tag goes to the worktree with the state it wraps, or none if that is empty. */
  lemma TagsGoToTheirWorktree(routes: seq<Route>, scheme: string, tld: string, callbackPort: int, u: Url, i: nat,
                              name: string, orig: string)
    requires FirstOwner(routes, callbackPort, i) && IsWorktree(routes, name, routes[i].name)
    requires '!' !in name && Carries(u.query, "state", "vibewt1!" + name + "!" + orig)
    ensures Bridged(routes, scheme, tld, callbackPort, u) ==
            Redirect(Url(scheme, name + "." + tld, u.path,
                         if orig == "" then u.query - {"state"} else u.query["state" := [orig]]))
  {
    OwnerIsFirst(routes, callbackPort, i);
    LookupIsFirst(routes, name, routes[i].name);
    assert Get(u.query, "state") == WrapOAuthState(name, orig);
    UnwrapsWrapped(name, orig);
  }

  /** A bridge nobody owns answers not found, and that is the only time it does. */
  lemma OnlyUnownedIsNotFound(routes: seq<Route>, scheme: string, tld: string, callbackPort: int, u: Url)
    ensures Bridged(routes, scheme, tld, callbackPort, u) == NotFound <==>
            forall r | r in routes :: r.oauthCallbackPort != callbackPort
  {
  }

  // ---- The whole trip ----

  /** The provider's answer (sections 3.1.2 and 4.1.2 of RFC 6749): back to the redirect URI, its own query kept,
      with the provider's parameters and the request's state, exactly as received, added to it. */
  function ProviderReply(authorize: Url, redirect: Url, added: Query): Url {
    redirect.(query := WithState(redirect.query + added, authorize.query))
  }

  function WithState(q: Query, from: Query): Query {
    if "state" !in from then q
    else q["state" := if "state" in q then q["state"] + from["state"] else from["state"]]
  }

  /** What the app expects to get back: its own state, and no state if it sent none or an empty one. */
  function Expected(q: Query): Query {
    if "state" in q && q["state"] == [""] then Del(q, "state") else q
  }

  /** The bridge port under which the proxy tags a route's responses: its parent's, unless it has its own. */
  function TagPort(routes: seq<Route>, route: Route): int {
    if route.oauthCallbackPort != 0 || route.parent == "" then 0
    else
      match Lookup(routes, route.parent)
      case None => 0
      case Some(parent) => parent.oauthCallbackPort
  }

  /** A Location header or JSON string of a worktree's response, as it leaves the proxy. */
  function Proxied(c: Codec, routes: seq<Route>, wt: Route, s: string): string {
    var port := TagPort(routes, wt);
    if port > 0 then TagString(c, s, wt.name, port) else s
  }

  function RedirectUri(c: Codec, u: Url): Option<Url> {
    c.parse(Get(u.query, "redirect_uri"))
  }

  /** An authorize URL bound to the bridge, and the provider's own parameters. */
  ghost predicate BoundForBridge(c: Codec, s: string, port: nat, added: Query) {
    && c.parse(s).Some? && IsWeb(c.parse(s).value)
    && var u := c.parse(s).value;
    && Get(u.query, "redirect_uri") != ""
    && RedirectUri(c, u).Some? && IsBridgeHost(RedirectUri(c, u).value.host, port)
    && "state" !in added
  }

  /** The trip of one authorize URL written by worktree `wt`: the proxy may tag it, the browser follows it,
      the provider answers, the bridge forwards. */
  ghost function Trip(c: Codec, routes: seq<Route>, scheme: string, tld: string, wt: Route, s: string,
                      added: Query): Reply {
    match c.parse(Proxied(c, routes, wt, s))
    case None => NotFound
    case Some(u) =>
      match RedirectUri(c, u)
      case None => NotFound
      case Some(redirect) => Bridged(routes, scheme, tld, TagPort(routes, wt), ProviderReply(u, redirect, added))
  }

  lemma TagPortIsTheParents(routes: seq<Route>, parent: Route, wt: Route)
    requires IsTable(routes) && wt in routes && parent in routes
    requires wt.parent == parent.name && wt.oauthCallbackPort == 0 && parent.oauthCallbackPort > 0
    ensures TagPort(routes, wt) == parent.oauthCallbackPort
  {
    assert ParseRouteName(parent.name) == Ok(parent.parent);
    assert parent.name != "";
  }

  lemma OwnerIsTheParent(routes: seq<Route>, wt: Route)
    requires IsTable(routes) && OneOwnerPerPort(routes) && wt in routes && TagPort(routes, wt) > 0
    ensures Owner(routes, TagPort(routes, wt)) == Lookup(routes, wt.parent)
    ensures Lookup(routes, wt.parent).Some? && Lookup(routes, wt.name) == Some(wt) && '!' !in wt.name
    ensures wt.name != wt.parent
  {
    LegalNames(wt.name);
  }

  lemma PrefixedStateStrays(routes: seq<Route>, owner: Route, wt: Route, base: Query, sent: Query)
    requires "state" !in base && HasPrefix(Get(sent, "state"), PREFIX) && owner.name != wt.name
    ensures var q := WithState(base, sent);
            var (name, forwarded) := Forward(routes, owner, q);
            name != wt.name || forwarded != Expected(q)
  {
    var q, state := WithState(base, sent), Get(sent, "state");
    assert "state" in sent && Get(q, "state") == state && q["state"] != [""];
    if ParseWrappedOAuthState(state).Tagged? {
      OnlyWrappedUnwraps(state);
      var orig := ParseWrappedOAuthState(state).original;
      assert Set(q, "state", orig)["state"] == [orig];
    }
  }

  lemma TaggedStateReturns(routes: seq<Route>, owner: Route, wt: Route, base: Query, sent: Query)
    requires "state" !in base && ValidQuery(sent) && '!' !in wt.name
    requires Lookup(routes, wt.name) == Some(wt) && wt.parent == owner.name
    ensures var (name, forwarded) :=
              Forward(routes, owner, base["state" := [WrapOAuthState(wt.name, Get(sent, "state"))]]);
            && name == wt.name
            && (forwarded == Expected(WithState(base, sent)) <==> ("state" in sent ==> |sent["state"]| == 1))
  {
    var state := Get(sent, "state");
    var tagged := base["state" := [WrapOAuthState(wt.name, state)]];
    UnwrapsWrapped(wt.name, state);
    assert Get(tagged, "state") == WrapOAuthState(wt.name, state);
    var forwarded := if state == "" then Del(tagged, "state") else Set(tagged, "state", state);
    assert Forward(routes, owner, tagged) == (wt.name, forwarded);
    if state == "" {
      assert forwarded == base;
      assert Del(base["state" := [""]], "state") == base;
    } else {
      assert forwarded == base["state" := [state]];
      assert forwarded["state"] == [state];
    }
    if "state" in sent {
      assert |sent["state"]| == 1 ==> sent["state"] == [state];
    }
  }

  /** A redirect URI with a state of its own: that one is read, so the callback strays or loses it. */
  lemma OwnStateStrays(routes: seq<Route>, owner: Route, wt: Route, base: Query, sent: Query, received: Query)
    requires "state" in base && base["state"] != [] && owner.name != wt.name
    ensures var (name, forwarded) := Forward(routes, owner, WithState(base, received));
            name != wt.name || forwarded != Expected(WithState(base, sent))
  {
    var q, expected, own := WithState(base, received), WithState(base, sent), base["state"][0];
    assert q["state"][0] == expected["state"][0] == Get(q, "state") == own;
    if ParseWrappedOAuthState(own).Tagged? {
      OnlyWrappedUnwraps(own);
      var orig := ParseWrappedOAuthState(own).original;
      assert |own| > |orig| && expected["state"] != [""] && Expected(expected) == expected;
      assert Set(q, "state", orig)["state"] == [orig];
    }
  }

  lemma HostsDiffer(a: string, b: string, tld: string)
    requires a != b
    ensures a + "." + tld != b + "." + tld
  {
    var x, y := a + "." + tld, b + "." + tld;
    assert a == x[..|a|] && b == y[..|b|];
  }

  /** A callback under another name goes to another host. */
  lemma Strays(routes: seq<Route>, owner: Route, wt: Route, tld: string, q: Query)
    ensures Forward(routes, owner, q).0 != wt.name ==> Forward(routes, owner, q).0 + "." + tld != wt.name + "." + tld
  {
    if Forward(routes, owner, q).0 != wt.name {
      HostsDiffer(Forward(routes, owner, q).0, wt.name, tld);
    }
  }

  /** What the browser follows: the app's URL, or the same one with a tagged state. */
  lemma ProxiedParses(c: Codec, routes: seq<Route>, wt: Route, s: string, added: Query)
    requires Faithful(c) && TagPort(routes, wt) > 0 && BoundForBridge(c, s, TagPort(routes, wt), added)
    ensures var u := c.parse(s).value;
            var v := if HasPrefix(Get(u.query, "state"), PREFIX) then u else TaggedUrl(u, wt.name);
            c.parse(Proxied(c, routes, wt, s)) == Some(v) && RedirectUri(c, v) == RedirectUri(c, u)
  {
    if Taggable(c, s, TagPort(routes, wt)) {
      TaggedOnce(c, s, wt.name, TagPort(routes, wt));
    }
  }

  /** Responses of a route with a bridge of its own, or whose parent has none, are not tagged. */
  lemma OthersAreNotTagged(c: Codec, routes: seq<Route>, route: Route, s: string)
    requires || route.oauthCallbackPort != 0 || route.parent == ""
             || forall r | r in routes && r.name == route.parent :: r.oauthCallbackPort <= 0
    ensures Proxied(c, routes, route, s) == s
  {
  }

  /** The app in a worktree gets its callback on the worktree's own host, at the redirect URI's path, with
      the original state and every other parameter as the provider sent it, exactly when it sent at most
      one state, that state does not begin with vibe's own tag prefix, and its redirect URI has no state. */
  lemma CallbackReturnsToTheWorktree(c: Codec, routes: seq<Route>, scheme: string, tld: string, parent: Route,
                                     wt: Route, s: string, added: Query)
    requires IsTable(routes) && OneOwnerPerPort(routes) && wt in routes && parent in routes
    requires wt.parent == parent.name && wt.oauthCallbackPort == 0 && parent.oauthCallbackPort > 0
    requires Faithful(c) && BoundForBridge(c, s, parent.oauthCallbackPort, added)
    ensures var u := c.parse(s).value;
            var redirect := RedirectUri(c, u).value;
            Trip(c, routes, scheme, tld, wt, s, added) ==
              Redirect(Url(scheme, wt.name + "." + tld, redirect.path,
                  Expected(ProviderReply(u, redirect, added).query)))
            <==> && ("state" in u.query ==> |u.query["state"]| == 1 && !HasPrefix(u.query["state"][0], PREFIX))
                 && "state" !in redirect.query
  {
    TagPortIsTheParents(routes, parent, wt);
    OwnerIsTheParent(routes, wt);
    ProxiedParses(c, routes, wt, s, added);
    var u := c.parse(s).value;
    assert ValidQuery(u.query);
    var redirect := RedirectUri(c, u).value;
    var owner := Owner(routes, TagPort(routes, wt)).value;
    var base := redirect.query + added;
    if "state" in redirect.query {
      var v := c.parse(Proxied(c, routes, wt, s)).value;
      assert base["state"] == redirect.query["state"];
      OwnStateStrays(routes, owner, wt, base, u.query, v.query);
      Strays(routes, owner, wt, tld, WithState(base, v.query));
    } else if HasPrefix(Get(u.query, "state"), PREFIX) {
      PrefixedStateStrays(routes, owner, wt, base, u.query);
      Strays(routes, owner, wt, tld, WithState(base, u.query));
    } else {
      assert WithState(base, TaggedUrl(u, wt.name).query)
          == base["state" := [WrapOAuthState(wt.name, Get(u.query, "state"))]];
      TaggedStateReturns(routes, owner, wt, base, u.query);
    }
  }
}
