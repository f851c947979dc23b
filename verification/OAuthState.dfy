/** internal/daemon/oauth_worktree.go: tagging the state of an authorize URL, and reading the tag back. */
module OAuthState {
  import opened Text
  import opened Urls

  const PREFIX := "vibewt1!"

  function WrapOAuthState(routeName: string, state: string): string {
    PREFIX + routeName + "!" + state
  }

  datatype Tag = Tagged(routeName: string, original: string) | Untagged

  function ParseWrappedOAuthState(state: string): Tag {
    if !HasPrefix(state, PREFIX) then Untagged
    else
      var rest := state[|PREFIX|..];
      var i := IndexOf(rest, '!');
      if i < 0 then Untagged else Tagged(rest[..i], rest[i + 1..])
  }

  lemma UnwrapsWrapped(routeName: string, original: string)
    requires '!' !in routeName
    ensures ParseWrappedOAuthState(WrapOAuthState(routeName, original)) == Tagged(routeName, original)
  {
    var state := WrapOAuthState(routeName, original);
    var rest := state[|PREFIX|..];
    assert rest == routeName + ['!'] + original;
    IndexOfFirst(routeName, '!', original);
    assert rest[..|routeName|] == routeName && rest[|routeName| + 1..] == original;
  }

  lemma OnlyWrappedUnwraps(state: string)
    requires ParseWrappedOAuthState(state).Tagged?
    ensures var tag := ParseWrappedOAuthState(state);
            '!' !in tag.routeName && state == WrapOAuthState(tag.routeName, tag.original)
  {
    Rejoined(state, PREFIX, IndexOf(state[|PREFIX|..], '!'));
  }

  lemma Rejoined(state: string, prefix: string, i: int)
    requires prefix <= state && 0 <= i < |state| - |prefix| && state[|prefix| + i] == '!'
    ensures var rest := state[|prefix|..]; state == prefix + rest[..i] + "!" + rest[i + 1..]
  {
    var rest := state[|prefix|..];
    assert rest == rest[..i] + [rest[i]] + rest[i + 1..];
  }

  /** Unwrapping undoes wrapping for every name without '!', and a tag is only ever read off a state that
      wrapping could have made. */
  lemma TagRoundTrip(routeName: string, original: string, state: string)
    requires '!' !in routeName
    ensures ParseWrappedOAuthState(state) == Tagged(routeName, original) <==>
            state == WrapOAuthState(routeName, original)
  {
    UnwrapsWrapped(routeName, original);
    if ParseWrappedOAuthState(state).Tagged? {
      OnlyWrappedUnwraps(state);
    }
  }

  predicate IsBridgeHost(host: string, bridgePort: nat) {
    host == "localhost:" + Decimal(bridgePort) || host == "127.0.0.1:" + Decimal(bridgePort)
  }

  /** The authorize URLs that get a tag: bound to the bridge, with a state that is not tagged already. */
  predicate Qualifies(c: Codec, u: Url, bridgePort: nat) {
    var redirect := Get(u.query, "redirect_uri");
    && redirect != ""
    && !HasPrefix(Get(u.query, "state"), PREFIX)
    && c.parse(redirect).Some?
    && IsBridgeHost(c.parse(redirect).value.host, bridgePort)
  }

  function TaggedUrl(u: Url, routeName: string): Url {
    u.(query := Set(u.query, "state", WrapOAuthState(routeName, Get(u.query, "state"))))
  }

  method TagAuthorizeURL(c: Codec, u: Url, routeName: string, bridgePort: nat) returns (s: string, ok: bool)
    ensures ok <==> Qualifies(c, u, bridgePort)
    ensures s == if ok then c.render(TaggedUrl(u, routeName)) else ""
  {
    var q := u.query;
    var state := Get(q, "state");
    var redirectURI := Get(q, "redirect_uri");
    if redirectURI == "" || HasPrefix(state, PREFIX) {
      return "", false;
    }
    var ru := c.parse(redirectURI);
    if ru.None? || !IsBridgeHost(ru.value.host, bridgePort) {
      return "", false;
    }
    q := Set(q, "state", WrapOAuthState(routeName, state));
    return c.render(u.(query := q)), true;
  }

  /** The string values that are rewritten, in a Location header or in a JSON body. */
  predicate Taggable(c: Codec, s: string, bridgePort: nat) {
    c.parse(s).Some? && IsWeb(c.parse(s).value) && Qualifies(c, c.parse(s).value, bridgePort)
  }

  function TagString(c: Codec, s: string, routeName: string, bridgePort: nat): string {
    if Taggable(c, s, bridgePort) then c.render(TaggedUrl(c.parse(s).value, routeName)) else s
  }

  /** A string is rewritten exactly if it is a web URL whose redirect URI is on one of the bridge's two hosts and whose
      state is not tagged already; then only its state changes. Every other string is left as it is. */
  lemma RewritesExactlyBridgeUrls(c: Codec, s: string, routeName: string, bridgePort: nat, redirect: string,
                                  state: string)
    requires c.parse(s).Some? ==>
               var q := c.parse(s).value.query; Carries(q, "redirect_uri", redirect) && Carries(q, "state", state)
    ensures TagString(c, s, routeName, bridgePort) ==
              if && c.parse(s).Some? && c.parse(s).value.scheme in {"http", "https"} && c.parse(s).value.host != ""
                 && redirect != "" && c.parse(redirect).Some?
                 && (c.parse(redirect).value.host == "localhost:" + Decimal(bridgePort)
                     || c.parse(redirect).value.host == "127.0.0.1:" + Decimal(bridgePort))
                 && !("vibewt1!" <= state)
              then
                var u := c.parse(s).value;
                c.render(u.(query := u.query["state" := ["vibewt1!" + routeName + "!" + state]]))
              else s
  {
    if c.parse(s).Some? {
      var q := c.parse(s).value.query;
      assert Get(q, "redirect_uri") == redirect && Get(q, "state") == state;
      var tagged := WrapOAuthState(routeName, state);
      assert tagged == "vibewt1!" + routeName + "!" + state;
    }
  }

  /** A tagged string differs from the one it came from, parses to the tagged URL, and is not taggable. */
  lemma TaggedOnce(c: Codec, s: string, routeName: string, bridgePort: nat)
    requires Faithful(c) && Taggable(c, s, bridgePort)
    ensures var t := TagString(c, s, routeName, bridgePort);
            t != s && c.parse(t) == Some(TaggedUrl(c.parse(s).value, routeName)) && !Taggable(c, t, bridgePort)
  {
    var u := c.parse(s).value;
    var tagged := TaggedUrl(u, routeName);
    assert tagged == u.(query := tagged.query) && ValidQuery(tagged.query);
    assert c.parse(c.render(u.(query := tagged.query))) == Some(tagged);
    var state := WrapOAuthState(routeName, Get(u.query, "state"));
    assert state == PREFIX + (routeName + "!" + Get(u.query, "state"));
    assert Get(tagged.query, "state") == state;
  }

  class Response {
    var statusCode: int
    var location: string

    method TagOAuthAuthorizeRedirect(c: Codec, routeName: string, bridgePort: nat)
      modifies this
      ensures statusCode == old(statusCode)
      ensures location == if 300 <= old(statusCode) <= 399 && old(location) != ""
                          then TagString(c, old(location), routeName, bridgePort) else old(location)
    {
      if statusCode < 300 || statusCode > 399 {
        return;
      }
      var loc := location;
      if loc == "" {
        return;
      }
      var u := c.parse(loc);
      if u.None? || (u.value.scheme != "http" && u.value.scheme != "https") || u.value.host == "" {
        return;
      }
      var tagged, ok := TagAuthorizeURL(c, u.value, routeName, bridgePort);
      if ok {
        location := tagged;
      }
    }
  }
}
