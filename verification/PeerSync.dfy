/** internal/daemon/peer_sync.go: refreshing the peer route cache. */
module PeerSync {
  import opened Text
  import opened PeerRows

  /** The strong ETag of a list, a hash taken as collision-free. */
  datatype ETag = NoTag | Hash(list: seq<Summary>)

  /** peerState: its list, tag and single-flight guard. */
  datatype PeerState = PeerState(routes: seq<Summary>, etag: ETag, refreshing: bool)

  const COLD := PeerState([], NoTag, false)

  type States = map<string, PeerState>

  function Warm(states: States, name: string): States {
    if name in states then states else states[name := COLD]
  }

  ghost function CacheOf(states: States): Cache {
    map n | n in states :: states[n].routes
  }

  /** What comes back: an error of any kind, or the peer's answer while its own list was `list`. The
      answer is 304 exactly when the tag sent is the list's own. */
  datatype Response = Failed | Answer(list: seq<Summary>)

  predicate NotModified(sent: ETag, resp: Response) {
    resp.Answer? && sent == Hash(resp.list)
  }

  /** The cached state after a response. */
  function Received(st: PeerState, sent: ETag, resp: Response): PeerState {
    if resp.Failed? || NotModified(sent, resp) then st else st.(routes := resp.list, etag := Hash(resp.list))
  }

  ghost function SummaryNames(list: seq<Summary>): set<string> {
    set i | 0 <= i < |list| :: list[i].name
  }

  /** What sameRouteNames computes. */
  ghost predicate SameNames(a: seq<Summary>, b: seq<Summary>) {
    |a| == |b| && SummaryNames(b) <= SummaryNames(a)
  }

  /** A response that makes the certificate be rebuilt. */
  ghost predicate Renames(st: PeerState, sent: ETag, resp: Response) {
    resp.Answer? && !NotModified(sent, resp) && !SameNames(st.routes, resp.list)
  }

  ghost predicate DistinctNames(list: seq<Summary>) {
    forall i, j | 0 <= i < j < |list| :: list[i].name != list[j].name
  }

  method SameRouteNames(a: seq<Summary>, b: seq<Summary>) returns (same: bool)
    ensures same <==> SameNames(a, b)
  {
    if |a| != |b| {
      return false;
    }
    var names: set<string> := {};
    var i := 0;
    while i < |a|
      invariant 0 <= i <= |a|
      invariant names == SummaryNames(a[..i])
    {
      NamesSnoc(a, i);
      names := names + {a[i].name};
      i := i + 1;
    }
    assert a[..i] == a;
    var j := 0;
    while j < |b|
      invariant 0 <= j <= |b|
      invariant forall k | 0 <= k < j :: b[k].name in names
    {
      if b[j].name !in names {
        assert b[j].name in SummaryNames(b);
        return false;
      }
      j := j + 1;
    }
    return true;
  }

  lemma NamesSnoc(a: seq<Summary>, i: nat)
    requires i < |a|
    ensures SummaryNames(a[..i + 1]) == SummaryNames(a[..i]) + {a[i].name}
  {
    var shorter, longer := a[..i], a[..i + 1];
    assert forall k | 0 <= k < i :: longer[k] == shorter[k];
    assert longer[i] == a[i];
  }

  lemma DistinctSnoc(a: seq<Summary>, n: nat)
    requires n < |a|
    ensures DistinctNames(a[..n + 1]) <==> DistinctNames(a[..n]) && a[n].name !in SummaryNames(a[..n])
  {
    var shorter, longer := a[..n], a[..n + 1];
    assert forall k | 0 <= k < n :: shorter[k] == longer[k];
    assert longer[n] == a[n];
    if a[n].name in SummaryNames(shorter) {
      var k :| 0 <= k < n && shorter[k].name == a[n].name;
      assert longer[k].name == longer[n].name;
    } else {
      assert forall k | 0 <= k < n :: shorter[k].name in SummaryNames(shorter);
    }
  }

  lemma {:induction false} CountNames(a: seq<Summary>)
    ensures |SummaryNames(a)| <= |a|
    ensures |SummaryNames(a)| == |a| <==> DistinctNames(a)
  {
    if a == [] {
      assert SummaryNames(a) == {};
    } else {
      var n := |a| - 1;
      CountNames(a[..n]);
      NamesSnoc(a, n);
      DistinctSnoc(a, n);
      assert a[..n + 1] == a;
      if a[n].name in SummaryNames(a[..n]) {
        assert SummaryNames(a) == SummaryNames(a[..n]);
      }
    }
  }

  /** For lists without repeated names the test compares the sets of names exactly: a pigeonhole. */
  lemma SameNamesOfDistinct(a: seq<Summary>, b: seq<Summary>)
    requires DistinctNames(a) && DistinctNames(b)
    ensures SameNames(a, b) <==> SummaryNames(a) == SummaryNames(b)
  {
    CountNames(a);
    CountNames(b);
    if SameNames(a, b) {
      SubsetOfSameSize(SummaryNames(b), SummaryNames(a));
    }
  }

  lemma SubsetOfSameSize(x: set<string>, y: set<string>)
    requires x <= y && |x| == |y|
    ensures x == y
  {
    assert y == x + (y - x);
    assert |y| == |x| + |y - x|;
  }

  /** Without that, a peer that repeats a name can hide one. */
  lemma RepeatedNameHidesOne(s: Summary, t: Summary) returns (a: seq<Summary>, b: seq<Summary>)
    requires s.name != t.name
    ensures SameNames(a, b) && SummaryNames(a) != SummaryNames(b)
  {
    a, b := [s, t], [s, s];
    assert a[0].name in SummaryNames(a) && a[1].name in SummaryNames(a);
    assert b[0].name in SummaryNames(b) && t.name !in SummaryNames(b);
  }

  lemma GuardIsNotCached(states: States, name: string, refreshing: bool)
    requires name in states
    ensures CacheOf(states[name := states[name].(refreshing := refreshing)]) == CacheOf(states)
  {
  }

  const SECOND := 1_000_000_000

  /** peerRefreshThrottle */
  const THROTTLE := 3 * SECOND

  /** The rest of peerState: when the last round trip began, when the last good one ended, and whether the last
      one failed, its text left aside. */
  datatype Sync = Sync(lastRefresh: Option<int>, lastOK: Option<int>, failed: bool)

  const NEVER := Sync(None, None, false)

  predicate Recent(sync: Sync, now: int) {
    sync.lastRefresh.Some? && now - sync.lastRefresh.value < THROTTLE
  }

  /** `covered` is the certificate as far as peers go: the names it covers. */
  class Server {
    var peerList: seq<Peer>
    var peerStates: States
    var syncs: map<string, Sync>
    var covered: set<string>

    ghost predicate Valid()
      reads this
    {
      syncs.Keys == peerStates.Keys
    }

    /** peerStateFor */
    method PeerStateFor(name: string) returns (st: PeerState)
      requires Valid()
      modifies this
      ensures Valid() && peerList == old(peerList) && covered == old(covered)
      ensures peerStates == Warm(old(peerStates), name) && st == peerStates[name]
      ensures syncs == if name in old(peerStates) then old(syncs) else old(syncs)[name := NEVER]
    {
      if name !in peerStates {
        peerStates := peerStates[name := COLD];
        syncs := syncs[name := NEVER];
      }
      st := peerStates[name];
    }

    /** What a response does while the guard is held. */
    method TakeResponse(name: string, etag: ETag, answered: int, resp: Response, reloads: bool)
      requires Valid() && name in peerStates
      modifies this
      ensures Valid() && peerList == old(peerList)
      ensures peerStates == old(peerStates)[name := Received(old(peerStates)[name], etag, resp)]
      ensures var sync := old(syncs)[name];
              syncs == old(syncs)[name := Sync(sync.lastRefresh, if resp.Answer? then Some(answered) else sync.lastOK,
                                               resp.Failed?)]
      ensures covered == if reloads && Renames(old(peerStates)[name], etag, resp)
                         then NamesOf(Rows(peerList, CacheOf(peerStates))) else old(covered)
    {
      var st, sync := peerStates[name], syncs[name];
      if resp.Failed? {
        syncs := syncs[name := sync.(failed := true)];
        return;
      }
      syncs := syncs[name := sync.(lastOK := Some(answered), failed := false)];
      if !NotModified(etag, resp) {
        var same := SameRouteNames(st.routes, resp.list);
        peerStates := peerStates[name := st.(routes := resp.list, etag := Hash(resp.list))];
        if !same {
          var ok := ReloadTLSCert(reloads);
        }
      }
    }

    /** One refresh, from the tag it sends to the reload, with nothing in between. The clock reads `entered` at
        the throttle, `begun` after the guard is taken and `answered` when the response is there. */
    method RefreshPeerRoutes(p: Peer, force: bool, entered: int, begun: int, answered: int, resp: Response,
                             reloads: bool)
      requires Valid()
      modifies this
      ensures Valid() && peerList == old(peerList)
      ensures var before := if p.name in old(peerStates) then old(peerStates)
                            else old(peerStates)[p.name := PeerState([], NoTag, false)];
              var st := before[p.name];
              var sync := if p.name in old(syncs) then old(syncs)[p.name] else Sync(None, None, false);
              var changed := resp.Answer? && st.etag != Hash(resp.list);
              var throttled := sync.lastRefresh.Some? && entered - sync.lastRefresh.value < 3_000_000_000;
              if (!force && throttled) || st.refreshing then
                peerStates == before && syncs[p.name] == sync && covered == old(covered)
              else
                && peerStates == (if changed then before[p.name := st.(routes := resp.list, etag := Hash(resp.list))]
                                  else before)
                && syncs[p.name] ==
                   Sync(Some(begun), if resp.Answer? then Some(answered) else sync.lastOK, resp.Failed?)
                && covered == if reloads && changed && !SameNames(st.routes, resp.list)
                              then NamesOf(Rows(peerList, CacheOf(peerStates))) else old(covered)
      ensures forall n | n in syncs && n != p.name :: n in old(syncs) && syncs[n] == old(syncs)[n]
    {
      var st := PeerStateFor(p.name);
      ghost var before := peerStates;
      var recent := Recent(syncs[p.name], entered);
      var etag := st.etag;
      if !force && recent {
        return;
      }
      if st.refreshing {
        return;
      }
      peerStates := peerStates[p.name := st.(refreshing := true)];
      syncs := syncs[p.name := syncs[p.name].(lastRefresh := Some(begun))];
      TakeResponse(p.name, etag, answered, resp, reloads);
      GuardIsNotCached(peerStates, p.name, false);
      peerStates := peerStates[p.name := peerStates[p.name].(refreshing := false)];
      ghost var got := Received(st, etag, resp);
      assert got == if resp.Answer? && etag != Hash(resp.list) then st.(routes := resp.list, etag := Hash(resp.list))
                    else st;
      assert peerStates == before[p.name := got];
    }

    /** reloadTLSCert run without interruption: the names are read, and stored if a certificate for them could be
        generated and loaded. */
    method ReloadTLSCert(generated: bool) returns (ok: bool)
      modifies this`covered
      ensures ok == generated
      ensures covered == if generated then NamesOf(Rows(peerList, CacheOf(peerStates))) else old(covered)
    {
      var cache := map n | n in peerStates :: peerStates[n].routes;
      var list := PeerRouteNames(peerList, cache);
      if !generated {
        return false;
      }
      covered := set n | n in list;
      return true;
    }

    /** peerCacheCold: some peer has neither answered nor failed yet. */
    method PeerCacheCold() returns (cold: bool)
      requires Valid()
      ensures cold <==> exists p | p in peerList ::
              p.name !in syncs || (syncs[p.name].lastOK.None? && !syncs[p.name].failed)
    {
      var i := 0;
      while i < |peerList|
        invariant 0 <= i <= |peerList|
        invariant forall k | 0 <= k < i ::
                  peerList[k].name in syncs && (syncs[peerList[k].name].lastOK.Some? || syncs[peerList[k].name].failed)
      {
        var name := peerList[i].name;
        if name !in syncs || (syncs[name].lastOK.None? && !syncs[name].failed) {
          return true;
        }
        i := i + 1;
      }
      return false;
    }
  }
}
