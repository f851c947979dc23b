/** The peer route cache as its readers see it: peerRouteFromCache and peerRouteNames in
    internal/daemon/peer_sync.go, tlsHostnames and the name order of routeRequest in
    internal/daemon/daemon.go, and the two listings in internal/daemon/dashboard.go and cmd/list.go. */
module PeerRows {
  import opened Text
  import opened RouteNames
  import Pairing

  type Peer = Pairing.Peer

  /** peer.RouteSummary */
  datatype Summary = Summary(name: string, kind: string, running: bool, ready: bool, icon: string)

  /** The cached list of every peer that has one, by peer name. */
  type Cache = map<string, seq<Summary>>

  /** One cached route and the peer it is listed under. */
  datatype Row = Row(peer: Peer, summary: Summary)

  function RowsOf(p: Peer, list: seq<Summary>): seq<Row> {
    seq(|list|, i requires 0 <= i < |list| => Row(p, list[i]))
  }

  function Cached(cache: Cache, p: Peer): seq<Summary> {
    if p.name in cache then cache[p.name] else []
  }

  /** The cached routes of the first n peers. */
  function RowsUpTo(peers: seq<Peer>, cache: Cache, n: nat): seq<Row>
    requires n <= |peers|
  {
    if n == 0 then [] else RowsUpTo(peers, cache, n - 1) + RowsOf(peers[n - 1], Cached(cache, peers[n - 1]))
  }

  /** Every cached route, in the order of peers.json and then of the peer's list. */
  function Rows(peers: seq<Peer>, cache: Cache): seq<Row> {
    RowsUpTo(peers, cache, |peers|)
  }

  /** The rows before route `j` of peer `i`. */
  function RowsBefore(peers: seq<Peer>, cache: Cache, i: nat, j: nat): seq<Row>
    requires i < |peers| && j <= |Cached(cache, peers[i])|
  {
    RowsUpTo(peers, cache, i) + RowsOf(peers[i], Cached(cache, peers[i])[..j])
  }

  lemma NextRow(peers: seq<Peer>, cache: Cache, i: nat, j: nat)
    requires i < |peers| && j < |Cached(cache, peers[i])|
    ensures RowsBefore(peers, cache, i, j + 1) ==
            RowsBefore(peers, cache, i, j) + [Row(peers[i], Cached(cache, peers[i])[j])]
  {
    var list := Cached(cache, peers[i]);
    assert RowsOf(peers[i], list[..j + 1]) == RowsOf(peers[i], list[..j]) + [Row(peers[i], list[j])];
  }

  lemma NextPeer(peers: seq<Peer>, cache: Cache, i: nat)
    requires i < |peers|
    ensures RowsBefore(peers, cache, i, 0) == RowsUpTo(peers, cache, i)
    ensures RowsBefore(peers, cache, i, |Cached(cache, peers[i])|) == RowsUpTo(peers, cache, i + 1)
  {
    assert Cached(cache, peers[i])[..|Cached(cache, peers[i])|] == Cached(cache, peers[i]);
  }

  lemma {:induction false} RowsPrefix(peers: seq<Peer>, cache: Cache, i: nat, n: nat)
    requires i <= n <= |peers|
    ensures RowsUpTo(peers, cache, i) <= RowsUpTo(peers, cache, n)
    decreases n
  {
    if i < n {
      RowsPrefix(peers, cache, i, n - 1);
    }
  }

  /** How many routes are cached for the first i peers. */
  ghost function Offset(peers: seq<Peer>, cache: Cache, i: nat): nat
    requires i <= |peers|
  {
    if i == 0 then 0
    else Offset(peers, cache, i - 1) + if peers[i - 1].name in cache then |cache[peers[i - 1].name]| else 0
  }

  lemma {:induction false} RowsCounted(peers: seq<Peer>, cache: Cache, i: nat)
    requires i <= |peers|
    ensures |RowsUpTo(peers, cache, i)| == Offset(peers, cache, i)
  {
    if i > 0 {
      RowsCounted(peers, cache, i - 1);
    }
  }

  /** The rows are the peers' lists one after the other, each row under its peer. */
  lemma RowsInOrder(peers: seq<Peer>, cache: Cache, i: nat, j: nat)
    requires i < |peers| && peers[i].name in cache && j < |cache[peers[i].name]|
    ensures var at := Offset(peers, cache, i) + j;
            && at < |Rows(peers, cache)| == Offset(peers, cache, |peers|)
            && Rows(peers, cache)[at] == Row(peers[i], cache[peers[i].name][j])
  {
    RowsCounted(peers, cache, i);
    RowsCounted(peers, cache, |peers|);
    RowsPrefix(peers, cache, i + 1, |peers|);
    var upTo := RowsUpTo(peers, cache, i + 1);
    assert upTo[Offset(peers, cache, i) + j] == Row(peers[i], cache[peers[i].name][j]);
  }

  predicate Named(rows: seq<Row>, name: string) {
    exists i | 0 <= i < |rows| :: rows[i].summary.name == name
  }

  ghost predicate FirstOfName(rows: seq<Row>, i: nat) {
    i < |rows| && forall k | 0 <= k < i :: rows[k].summary.name != rows[i].summary.name
  }

  // ---- Resolving one name ----

  /** The first row of that name, if there is one. */
  ghost predicate IsLookup(rows: seq<Row>, name: string, row: Option<Row>) {
    match row
    case None => !Named(rows, name)
    case Some(r) => r.summary.name == name && exists k | 0 <= k < |rows| :: FirstOfName(rows, k) && rows[k] == r
  }

  /** A row whose name has not come before is the first of its name in the whole list. */
  lemma FoundFirst(peers: seq<Peer>, cache: Cache, i: nat, j: nat)
    requires i < |peers| && j < |Cached(cache, peers[i])|
    requires !Named(RowsBefore(peers, cache, i, j), Cached(cache, peers[i])[j].name)
    ensures var sum := Cached(cache, peers[i])[j];
            IsLookup(Rows(peers, cache), sum.name, Some(Row(peers[i], sum)))
  {
    var before, rows := RowsBefore(peers, cache, i, j), Rows(peers, cache);
    RowsPrefix(peers, cache, i + 1, |peers|);
    var list := Cached(cache, peers[i]);
    assert RowsUpTo(peers, cache, i + 1) == before + RowsOf(peers[i], list[j..]);
    assert rows[|before|] == Row(peers[i], list[j]);
    assert forall k | 0 <= k < |before| :: rows[k] == before[k];
    assert FirstOfName(rows, |before|);
  }

  lemma NamedSnoc(rows: seq<Row>, row: Row, name: string)
    ensures Named(rows + [row], name) <==> Named(rows, name) || row.summary.name == name
  {
    var longer := rows + [row];
    assert longer[|rows|] == row && forall k | 0 <= k < |rows| :: longer[k] == rows[k];
    if Named(rows, name) {
      var k :| 0 <= k < |rows| && rows[k].summary.name == name;
      assert longer[k].summary.name == name;
    }
  }

  method PeerRouteFromCache(peers: seq<Peer>, cache: Cache, name: string) returns (row: Option<Row>)
    ensures IsLookup(Rows(peers, cache), name, row)
  {
    var i := 0;
    while i < |peers|
      invariant 0 <= i <= |peers|
      invariant !Named(RowsUpTo(peers, cache, i), name)
    {
      var p := peers[i];
      NextPeer(peers, cache, i);
      if p.name !in cache {
        i := i + 1;
        continue;
      }
      var j := 0;
      while j < |cache[p.name]|
        invariant 0 <= j <= |cache[p.name]|
        invariant !Named(RowsBefore(peers, cache, i, j), name)
      {
        NextRow(peers, cache, i, j);
        NamedSnoc(RowsBefore(peers, cache, i, j), Row(p, cache[p.name][j]), name);
        if cache[p.name][j].name == name {
          FoundFirst(peers, cache, i, j);
          return Some(Row(p, cache[p.name][j]));
        }
        j := j + 1;
      }
      i := i + 1;
    }
    return None;
  }

  /** So the answer is settled: the row at k, if that has the name and none before it has, and none if no row has. */
  lemma LookupIsTheFirst(rows: seq<Row>, name: string, row: Option<Row>)
    requires IsLookup(rows, name, row)
    ensures row.None? <==> forall k | 0 <= k < |rows| :: rows[k].summary.name != name
    ensures forall k | 0 <= k < |rows| && rows[k].summary.name == name
                       && (forall j | 0 <= j < k :: rows[j].summary.name != name) :: row == Some(rows[k])
  {
  }

  // ---- The two listings ----

  /** A row of the dashboard; an empty shadowedBy means that the row's address reaches it. */
  datatype DashboardRow = DashboardRow(peerName: string, name: string, ready: bool, shadowedBy: string)

  const THIS_MACHINE := "this machine"

  /** The displayed form of row i: who has the row's name, if that is this machine or an earlier row. */
  ghost predicate IsDisplayed(local: set<string>, rows: seq<Row>, i: nat, d: DashboardRow)
    requires i < |rows|
  {
    var name := rows[i].summary.name;
    && d.peerName == rows[i].peer.name && d.name == name && d.ready == rows[i].summary.ready
    && if name in local then d.shadowedBy == THIS_MACHINE
       else if FirstOfName(rows, i) then d.shadowedBy == ""
       else IsFirstPeer(rows, name, d.shadowedBy)
  }

  /** The first row with the name is of the peer with this name. */
  ghost predicate IsFirstPeer(rows: seq<Row>, name: string, peerName: string) {
    exists k | 0 <= k < |rows| :: FirstOfName(rows, k) && rows[k].summary.name == name && rows[k].peer.name == peerName
  }

  ghost predicate IsDashboard(local: set<string>, rows: seq<Row>, out: seq<DashboardRow>) {
    && |out| == |rows|
    && forall i | 0 <= i < |rows| :: IsDisplayed(local, rows, i, out[i])
  }

  /** The rows shown so far, and who has claimed which name. */
  ghost predicate Showing(local: set<string>, rows: seq<Row>, out: seq<DashboardRow>, claimed: map<string, string>) {
    IsDashboard(local, rows, out) && ClaimsMatch(local, rows, claimed)
  }

  /** `claimed` maps each name seen and not local to the peer of its first row. */
  ghost predicate ClaimsMatch(local: set<string>, rows: seq<Row>, claimed: map<string, string>) {
    && (forall n | n in claimed :: n !in local && IsFirstPeer(rows, n, claimed[n]))
    && (forall k | 0 <= k < |rows| :: rows[k].summary.name in local || rows[k].summary.name in claimed)
  }

  method ServeDashboardPeers(local: set<string>, peers: seq<Peer>, cache: Cache) returns (out: seq<DashboardRow>)
    ensures IsDashboard(local, Rows(peers, cache), out)
  {
    out := [];
    var claimed: map<string, string> := map[];
    var i := 0;
    while i < |peers|
      invariant 0 <= i <= |peers|
      invariant Showing(local, RowsUpTo(peers, cache, i), out, claimed)
    {
      var p := peers[i];
      NextPeer(peers, cache, i);
      if p.name !in cache || |cache[p.name]| == 0 {
        i := i + 1;
        continue;
      }
      var j := 0;
      while j < |cache[p.name]|
        invariant 0 <= j <= |cache[p.name]|
        invariant Showing(local, RowsBefore(peers, cache, i, j), out, claimed)
      {
        var sum := cache[p.name][j];
        NextRow(peers, cache, i, j);
        DashboardStep(local, RowsBefore(peers, cache, i, j), out, claimed, Row(p, sum));
        var shadowedBy := "";
        if sum.name in local {
          shadowedBy := THIS_MACHINE;
        } else if sum.name in claimed {
          shadowedBy := claimed[sum.name];
        } else {
          claimed := claimed[sum.name := p.name];
        }
        out := out + [DashboardRow(p.name, sum.name, sum.ready, shadowedBy)];
        j := j + 1;
      }
      i := i + 1;
    }
  }

  lemma FirstOfNameGrows(rows: seq<Row>, row: Row)
    ensures forall k: nat | k < |rows| :: FirstOfName(rows + [row], k) <==> FirstOfName(rows, k)
    ensures FirstOfName(rows + [row], |rows|) <==> !Named(rows, row.summary.name)
    ensures forall n, p :: IsFirstPeer(rows, n, p) ==> IsFirstPeer(rows + [row], n, p)
  {
    var longer := rows + [row];
    forall k: nat | k < |rows|
      ensures FirstOfName(longer, k) <==> FirstOfName(rows, k)
    {
      assert forall m | 0 <= m <= k :: longer[m] == rows[m];
    }
    assert longer[|rows|] == row && forall m | 0 <= m < |rows| :: longer[m] == rows[m];
    forall n, p | IsFirstPeer(rows, n, p)
      ensures IsFirstPeer(longer, n, p)
    {
      var k: nat :| k < |rows| && FirstOfName(rows, k) && rows[k].summary.name == n && rows[k].peer.name == p;
      assert FirstOfName(longer, k) && longer[k] == rows[k];
    }
  }

  /** One turn of the dashboard's inner loop. */
  lemma DashboardStep(local: set<string>, rows: seq<Row>, out: seq<DashboardRow>, claimed: map<string, string>,
                      row: Row)
    requires Showing(local, rows, out, claimed)
    ensures var name := row.summary.name;
            var why := if name in local then THIS_MACHINE else if name in claimed then claimed[name] else "";
            var claimed' := if name in local || name in claimed then claimed else claimed[name := row.peer.name];
            Showing(local, rows + [row], out + [DashboardRow(row.peer.name, name, row.summary.ready, why)], claimed')
  {
    var name, longer := row.summary.name, rows + [row];
    FirstOfNameGrows(rows, row);
    NamedIsClaimed(local, rows, claimed, name);
    var why := if name in local then THIS_MACHINE else if name in claimed then claimed[name] else "";
    var d := DashboardRow(row.peer.name, name, row.summary.ready, why);
    assert IsDisplayed(local, longer, |rows|, d);
    forall i: nat | i < |rows|
      ensures IsDisplayed(local, longer, i, (out + [d])[i])
    {
      assert IsDisplayed(local, rows, i, out[i]) && longer[i] == rows[i];
    }
    if name !in local && name !in claimed {
      assert longer[|rows|] == row && FirstOfName(longer, |rows|);
      assert IsFirstPeer(longer, name, row.peer.name);
    }
  }

  lemma NamedIsClaimed(local: set<string>, rows: seq<Row>, claimed: map<string, string>, name: string)
    requires ClaimsMatch(local, rows, claimed)
    ensures name !in local ==> (Named(rows, name) <==> name in claimed)
  {
  }

  datatype CliRow = CliRow(name: string, status: string, on: string)

  const SHADOWED := "shadowed"

  ghost predicate IsListed(local: set<string>, rows: seq<Row>, i: nat, r: CliRow)
    requires i < |rows|
  {
    var sum := rows[i].summary;
    && r.name == sum.name && r.on == rows[i].peer.name
    && r.status == if sum.name in local || !FirstOfName(rows, i) then SHADOWED
                   else if sum.ready then "ready" else if sum.running then "starting" else "stopped"
  }

  ghost predicate IsListing(local: set<string>, rows: seq<Row>, out: seq<CliRow>) {
    && |out| == |rows|
    && forall i | 0 <= i < |rows| :: IsListed(local, rows, i, out[i])
  }

  /** The peer part of `vibe list`. */
  method WriteRouteTablePeers(routes: seq<string>, peers: seq<Peer>, cache: Cache) returns (out: seq<CliRow>)
    ensures IsListing((set n | n in routes), Rows(peers, cache), out)
    ensures forall i | 0 <= i < |out| && out[i].status != "shadowed" ::
              var sum := Rows(peers, cache)[i].summary;
              out[i] == CliRow(sum.name, if sum.ready then "ready" else if sum.running then "starting" else "stopped",
                               Rows(peers, cache)[i].peer.name)
  {
    var localNames := set n | n in routes;
    var seenPeerNames: set<string> := {};
    out := [];
    var i := 0;
    while i < |peers|
      invariant 0 <= i <= |peers|
      invariant IsListing(localNames, RowsUpTo(peers, cache, i), out)
      invariant forall n :: n in seenPeerNames <==> Named(RowsUpTo(peers, cache, i), n)
    {
      var p := peers[i];
      var list := Cached(cache, p);
      NextPeer(peers, cache, i);
      var j := 0;
      while j < |list|
        invariant 0 <= j <= |list|
        invariant IsListing(localNames, RowsBefore(peers, cache, i, j), out)
        invariant forall n :: n in seenPeerNames <==> Named(RowsBefore(peers, cache, i, j), n)
      {
        var pr := list[j];
        NextRow(peers, cache, i, j);
        ListingStep(localNames, RowsBefore(peers, cache, i, j), out, seenPeerNames, Row(p, pr));
        var status := "stopped";
        if pr.ready {
          status := "ready";
        } else if pr.running {
          status := "starting";
        }
        if pr.name in localNames || pr.name in seenPeerNames {
          status := SHADOWED;
        }
        seenPeerNames := seenPeerNames + {pr.name};
        out := out + [CliRow(pr.name, status, p.name)];
        j := j + 1;
      }
      i := i + 1;
    }
  }

  lemma ListingStep(local: set<string>, rows: seq<Row>, out: seq<CliRow>, seen: set<string>, row: Row)
    requires IsListing(local, rows, out) && forall n :: n in seen <==> Named(rows, n)
    ensures var sum := row.summary;
            var status := if sum.name in local || sum.name in seen then SHADOWED
                          else if sum.ready then "ready" else if sum.running then "starting" else "stopped";
            && IsListing(local, rows + [row], out + [CliRow(sum.name, status, row.peer.name)])
            && forall n :: n in seen + {sum.name} <==> Named(rows + [row], n)
  {
    var longer := rows + [row];
    FirstOfNameGrows(rows, row);
    forall i: nat | i < |rows|
      ensures IsListed(local, longer, i, out[i])
    {
      assert IsListed(local, rows, i, out[i]) && longer[i] == rows[i];
    }
    forall n
      ensures Named(longer, n) <==> Named(rows, n) || n == row.summary.name
    {
      NamedSnoc(rows, row, n);
    }
  }

  // ---- One winner per name ----

  /** Who answers http(s)://<name>.<tld>. */
  datatype Served = Dashboard | LocalRoute | FromPeer(row: Row) | ToParent(app: string)

  /** routeRequest's order. `rows` are the cached routes, `swept` those after the refresh that a miss causes,
      and `parents` the apps that some worktree route names as its own. */
  ghost predicate IsServed(local: set<string>, parents: set<string>, enabled: bool, rows: seq<Row>, swept: seq<Row>,
                           name: string, s: Served) {
    if name == "local" then s == Dashboard
    else if name in local then s == LocalRoute
    else if enabled && Named(rows, name) then s.FromPeer? && IsLookup(rows, name, Some(s.row))
    else if enabled && Named(swept, name) then s.FromPeer? && IsLookup(swept, name, Some(s.row))
    else if s.ToParent? then s.app in local + parents && IsWorktreeHost(name, s.app)
    else s == Dashboard && forall app | app in local + parents :: !IsWorktreeHost(name, app)
  }

  /** A total miss causes one sweep, and the peers and their cache are read again. */
  method FindPeerRoute(peers: seq<Peer>, cache: Cache, later: seq<Peer>, swept: Cache, name: string)
      returns (row: Option<Row>)
    ensures var rows := Rows(peers, cache);
            IsLookup(if Named(rows, name) then rows else Rows(later, swept), name, row)
  {
    row := PeerRouteFromCache(peers, cache, name);
    if row.None? {
      row := PeerRouteFromCache(later, swept, name);
    }
  }

  method RouteRequest(local: set<string>, parents: set<string>, enabled: bool, peers: seq<Peer>, cache: Cache,
                      later: seq<Peer>, swept: Cache, name: string) returns (s: Served)
    ensures IsServed(local, parents, enabled, Rows(peers, cache), Rows(later, swept), name, s)
  {
    if name == "local" {
      return Dashboard;
    }
    if name in local {
      return LocalRoute;
    }
    if enabled {
      var row := FindPeerRoute(peers, cache, later, swept, name);
      if row.Some? {
        return FromPeer(row.value);
      }
    }
    WorktreeHosts(name);
    var parent := WorktreeParent(name);
    if parent.Some? && (parent.value in local || parent.value in parents) {
      return ToParent(parent.value);
    }
    return Dashboard;
  }

  /** Who answers, name by name: the dashboard its own name, then a local route, then, if peers are enabled, the first
      row with the name, or the first after the sweep; then the app of a worktree's host; else the dashboard. */
  lemma ServedExactly(local: set<string>, parents: set<string>, enabled: bool, rows: seq<Row>, swept: seq<Row>,
                      name: string, s: Served)
    requires IsServed(local, parents, enabled, rows, swept, name, s)
    ensures name == "local" ==> s == Dashboard
    ensures s == LocalRoute <==> name != "local" && name in local
    ensures s.FromPeer? <==> name != "local" && name !in local && enabled && name in NamesOf(rows) + NamesOf(swept)
    ensures s.FromPeer? ==> IsLookup(if name in NamesOf(rows) then rows else swept, name, Some(s.row))
    ensures forall own, app | name == own + "." + app && own != "" && app != "" && '.' !in own && '.' !in app
                              && s != LocalRoute && !s.FromPeer? ::
              s == if app in local || app in parents then ToParent(app) else Dashboard
    ensures s.ToParent? ==> IsWorktreeHost(name, s.app)
  {
    forall own, app | name == own + "." + app && own != "" && app != "" && '.' !in own && '.' !in app
                      && s != LocalRoute && !s.FromPeer?
      ensures s == if app in local || app in parents then ToParent(app) else Dashboard
    {
      assert IsWorktreeHost(name, app);
      LocalIsOneLabel(app);
      WorktreeHosts(name);
    }
  }

  lemma LocalIsOneLabel(app: string)
    ensures !IsWorktreeHost("local", app)
  {
    if own :| "local" == own + "." + app {
      assert "local"[|own|] == '.';
    }
  }

  /** Both listings show every row under its own name and peer; the dashboard with its readiness and, if this machine
      has the name, that it is shadowed by this machine. */
  lemma RowsAreShownAsCached(local: set<string>, rows: seq<Row>, out: seq<DashboardRow>, cli: seq<CliRow>, i: nat)
    requires IsDashboard(local, rows, out) && IsListing(local, rows, cli) && i < |rows|
    ensures |out| == |cli| == |rows|
    ensures out[i].name == cli[i].name == rows[i].summary.name && out[i].peerName == cli[i].on == rows[i].peer.name
    ensures out[i].ready == rows[i].summary.ready
    ensures rows[i].summary.name in local ==> out[i].shadowedBy == "this machine" && cli[i].status == "shadowed"
  {
    assert IsDisplayed(local, rows, i, out[i]) && IsListed(local, rows, i, cli[i]);
  }

  ghost predicate Unshadowed(local: set<string>, rows: seq<Row>, i: nat)
    requires i < |rows|
  {
    rows[i].summary.name !in local && FirstOfName(rows, i)
  }

  /** A name has no unshadowed row if it is local or unlisted, and exactly one otherwise. */
  lemma OneUnshadowedRow(local: set<string>, rows: seq<Row>, name: string)
    ensures (exists i: nat | i < |rows| :: rows[i].summary.name == name && Unshadowed(local, rows, i))
            <==> name !in local && Named(rows, name)
    ensures forall i: nat, j: nat | i < |rows| && j < |rows| && rows[i].summary.name == name == rows[j].summary.name
              && Unshadowed(local, rows, i) && Unshadowed(local, rows, j) :: i == j
  {
    if name !in local && Named(rows, name) {
      var i := FirstIndex(rows, name);
      assert Unshadowed(local, rows, i);
    }
  }

  lemma {:induction false} FirstIndex(rows: seq<Row>, name: string) returns (i: nat)
    requires Named(rows, name)
    ensures i < |rows| && rows[i].summary.name == name && FirstOfName(rows, i)
  {
    var n := |rows| - 1;
    if Named(rows[..n], name) {
      i := FirstIndex(rows[..n], name);
      assert forall k | 0 <= k < n :: rows[..n][k] == rows[k];
    } else {
      i := n;
      assert forall k | 0 <= k < n :: rows[..n][k] == rows[k];
    }
  }

  /** A request for the row's name is answered by that very row, whatever a sweep would bring. */
  ghost predicate Reached(local: set<string>, parents: set<string>, rows: seq<Row>, i: nat)
    requires i < |rows|
  {
    FirstOfName(rows, i) && forall swept ::
        IsServed(local, parents, true, rows, swept, rows[i].summary.name, FromPeer(rows[i]))
  }

  /** Row k is the first of row i's name, which is not local, and its peer has no name. */
  ghost predicate NamelessWinner(local: set<string>, rows: seq<Row>, k: nat, i: nat) {
    && k < i < |rows| && FirstOfName(rows, k) && rows[k].peer.name == ""
    && rows[k].summary.name == rows[i].summary.name && rows[i].summary.name !in local
  }

  ghost predicate NoNamelessWinner(local: set<string>, rows: seq<Row>) {
    forall k: nat, i: nat :: !NamelessWinner(local, rows, k, i)
  }

  lemma ReachedExactly(local: set<string>, parents: set<string>, rows: seq<Row>, i: nat)
    requires i < |rows|
    ensures Reached(local, parents, rows, i) <==> Unshadowed(local, rows, i) && rows[i].summary.name != "local"
  {
    assert Named(rows, rows[i].summary.name);
    if Reached(local, parents, rows, i) {
      assert IsServed(local, parents, true, rows, [], rows[i].summary.name, FromPeer(rows[i]));
    }
  }

  /** The command line calls a row reachable exactly when a request for its name is answered by that row --
      for every row, if and only if no row is named "local", which the dashboard keeps for itself, without a
      local route of that name. */
  lemma UnshadowedIsServed(local: set<string>, parents: set<string>, rows: seq<Row>, cli: seq<CliRow>)
    requires IsListing(local, rows, cli)
    ensures (forall i: nat | i < |rows| :: cli[i].status != SHADOWED <==> Reached(local, parents, rows, i))
            <==> (Named(rows, "local") ==> "local" in local)
  {
    forall i: nat | i < |rows|
      ensures cli[i].status != SHADOWED <==> Unshadowed(local, rows, i)
      ensures Reached(local, parents, rows, i) <==> Unshadowed(local, rows, i) && rows[i].summary.name != "local"
    {
      assert IsListed(local, rows, i, cli[i]);
      ReachedExactly(local, parents, rows, i);
    }
    if Named(rows, "local") && "local" !in local {
      var i := FirstIndex(rows, "local");
      assert Unshadowed(local, rows, i);
    }
  }

  /** What the dashboard shows as unshadowed: the rows that are, and those behind a nameless peer. */
  lemma ShownUnshadowed(local: set<string>, rows: seq<Row>, out: seq<DashboardRow>, i: nat)
    requires IsDashboard(local, rows, out) && i < |rows|
    ensures out[i].shadowedBy == "" <==>
            Unshadowed(local, rows, i) || exists k: nat :: NamelessWinner(local, rows, k, i)
  {
    var name := rows[i].summary.name;
    assert IsDisplayed(local, rows, i, out[i]);
    if name !in local && !FirstOfName(rows, i) {
      var k: nat :| k < |rows| && FirstOfName(rows, k) && rows[k].summary.name == name
          && rows[k].peer.name == out[i].shadowedBy;
      assert k < i;
      assert out[i].shadowedBy == "" ==> NamelessWinner(local, rows, k, i);
    }
  }

  /** The dashboard agrees with the command line on every row if and only if no nameless peer wins a name. */
  lemma ListingsAgreeExactly(local: set<string>, rows: seq<Row>, out: seq<DashboardRow>, cli: seq<CliRow>)
    requires IsDashboard(local, rows, out) && IsListing(local, rows, cli)
    ensures (forall i: nat | i < |rows| :: out[i].shadowedBy == "" <==> cli[i].status != SHADOWED) <==>
            NoNamelessWinner(local, rows)
  {
    forall i: nat | i < |rows|
      ensures cli[i].status != SHADOWED <==> Unshadowed(local, rows, i)
    {
      assert IsListed(local, rows, i, cli[i]);
    }
    if k: nat, i: nat :| NamelessWinner(local, rows, k, i) {
      ShownUnshadowed(local, rows, out, i);
      assert !FirstOfName(rows, i);
    } else {
      forall i: nat | i < |rows|
        ensures out[i].shadowedBy == "" <==> Unshadowed(local, rows, i)
      {
        ShownUnshadowed(local, rows, out, i);
      }
    }
  }

  /** And it calls exactly the rows reachable that are, if and only if both conditions hold. */
  lemma ShownIsServed(local: set<string>, parents: set<string>, rows: seq<Row>, out: seq<DashboardRow>)
    requires IsDashboard(local, rows, out)
    ensures (forall i: nat | i < |rows| :: out[i].shadowedBy == "" <==> Reached(local, parents, rows, i))
            <==> NoNamelessWinner(local, rows) && (Named(rows, "local") ==> "local" in local)
  {
    forall i: nat | i < |rows|
      ensures Reached(local, parents, rows, i) <==> Unshadowed(local, rows, i) && rows[i].summary.name != "local"
    {
      ReachedExactly(local, parents, rows, i);
    }
    if Named(rows, "local") && "local" !in local {
      var i := FirstIndex(rows, "local");
      ShownUnshadowed(local, rows, out, i);
      assert Unshadowed(local, rows, i);
    } else if k: nat, i: nat :| NamelessWinner(local, rows, k, i) {
      ShownUnshadowed(local, rows, out, i);
      assert !FirstOfName(rows, i);
    } else {
      forall i: nat | i < |rows|
        ensures out[i].shadowedBy == "" <==> Unshadowed(local, rows, i)
      {
        ShownUnshadowed(local, rows, out, i);
      }
    }
  }

  /** A nameless peer listing a route first: the dashboard shows the second peer's route of that name as
      reachable, while requests go to the first peer and the command line says so. */
  lemma NamelessPeerHidesShadowing(first: Peer, second: Peer, sum: Summary, out: seq<DashboardRow>, cli: seq<CliRow>)
    requires first.name == "" != second.name
    requires var rows := Rows([first, second], map[first.name := [sum], second.name := [sum]]);
             IsDashboard({}, rows, out) && IsListing({}, rows, cli)
    ensures |out| == |cli| == 2 && out[1].shadowedBy == "" && cli[1].status == SHADOWED
  {
    var peers, cache := [first, second], map[first.name := [sum], second.name := [sum]];
    var rows := Rows(peers, cache);
    assert rows == [Row(first, sum), Row(second, sum)] by {
      assert RowsUpTo(peers, cache, 1) == RowsUpTo(peers, cache, 0) + RowsOf(first, [sum]);
      assert RowsUpTo(peers, cache, 2) == RowsUpTo(peers, cache, 1) + RowsOf(second, [sum]);
    }
    assert FirstOfName(rows, 0) && rows[0].summary.name == rows[1].summary.name;
    assert !FirstOfName(rows, 1) && NamelessWinner({}, rows, 0, 1);
    assert IsListed({}, rows, 1, cli[1]);
    ShownUnshadowed({}, rows, out, 1);
  }

  // ---- Names for the certificate ----

  ghost function NamesOf(rows: seq<Row>): set<string> {
    set i | 0 <= i < |rows| :: rows[i].summary.name
  }

  method PeerRouteNames(peers: seq<Peer>, cache: Cache) returns (names: seq<string>)
    ensures forall i, j | 0 <= i < j < |names| :: names[i] != names[j]
    ensures forall n :: n in names <==> n in NamesOf(Rows(peers, cache))
  {
    var seen: set<string> := {};
    names := [];
    var i := 0;
    while i < |peers|
      invariant 0 <= i <= |peers|
      invariant forall n :: n in names <==> n in seen
      invariant seen == NamesOf(RowsUpTo(peers, cache, i))
      invariant forall i, j | 0 <= i < j < |names| :: names[i] != names[j]
    {
      var p := peers[i];
      NextPeer(peers, cache, i);
      if p.name !in cache {
        i := i + 1;
        continue;
      }
      var j := 0;
      while j < |cache[p.name]|
        invariant 0 <= j <= |cache[p.name]|
        invariant forall n :: n in names <==> n in seen
        invariant seen == NamesOf(RowsBefore(peers, cache, i, j))
        invariant forall i, j | 0 <= i < j < |names| :: names[i] != names[j]
      {
        var sum := cache[p.name][j];
        NextRow(peers, cache, i, j);
        NamesOfSnoc(RowsBefore(peers, cache, i, j), Row(p, sum));
        if sum.name !in seen {
          seen := seen + {sum.name};
          names := names + [sum.name];
        }
        j := j + 1;
      }
      i := i + 1;
    }
  }

  lemma NamesOfSnoc(rows: seq<Row>, row: Row)
    ensures NamesOf(rows + [row]) == NamesOf(rows) + {row.summary.name}
  {
    var longer := rows + [row];
    assert forall i | 0 <= i < |rows| :: longer[i] == rows[i];
    assert longer[|rows|] == row;
  }

  /** The host names of the leaf certificate: the dashboard, every local route, every cached peer route. */
  method TlsHostnames(table: seq<string>, tld: string, peers: seq<Peer>, cache: Cache) returns (hostnames: seq<string>)
    ensures forall h :: h in hostnames <==>
              h == "local." + tld || exists n :: (n in table || n in NamesOf(Rows(peers, cache))) && h == n + "." + tld
  {
    hostnames := ["local." + tld];
    var seen: set<string> := {};
    var i := 0;
    while i < |table|
      invariant 0 <= i <= |table|
      invariant forall n :: n in seen <==> n in table[..i]
      invariant forall h :: h in hostnames <==> h == "local." + tld || exists n :: n in table[..i] && h == n + "." + tld
    {
      seen := seen + {table[i]};
      hostnames := hostnames + [table[i] + "." + tld];
      i := i + 1;
    }
    var names := PeerRouteNames(peers, cache);
    var j := 0;
    while j < |names|
      invariant 0 <= j <= |names|
      invariant forall h :: h in hostnames <==>
                  h == "local." + tld || exists n :: (n in table || n in names[..j]) && h == n + "." + tld
    {
      if names[j] !in seen {
        hostnames := hostnames + [names[j] + "." + tld];
      }
      j := j + 1;
    }
  }
}
