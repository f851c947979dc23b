/** handlePeerRoutes in internal/daemon/peer_listener.go: the list a peer is allowed to see. */
module PeerListener {
  import opened Text
  import opened PeerRows
  import opened PeerSync

  const BOOKMARK := "bookmark"
  const MANAGED := "managed"

  /** What the handler reads of a route. */
  datatype Route = Route(name: string, kind: string, running: bool, ready: bool, icon: string, port: nat)

  function IsBookmark(): Route -> bool {
    (r: Route) => r.kind == BOOKMARK
  }

  /** A managed route tells its own state; for any other kind its port is asked. */
  function SummaryOf(r: Route, live: set<nat>): Summary {
    if r.kind == MANAGED then Summary(r.name, r.kind, r.running, r.ready, r.icon)
    else Summary(r.name, r.kind, r.port in live, r.port in live, r.icon)
  }

  function Unprobed(r: Route): Summary {
    Summary(r.name, r.kind, r.running, r.ready, r.icon)
  }

  /** The answer's list: every route but the bookmarks, in the table's order. */
  function Listed(routes: seq<Route>, live: set<nat>): seq<Summary> {
    var shown := Without(routes, IsBookmark());
    seq(|shown|, i requires 0 <= i < |shown| => SummaryOf(shown[i], live))
  }

  // ---- The order of names ----

  /** Go's < on strings. */
  predicate Less(a: string, b: string) {
    if b == "" then false
    else if a == "" then true
    else a[0] < b[0] || (a[0] == b[0] && Less(a[1..], b[1..]))
  }

  lemma {:induction false} LessIsStrict(a: string, b: string, c: string)
    ensures !Less(a, a)
    ensures Less(a, b) && Less(b, c) ==> Less(a, c)
    ensures a == b || Less(a, b) || Less(b, a)
  {
    if a != "" {
      LessIsStrict(a[1..], if b == "" then "" else b[1..], if c == "" then "" else c[1..]);
      if b != "" {
        assert a == [a[0]] + a[1..] && b == [b[0]] + b[1..];
      }
    }
  }

  /** Up to k they are the same, and there a ends or has the smaller character. */
  ghost predicate BeforeAt(a: string, b: string, k: nat) {
    && k <= |a| && k < |b| && (forall i | 0 <= i < k :: a[i] == b[i]) && (k == |a| || a[k] < b[k])
  }

  lemma BeforeCons(a: string, b: string, k: nat)
    requires a != "" && b != "" && a[0] == b[0]
    ensures BeforeAt(a, b, k + 1) <==> BeforeAt(a[1..], b[1..], k)
    ensures !BeforeAt(a, b, 0)
  {
    var c, d := a[1..], b[1..];
    assert forall i | 0 <= i < |c| :: c[i] == a[i + 1];
    assert forall i | 0 <= i < |d| :: d[i] == b[i + 1];
    if BeforeAt(c, d, k) {
      forall i | 0 <= i < k + 1
        ensures a[i] == b[i]
      {
        assert i > 0 ==> c[i - 1] == d[i - 1];
      }
    }
  }

  /** It is the order of the first place where they differ, and a proper prefix comes first. */
  lemma {:induction false} LessIsLexicographic(a: string, b: string)
    ensures Less(a, b) <==> exists k: nat :: BeforeAt(a, b, k)
  {
    if a == "" || b == "" || a[0] != b[0] {
      assert Less(a, b) <==> BeforeAt(a, b, 0);
    } else {
      LessIsLexicographic(a[1..], b[1..]);
      if k: nat :| BeforeAt(a[1..], b[1..], k) {
        BeforeCons(a, b, k);
      }
      if k: nat :| BeforeAt(a, b, k) {
        BeforeCons(a, b, if k > 0 then k - 1 else 0);
      }
    }
  }

  ghost predicate Ascending(list: seq<Summary>) {
    forall i, j | 0 <= i < j < |list| :: !Less(list[j].name, list[i].name)
  }

  ghost predicate StrictlyAscending(list: seq<Summary>) {
    forall i, j | 0 <= i < j < |list| :: Less(list[i].name, list[j].name)
  }

  lemma InsertAscending(list: seq<Summary>, k: nat, x: Summary)
    requires Ascending(list) && k <= |list|
    requires forall m | k <= m < |list| :: Less(x.name, list[m].name)
    requires k > 0 ==> !Less(x.name, list[k - 1].name)
    ensures Ascending(list[..k] + [x] + list[k..])
  {
    var longer := list[..k] + [x] + list[k..];
    forall i, j | 0 <= i < j < |longer|
      ensures !Less(longer[j].name, longer[i].name)
    {
      if j == k {
        LessIsStrict(x.name, list[i].name, list[k - 1].name);
        LessIsStrict(list[k - 1].name, list[i].name, x.name);
        assert i < k - 1 ==> !Less(list[k - 1].name, list[i].name);
      } else if i == k {
        LessIsStrict(x.name, list[j - 1].name, x.name);
      } else {
        assert !Less(list[if j < k then j else j - 1].name, list[if i < k then i else i - 1].name);
      }
    }
  }

  /** sort.Slice by name: the source leaves the algorithm to the library, this one inserts. */
  method SortByName(summaries: seq<Summary>) returns (sorted: seq<Summary>)
    ensures Ascending(sorted) && multiset(sorted) == multiset(summaries)
  {
    sorted := [];
    var i := 0;
    while i < |summaries|
      invariant 0 <= i <= |summaries|
      invariant Ascending(sorted) && multiset(sorted) == multiset(summaries[..i])
    {
      var x, k := summaries[i], |sorted|;
      while k > 0 && Less(x.name, sorted[k - 1].name)
        invariant 0 <= k <= |sorted|
        invariant forall m | k <= m < |sorted| :: Less(x.name, sorted[m].name)
      {
        k := k - 1;
      }
      InsertAscending(sorted, k, x);
      assert sorted == sorted[..k] + sorted[k..] && summaries[..i + 1] == summaries[..i] + [x];
      sorted := sorted[..k] + [x] + sorted[k..];
      i := i + 1;
    }
    assert summaries[..i] == summaries;
  }

  // ---- The handler ----

  /** `live` is the set of ports that answer. The body is sent with its tag unless the client has it. */
  method HandlePeerRoutes(routes: seq<Route>, live: set<nat>, ifNoneMatch: ETag)
      returns (body: seq<Summary>, notModified: bool)
    ensures Ascending(body) && multiset(body) == multiset(Listed(routes, live))
    ensures notModified <==> ifNoneMatch == Hash(body)
  {
    var summaries: seq<Summary> := [];
    var probes: seq<nat>, ports: seq<nat> := [], [];
    ghost var shown: seq<Route> := [];
    var n := 0;
    while n < |routes|
      invariant 0 <= n <= |routes|
      invariant shown == Without(routes[..n], IsBookmark())
      invariant Collected(shown, summaries, probes, ports)
    {
      var rt := routes[n];
      WithoutConcat(routes[..n], [rt], IsBookmark());
      WithoutOne(rt, IsBookmark());
      assert routes[..n + 1] == routes[..n] + [rt];
      n := n + 1;
      if rt.kind == BOOKMARK {
        continue;
      }
      CollectOne(shown, summaries, probes, ports, rt);
      if rt.kind != MANAGED {
        probes := probes + [|summaries|];
        ports := ports + [rt.port];
      }
      summaries := summaries + [Unprobed(rt)];
      shown := shown + [rt];
    }
    assert routes[..n] == routes;
    summaries := Probe(summaries, probes, ports, live, shown);
    body := SortByName(summaries);
    notModified := ifNoneMatch == Hash(body);
  }

  /** What the first loop has gathered: a summary per route shown, and the ones whose port is to be asked. */
  ghost predicate Collected(shown: seq<Route>, summaries: seq<Summary>, probes: seq<nat>, ports: seq<nat>) {
    && |summaries| == |shown| && |ports| == |probes|
    && (forall i | 0 <= i < |shown| :: summaries[i] == Unprobed(shown[i]))
    && (forall k | 0 <= k < |probes| ::
          probes[k] < |shown| && shown[probes[k]].kind != MANAGED && ports[k] == shown[probes[k]].port)
    && (forall i | 0 <= i < |shown| :: shown[i].kind == MANAGED || i in probes)
  }

  lemma CollectOne(shown: seq<Route>, summaries: seq<Summary>, probes: seq<nat>, ports: seq<nat>, rt: Route)
    requires Collected(shown, summaries, probes, ports)
    ensures if rt.kind == MANAGED then Collected(shown + [rt], summaries + [Unprobed(rt)], probes, ports)
            else Collected(shown + [rt], summaries + [Unprobed(rt)], probes + [|summaries|], ports + [rt.port])
  {
  }

  /** The probes finish in any order; each writes only its own element. */
  method Probe(before: seq<Summary>, probes: seq<nat>, ports: seq<nat>, live: set<nat>, ghost shown: seq<Route>)
      returns (summaries: seq<Summary>)
    requires Collected(shown, before, probes, ports)
    ensures summaries == seq(|shown|, i requires 0 <= i < |shown| => SummaryOf(shown[i], live))
  {
    summaries := before;
    var todo: set<nat> := {};
    for k := 0 to |probes|
      invariant forall j: nat :: j in todo <==> j < k
    {
      todo := todo + {k};
    }
    while todo != {}
      invariant |summaries| == |shown| && forall k | k in todo :: k < |probes|
      invariant forall i | 0 <= i < |shown| ::
                summaries[i] == SummaryOf(shown[i], live) || summaries[i] == Unprobed(shown[i])
      invariant forall k | 0 <= k < |probes| && k !in todo :: summaries[probes[k]] == SummaryOf(shown[probes[k]], live)
    {
      var k :| k in todo;
      todo := todo - {k};
      var ready := ports[k] in live;
      summaries := summaries[probes[k] := summaries[probes[k]].(ready := ready, running := ready)];
    }
    forall i | 0 <= i < |shown|
      ensures summaries[i] == SummaryOf(shown[i], live)
    {
      if shown[i].kind != MANAGED {
        var k :| 0 <= k < |probes| && probes[k] == i;
      }
    }
  }

  // ---- What the order is for ----

  ghost predicate DistinctRoutes(routes: seq<Route>) {
    forall i, j | 0 <= i < j < |routes| :: routes[i].name != routes[j].name
  }

  /** Where each kept route stood in the table. */
  lemma {:induction false} KeptAt(routes: seq<Route>) returns (at: seq<nat>)
    ensures var shown := Without(routes, IsBookmark());
            && |at| == |shown| && (forall i | 0 <= i < |at| :: at[i] < |routes| && shown[i] == routes[at[i]])
            && (forall i, j | 0 <= i < j < |at| :: at[i] < at[j])
  {
    if routes == [] {
      at := [];
    } else {
      var rest := KeptAt(routes[1..]);
      var shifted := seq(|rest|, i requires 0 <= i < |rest| => rest[i] + 1);
      at := if routes[0].kind == BOOKMARK then shifted else [0] + shifted;
      assert routes == [routes[0]] + routes[1..];
    }
  }

  lemma {:induction false} WithoutMembers(routes: seq<Route>, r: Route)
    ensures r in Without(routes, IsBookmark()) <==> r in routes && r.kind != BOOKMARK
  {
    if routes != [] {
      WithoutMembers(routes[1..], r);
      assert routes == [routes[0]] + routes[1..];
    }
  }

  /** Whatever the order of the table: one element for each route that is not a bookmark. */
  lemma ListedMembers(routes: seq<Route>, live: set<nat>, x: Summary)
    ensures x in Listed(routes, live) <==> exists r | r in routes && r.kind != BOOKMARK :: x == SummaryOf(r, live)
  {
    var shown := Without(routes, IsBookmark());
    if x in Listed(routes, live) {
      var i :| 0 <= i < |shown| && x == SummaryOf(shown[i], live);
      WithoutMembers(routes, shown[i]);
    }
    if r :| r in routes && r.kind != BOOKMARK && x == SummaryOf(r, live) {
      WithoutMembers(routes, r);
      var i :| 0 <= i < |shown| && shown[i] == r;
      assert Listed(routes, live)[i] == x;
    }
  }

  lemma ListedIsDistinct(routes: seq<Route>, live: set<nat>)
    requires DistinctRoutes(routes)
    ensures DistinctNames(Listed(routes, live))
  {
    var list := Listed(routes, live);
    var at := KeptAt(routes);
    forall i, j | 0 <= i < j < |list|
      ensures list[i].name != list[j].name
    {
      assert routes[at[i]].name != routes[at[j]].name;
    }
  }

  lemma {:induction false} DistinctCountsOnce(list: seq<Summary>, x: Summary)
    requires DistinctNames(list)
    ensures multiset(list)[x] <= 1
  {
    if list != [] {
      DistinctCountsOnce(list[1..], x);
      assert list == [list[0]] + list[1..];
      forall k | 0 <= k < |list[1..]|
        ensures list[1..][k] != list[0]
      {
        assert list[1..][k] == list[k + 1] && list[0].name != list[k + 1].name;
      }
    }
  }

  lemma CountsTwice(list: seq<Summary>, i: nat, j: nat)
    requires i < j < |list| && list[i] == list[j]
    ensures multiset(list)[list[i]] >= 2
  {
    assert list == list[..j] + [list[j]] + list[j + 1..] && list[..j][i] == list[i];
  }

  /** A permutation of a list without repeated names, in ascending order, is strictly ascending. */
  lemma SortedIsStrict(list: seq<Summary>, sorted: seq<Summary>)
    requires DistinctNames(list) && multiset(sorted) == multiset(list) && Ascending(sorted)
    ensures StrictlyAscending(sorted)
  {
    forall i: nat, j: nat | i < j < |sorted|
      ensures Less(sorted[i].name, sorted[j].name)
    {
      LessIsStrict(sorted[i].name, sorted[j].name, "");
      assert sorted[i] in multiset(list) && sorted[j] in multiset(list);
      assert sorted[i].name == sorted[j].name ==> sorted[i] == sorted[j];
      if sorted[i] == sorted[j] {
        DistinctCountsOnce(list, sorted[i]);
        CountsTwice(sorted, i, j);
      }
    }
  }

  lemma StrictInit(a: seq<Summary>, x: Summary)
    requires a != [] && StrictlyAscending(a)
    ensures x in a[..|a| - 1] <==> x in a && x != a[|a| - 1]
    ensures x in a ==> x == a[|a| - 1] || Less(x.name, a[|a| - 1].name)
  {
    var m := |a| - 1;
    LessIsStrict(a[m].name, a[m].name, "");
    assert a == a[..m] + [a[m]];
  }

  lemma SomeOf(list: seq<Summary>) returns (x: Summary)
    requires list != []
    ensures x in list
  {
    x := list[0];
  }

  lemma {:induction false} StrictIsUnique(a: seq<Summary>, b: seq<Summary>)
    requires StrictlyAscending(a) && StrictlyAscending(b) && forall x :: x in a <==> x in b
    ensures a == b
    decreases |a|
  {
    if a == [] {
      if b != [] {
        var x := SomeOf(b);
        assert false;
      }
    } else {
      assert a[0] in b;
      var m, n := |a| - 1, |b| - 1;
      assert a[m] in b && b[n] in a;
      StrictInit(a, b[n]);
      StrictInit(b, a[m]);
      LessIsStrict(a[m].name, b[n].name, a[m].name);
      forall x
        ensures x in a[..m] <==> x in b[..n]
      {
        StrictInit(a, x);
        StrictInit(b, x);
      }
      StrictIsUnique(a[..m], b[..n]);
      assert a == a[..m] + [a[m]] && b == b[..n] + [b[n]];
    }
  }

  /** The body -- and so its tag -- is the same however the table lists its routes: one element for each that is not a
      bookmark, in strictly increasing order of names. A managed route is shown with its own flags, any other with
      whether its port answers. */
  lemma BodyIgnoresOrder(routes: seq<Route>, others: seq<Route>, live: set<nat>, body: seq<Summary>,
                         other: seq<Summary>)
    requires DistinctRoutes(routes) && DistinctRoutes(others) && forall r :: r in routes <==> r in others
    requires Ascending(body) && multiset(body) == multiset(Listed(routes, live))
    requires Ascending(other) && multiset(other) == multiset(Listed(others, live))
    ensures body == other && StrictlyAscending(body)
    ensures forall x :: x in body <==>
              exists r | r in routes && r.kind != "bookmark" ::
                var up := r.port in live;
                x == if r.kind == "managed" then Summary(r.name, r.kind, r.running, r.ready, r.icon)
                     else Summary(r.name, r.kind, up, up, r.icon)
  {
    ListedIsDistinct(routes, live);
    ListedIsDistinct(others, live);
    SortedIsStrict(Listed(routes, live), body);
    SortedIsStrict(Listed(others, live), other);
    forall x
      ensures x in body <==> x in Listed(routes, live)
      ensures x in body <==> x in other
    {
      assert x in body <==> x in multiset(body);
      assert x in other <==> x in multiset(other);
      ListedMembers(routes, live, x);
      ListedMembers(others, live, x);
    }
    StrictIsUnique(body, other);
    forall x
      ensures x in body <==> exists r | r in routes && r.kind != BOOKMARK :: x == SummaryOf(r, live)
    {
      ListedMembers(routes, live, x);
    }
  }
}
