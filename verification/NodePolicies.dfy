/**
  The TLS connection policies of a node (BuildNodeConfig in internal/caddyapi/config.go builds them
  from the emission-sorted routes): which route's options win then follows the ranks of the routes,
  not the order of their ids.
 */
module NodePolicies {
  import opened Wrappers
  import opened Strings
  import opened RouteModel
  import opened HostMatch
  import opened LiteralHosts
  import opened Components
  import opened RouteOrder
  import opened ConnPolicies
  import NodeConfig

  /** The policies of a node's routes. */
  method BuildNodePolicies(idna: Idna, routes: seq<Route>, zones: seq<string>, env: Env, failOpen: bool)
    returns (out: seq<Policy>)
    ensures exists order, sorted ::
              && Emission(CaddyHosts(idna), NodeConfig.WithZones(routes, zones), order)
              && Reordered(NodeConfig.WithZones(routes, zones), order, sorted)
              && out == Emitted(sorted, env, if failOpen then VerifyIfGiven else RequireAndVerify)
  {
    var zoned := NodeConfig.WithWildcardHosts(routes, zones);
    var sorted := SortRoutesForEmission(idna, zoned);
    out := BuildConnPolicies(sorted, env, failOpen);
  }

  // ---------------------------------------------------------------- which CA wins

  lemma SharedHostTouches(idna: Idna, a: Route, b: Route, h: string)
    requires h in a.hosts && h in b.hosts && NormalizeHost(idna, h) != ""
    ensures Touches(CaddyHosts(idna), a, b)
  {
    var k := NormalizeHost(idna, h);
    var hx := CaddyHosts(idna);
    var i :| 0 <= i < |a.hosts| && a.hosts[i] == h;
    var j :| 0 <= j < |b.hosts| && b.hosts[j] == h;
    assert hx.norm(a.hosts[i]) == k && hx.norm(b.hosts[j]) == k;
    assert Meet(hx, a.hosts, b.hosts, k, k);
  }

  /** Of routes on one host the one in the earlier slot ranks first. */
  lemma SharedHostIsRanked(idna: Idna, routes: seq<Route>, order: seq<nat>, h: string, k: nat, l: nat)
    requires Emission(CaddyHosts(idna), routes, order) && k < l < |order| && NormalizeHost(idna, h) != ""
    requires h in routes[order[k]].hosts && h in routes[order[l]].hosts
    ensures Before(Ranks(routes), order[k], order[l])
  {
    var hx := CaddyHosts(idna);
    SharedHostTouches(idna, routes[order[k]], routes[order[l]], h);
    EdgeConnects(Collisions(hx, routes), order[k], order[l]);
    TogetherIsEquivalence(hx, routes);
    EarlierGoesBefore(Together(hx, routes), Ranks(routes), order, k, order[l]);
  }

  /** i is the route on h with a usable CA that ranks before all others. */
  ghost predicate BestWithCa(routes: seq<Route>, env: Env, h: string, i: nat) {
    && i < |routes| && h in routes[i].hosts && CaOf(routes[i], env) != ""
    && forall j :: 0 <= j < |routes| && j != i && h in routes[j].hosts && CaOf(routes[j], env) != "" ==>
         Before(Ranks(routes), i, j)
  }

  /** Slot k is the first on h with a usable CA. */
  ghost predicate FirstSlot(sorted: seq<Route>, env: Env, h: string, k: nat) {
    && k < |sorted| && h in sorted[k].hosts && CaOf(sorted[k], env) != ""
    && forall j :: 0 <= j < k && h in sorted[j].hosts ==> CaOf(sorted[j], env) == ""
  }

  lemma OthersRankAfter(
    idna: Idna, routes: seq<Route>, order: seq<nat>, sorted: seq<Route>, env: Env, h: string, k: nat, j: nat)
    requires Emission(CaddyHosts(idna), routes, order) && Reordered(routes, order, sorted)
    requires NormalizeHost(idna, h) != "" && FirstSlot(sorted, env, h, k)
    requires j < |routes| && j != order[k] && h in routes[j].hosts && CaOf(routes[j], env) != ""
    ensures Before(Ranks(routes), order[k], j)
  {
    var l := SlotOf(routes, order, sorted, j);
    AfterFirstSlot(sorted, env, h, k, l);
    SharedHostIsRanked(idna, routes, order, h, k, l);
  }

  lemma SlotOf(routes: seq<Route>, order: seq<nat>, sorted: seq<Route>, j: nat) returns (l: nat)
    requires Reordered(routes, order, sorted) && j < |routes| && Placed(order, j)
    ensures l < |order| && order[l] == j && sorted[l] == routes[j]
  {
    l :| 0 <= l < |order| && order[l] == j;
  }

  lemma AfterFirstSlot(sorted: seq<Route>, env: Env, h: string, k: nat, l: nat)
    requires FirstSlot(sorted, env, h, k) && l < |sorted| && h in sorted[l].hosts && CaOf(sorted[l], env) != ""
    ensures k <= l
  {
  }

  /** On a node the CA of a host is that of the best-ranked route on it with a usable CA. */
  lemma CaIsBestRanked(idna: Idna, routes: seq<Route>, order: seq<nat>, sorted: seq<Route>, env: Env, h: string)
    requires Emission(CaddyHosts(idna), routes, order) && Reordered(routes, order, sorted)
    requires NormalizeHost(idna, h) != "" && FirstCa(sorted, env, h) != ""
    ensures exists i: nat :: BestWithCa(routes, env, h, i) && FirstCa(sorted, env, h) == CaOf(routes[i], env)
  {
    FirstCaIsFirst(sorted, env, h);
    var k :| 0 <= k < |sorted| && h in sorted[k].hosts && FirstCa(sorted, env, h) == CaOf(sorted[k], env)
             && forall j :: 0 <= j < k && h in sorted[j].hosts ==> CaOf(sorted[j], env) == "";
    assert FirstSlot(sorted, env, h, k);
    SlotIsBest(idna, routes, order, sorted, env, h, k);
  }

  lemma SlotIsBest(idna: Idna, routes: seq<Route>, order: seq<nat>, sorted: seq<Route>, env: Env, h: string, k: nat)
    requires Emission(CaddyHosts(idna), routes, order) && Reordered(routes, order, sorted)
    requires NormalizeHost(idna, h) != "" && FirstSlot(sorted, env, h, k)
    ensures BestWithCa(routes, env, h, order[k]) && CaOf(sorted[k], env) == CaOf(routes[order[k]], env)
  {
    forall j | 0 <= j < |routes| && j != order[k] && h in routes[j].hosts && CaOf(routes[j], env) != ""
      ensures Before(Ranks(routes), order[k], j)
    {
      OthersRankAfter(idna, routes, order, sorted, env, h, k, j);
    }
  }

  /** Whether the CA of a host is that of the first route by id that has one: exactly when the
      best-ranked such route has the same. */
  lemma CaIsByIdExactly(idna: Idna, routes: seq<Route>, order: seq<nat>, sorted: seq<Route>, env: Env, h: string)
    requires Emission(CaddyHosts(idna), routes, order) && Reordered(routes, order, sorted)
    requires NormalizeHost(idna, h) != "" && FirstCa(routes, env, h) != ""
    ensures FirstCa(sorted, env, h) == FirstCa(routes, env, h) <==>
            exists j: nat :: BestWithCa(routes, env, h, j) && CaOf(routes[j], env) == FirstCa(routes, env, h)
  {
    SortedHasCa(idna, routes, order, sorted, env, h);
    CaIsBestRanked(idna, routes, order, sorted, env, h);
    var b: nat :| BestWithCa(routes, env, h, b) && FirstCa(sorted, env, h) == CaOf(routes[b], env);
    forall j: nat | BestWithCa(routes, env, h, j) ensures j == b {
      OneIsBest(routes, env, h, j, b);
    }
  }

  lemma SortedHasCa(idna: Idna, routes: seq<Route>, order: seq<nat>, sorted: seq<Route>, env: Env, h: string)
    requires Emission(CaddyHosts(idna), routes, order) && Reordered(routes, order, sorted)
    requires FirstCa(routes, env, h) != ""
    ensures FirstCa(sorted, env, h) != ""
  {
    FirstCaIsFirst(routes, env, h);
    FirstCaIsFirst(sorted, env, h);
    var i :| 0 <= i < |routes| && h in routes[i].hosts && FirstCa(routes, env, h) == CaOf(routes[i], env);
    assert Placed(order, i);
    var k := SlotOf(routes, order, sorted, i);
  }

  lemma OneIsBest(routes: seq<Route>, env: Env, h: string, i: nat, j: nat)
    requires BestWithCa(routes, env, h, i) && BestWithCa(routes, env, h, j)
    ensures i == j
  {
  }

  /** No two routes on h have the same usable CA. */
  ghost predicate CasDiffer(routes: seq<Route>, env: Env, h: string) {
    forall i, j :: 0 <= i < j < |routes| && h in routes[i].hosts && h in routes[j].hosts && CaOf(routes[i], env) != ""
                   ==> CaOf(routes[i], env) != CaOf(routes[j], env)
  }

  /** With different CAs: exactly when the first route by id also ranks before the others. */
  lemma FirstByIdWinsExactly(
    idna: Idna, routes: seq<Route>, order: seq<nat>, sorted: seq<Route>, env: Env, h: string, i: nat)
    requires Emission(CaddyHosts(idna), routes, order) && Reordered(routes, order, sorted)
    requires NormalizeHost(idna, h) != "" && FirstSlot(routes, env, h, i) && CasDiffer(routes, env, h)
    ensures FirstCa(sorted, env, h) == CaOf(routes[i], env) <==> BestWithCa(routes, env, h, i)
  {
    FirstSlotGivesCa(routes, env, h, i);
    CaIsByIdExactly(idna, routes, order, sorted, env, h);
  }

  lemma FirstSlotGivesCa(routes: seq<Route>, env: Env, h: string, i: nat)
    requires FirstSlot(routes, env, h, i)
    ensures FirstCa(routes, env, h) == CaOf(routes[i], env)
  {
    FirstCaIsFirst(routes, env, h);
    var k :| 0 <= k < |routes| && h in routes[k].hosts && FirstCa(routes, env, h) == CaOf(routes[k], env)
             && forall j :: 0 <= j < k && h in routes[j].hosts ==> CaOf(routes[j], env) == "";
    assert k == i;
  }

  // ---------------------------------------------------------------- two routes

  lemma TwoTogether(same: (nat, nat) -> bool, ranks: seq<Rank>, order: seq<nat>)
    requires SortedWithin(same, ranks, order) && |ranks| == 2 && same(0, 1)
    ensures order == if Before(ranks, 0, 1) then [0, 1] else [1, 0]
  {
    assert order[0] != order[1];
  }

  lemma TwoTouching(hx: Hosts, routes: seq<Route>, order: seq<nat>)
    requires |routes| == 2 && Touches(hx, routes[0], routes[1]) && Emission(hx, routes, order)
    ensures order == if Before(Ranks(routes), 0, 1) then [0, 1] else [1, 0]
  {
    EdgeConnects(Collisions(hx, routes), 0, 1);
    TwoTogether(Together(hx, routes), Ranks(routes), order);
  }

  lemma TwoReordered(a: Route, b: Route, order: seq<nat>, sorted: seq<Route>)
    requires Indices(order, 2) && Reordered([a, b], order, sorted)
    ensures order == [0, 1] ==> sorted == [a, b]
    ensures order == [1, 0] ==> sorted == [b, a]
  {
  }

  lemma TwoSorted(hx: Hosts, a: Route, b: Route, order: seq<nat>, sorted: seq<Route>)
    requires Touches(hx, a, b) && Emission(hx, [a, b], order) && Reordered([a, b], order, sorted)
    ensures sorted == if Before(Ranks([a, b]), 0, 1) then [a, b] else [b, a]
  {
    TwoTouching(hx, [a, b], order);
    TwoReordered(a, b, order, sorted);
  }

  lemma LongerPathGoesFirst(a: Route, b: Route)
    requires PathSpecificity(b) > PathSpecificity(a)
    ensures Before(Ranks([b, a]), 0, 1) && !Before(Ranks([a, b]), 0, 1)
  {
  }

  lemma LongerPathIsEmittedFirst(hx: Hosts, a: Route, b: Route, order: seq<nat>, sorted: seq<Route>)
    requires Touches(hx, a, b) && Emission(hx, [a, b], order) && Reordered([a, b], order, sorted)
    requires PathSpecificity(b) > PathSpecificity(a)
    ensures sorted == [b, a]
  {
    LongerPathGoesFirst(a, b);
    TwoSorted(hx, a, b, order, sorted);
  }

  /** The CA follows emission: of two routes on a host, the one with the longer path, though it comes
      later by id, has its CA taken. */
  lemma CaIsNotById(idna: Idna, a: Route, b: Route, order: seq<nat>, sorted: seq<Route>, env: Env, h: string)
    requires a.hosts == [h] && b.hosts == [h] && NormalizeHost(idna, h) != ""
    requires CaOf(a, env) != "" && CaOf(b, env) != "" && PathSpecificity(b) > PathSpecificity(a)
    requires Emission(CaddyHosts(idna), [a, b], order) && Reordered([a, b], order, sorted)
    ensures FirstCa([a, b], env, h) == CaOf(a, env) && FirstCa(sorted, env, h) == CaOf(b, env)
  {
    SharedHostTouches(idna, a, b, h);
    LongerPathIsEmittedFirst(CaddyHosts(idna), a, b, order, sorted);
    FirstOfTwo(a, b, env, h);
    FirstOfTwo(b, a, env, h);
  }

  lemma FirstOfTwo(a: Route, b: Route, env: Env, h: string)
    requires h in a.hosts && CaOf(a, env) != ""
    ensures FirstCa([a, b], env, h) == CaOf(a, env)
  {
    assert [a, b][..1] == [a] && [a][..0] == [];
    assert FirstCa([], env, h) == "" && FirstCa([a], env, h) == CaOf(a, env);
  }

  // ---------------------------------------------------------------- wildcards over a host

  lemma OverlapTouches(idna: Idna, a: Route, b: Route, x: string, y: string)
    requires a.hosts == [x] && b.hosts == [y] && Stable(idna, x) && Stable(idna, y)
    requires NormalizeHost(idna, x) != "" && NormalizeHost(idna, y) != "" && HostsOverlap(idna, x, y)
    ensures Touches(CaddyHosts(idna), a, b)
  {
    var hx := CaddyHosts(idna);
    assert hx.norm(a.hosts[0]) == NormalizeHost(idna, x) && hx.norm(b.hosts[0]) == NormalizeHost(idna, y);
    assert HostsOverlap(idna, NormalizeHost(idna, x), NormalizeHost(idna, y));
    assert Meet(hx, a.hosts, b.hosts, NormalizeHost(idna, x), NormalizeHost(idna, y));
  }

  /** A PQ-only wildcard route and a route on a host under it that requires client certificates. */
  ghost predicate Shadowing(
    idna: Idna, wild: Route, exact: Route, env: Env, covers: (string, string) -> bool, x: string, h: string)
  {
    && wild.hosts == [x] && exact.hosts == [h] && '*' in x && '*' !in h && covers(x, h) && covers(h, h)
    && Stable(idna, x) && Stable(idna, h) && NormalizeHost(idna, x) != "" && NormalizeHost(idna, h) != ""
    && HostsOverlap(idna, x, h) && HostsOverlap(idna, h, x)
    && PqOf(wild, env) && CaOf(wild, env) == "" && CaOf(exact, env) != ""
  }

  lemma PlainNamesOverlap(idna: Idna, a: seq<string>, b: seq<string>)
    requires Shaped(a) && |JoinDots(a)| <= 253 && InNormalForm(idna, JoinDots(a))
    requires Shaped(b) && |JoinDots(b)| <= 253 && InNormalForm(idna, JoinDots(b))
    requires |a| == |b| && MeetUpTo(a, b, |a|)
    ensures HostsOverlap(idna, JoinDots(a), JoinDots(b)) && HostsOverlap(idna, JoinDots(b), JoinDots(a))
  {
    NameSplits(a);
    NameSplits(b);
    OverlapIsSymmetric(idna, JoinDots(a), JoinDots(b));
  }

  lemma ZoneCovers()
    ensures WildcardCovers("*.z", "a.z") && WildcardCovers("a.z", "a.z") && '*' in "*.z" && '*' !in "a.z"
  {
    assert "*.z"[0] == '*';
    assert "a.z"[1..] == "*.z"[1..];
  }

  /** Such are a route on "*.z" and one on "a.z". */
  lemma ShadowingExample(idna: Idna, wild: Route, exact: Route, env: Env)
    requires LabelByLabel(idna) && InNormalForm(idna, "a") && InNormalForm(idna, "z")
    requires wild.hosts == ["*.z"] && exact.hosts == ["a.z"]
    requires PqOf(wild, env) && CaOf(wild, env) == "" && CaOf(exact, env) != ""
    ensures Shadowing(idna, wild, exact, env, WildcardCovers, "*.z", "a.z")
  {
    ZoneNames(idna);
    PlainNamesOverlap(idna, ["*", "z"], ["a", "z"]);
    ZoneCovers();
  }

  lemma PairIsNormal(idna: Idna, x: string, y: string)
    requires LabelByLabel(idna) && ValidLabel(x) && ValidLabel(y) && InNormalForm(idna, x) && InNormalForm(idna, y)
    ensures Shaped([x, y]) && JoinDots([x, y]) == x + ("." + y) && |JoinDots([x, y])| <= 253
    ensures InNormalForm(idna, JoinDots([x, y]))
  {
    assert [x, y][1..] == [y] && JoinDots([y]) == y;
  }

  lemma ZoneNames(idna: Idna)
    requires LabelByLabel(idna) && InNormalForm(idna, "a") && InNormalForm(idna, "z")
    ensures Shaped(["*", "z"]) && JoinDots(["*", "z"]) == "*.z" && InNormalForm(idna, JoinDots(["*", "z"]))
    ensures Shaped(["a", "z"]) && JoinDots(["a", "z"]) == "a.z" && InNormalForm(idna, JoinDots(["a", "z"]))
  {
    PairIsNormal(idna, "*", "z");
    PairIsNormal(idna, "a", "z");
    assert "*" + ("." + "z") == "*.z" && "a" + ("." + "z") == "a.z";
  }

  lemma WildcardRanks(wild: Route, exact: Route)
    requires |wild.hosts| == |exact.hosts| == 1 && '*' in wild.hosts[0] && '*' !in exact.hosts[0]
    ensures Before(Ranks([wild, exact]), 0, 1) <==> PathSpecificity(wild) > PathSpecificity(exact)
    ensures Before(Ranks([exact, wild]), 0, 1) <==> PathSpecificity(wild) <= PathSpecificity(exact)
  {
    assert WildcardRank(wild) == 1 && WildcardRank(exact) == 0;
  }

  lemma WildcardOrder(
    idna: Idna, routes: seq<Route>, order: seq<nat>, sorted: seq<Route>, wild: Route, exact: Route, env: Env,
    covers: (string, string) -> bool, x: string, h: string)
    requires Shadowing(idna, wild, exact, env, covers, x, h)
    requires routes == [wild, exact] || routes == [exact, wild]
    requires Emission(CaddyHosts(idna), routes, order) && Reordered(routes, order, sorted)
    ensures sorted == if PathSpecificity(wild) > PathSpecificity(exact) then [wild, exact] else [exact, wild]
  {
    WildcardRanks(wild, exact);
    OverlapTouches(idna, wild, exact, x, h);
    OverlapTouches(idna, exact, wild, h, x);
    TwoSorted(CaddyHosts(idna), routes[0], routes[1], order, sorted);
  }

  /** In the order they are emitted in, whatever their ids: the host gets its own options exactly when
      the wildcard route's path is no more specific. */
  lemma ShadowedExactlyByLongerPath(
    idna: Idna, routes: seq<Route>, order: seq<nat>, sorted: seq<Route>, wild: Route, exact: Route,
    env: Env, mode: Mode, covers: (string, string) -> bool, x: string, h: string)
    requires Shadowing(idna, wild, exact, env, covers, x, h)
    requires routes == [wild, exact] || routes == [exact, wild]
    requires Emission(CaddyHosts(idna), routes, order) && Reordered(routes, order, sorted)
    ensures Lookup(Emitted(sorted, env, mode), covers, h) == Some(Wanted(sorted, env, h))
            <==> PathSpecificity(wild) <= PathSpecificity(exact)
  {
    WildcardOrder(idna, routes, order, sorted, wild, exact, env, covers, x, h);
    EitherOrder(idna, wild, exact, env, mode, covers, x, h);
  }

  lemma EitherOrder(
    idna: Idna, wild: Route, exact: Route, env: Env, mode: Mode, covers: (string, string) -> bool, x: string, h: string)
    requires Shadowing(idna, wild, exact, env, covers, x, h)
    ensures Lookup(Emitted([wild, exact], env, mode), covers, h) != Some(Wanted([wild, exact], env, h))
    ensures Lookup(Emitted([exact, wild], env, mode), covers, h) == Some(Wanted([exact, wild], env, h))
  {
    EarlierWildcardShadows(wild, exact, env, mode, covers, x, h);
    ExactComesFirst(exact, wild, env, mode, covers, h, x);
  }

  lemma ExactComesFirst(
    exact: Route, wild: Route, env: Env, mode: Mode, covers: (string, string) -> bool, h: string, x: string)
    requires exact.hosts == [h] && wild.hosts == [x] && x != h && covers(h, h)
    requires OptsIn(exact, env) && OptsIn(wild, env)
    ensures Lookup(Emitted([exact, wild], env, mode), covers, h) == Some(Wanted([exact, wild], env, h))
  {
    TwoHosts(exact, wild, env, h, x);
    LookupOfEmitted([exact, wild], env, mode, covers, h);
    assert [h, x][..1] == [h] && [h][..0] == [];
    assert FirstCover([h], covers, h) == Some(h);
  }

  /** On the list a node emits, too: a host gets its own options exactly when the first opted-in
      matcher covering it, in emission order, wants the same. */
  lemma NodeHostGetsItsOptionsExactly(
    idna: Idna, routes: seq<Route>, order: seq<nat>, sorted: seq<Route>, env: Env, mode: Mode,
    covers: (string, string) -> bool, h: string)
    requires Emission(CaddyHosts(idna), routes, order) && Reordered(routes, order, sorted)
    requires covers(h, h) && exists i :: 0 <= i < |routes| && OptsIn(routes[i], env) && h in routes[i].hosts
    ensures var w := FirstCover(HostOrder(sorted, env), covers, h);
            && w.Some?
            && (Lookup(Emitted(sorted, env, mode), covers, h) == Some(Wanted(sorted, env, h))
                <==> Wanted(sorted, env, w.value) == Wanted(sorted, env, h))
  {
    var i :| 0 <= i < |routes| && OptsIn(routes[i], env) && h in routes[i].hosts;
    assert Placed(order, i);
    var k :| 0 <= k < |order| && order[k] == i;
    assert OptsIn(sorted[k], env) && h in sorted[k].hosts;
    HostOrderListsOptedIn(sorted, env);
    HostGetsItsOptionsExactly(sorted, env, mode, covers, h);
  }

  // ---------------------------------------------------------------- wildcard hosts

  lemma {:induction false} ZonesKeepCa(routes: seq<Route>, zones: seq<string>, env: Env, h: string)
    ensures FirstCa(NodeConfig.WithZones(routes, zones), env, h) == FirstCa(routes, env, h)
    decreases |routes|
  {
    if routes != [] {
      var front := routes[..|routes| - 1];
      ZonesKeepCa(front, zones, env, h);
      assert NodeConfig.WithZones(routes, zones)[..|routes| - 1] == NodeConfig.WithZones(front, zones);
    }
  }

  /** So giving routes wildcard hosts changes no host's TLS options. */
  lemma ZonesKeepOptions(routes: seq<Route>, zones: seq<string>, env: Env, h: string)
    ensures Wanted(NodeConfig.WithZones(routes, zones), env, h) == Wanted(routes, env, h)
  {
    ZonesKeepCa(routes, zones, env, h);
    var zoned := NodeConfig.WithZones(routes, zones);
    assert forall i :: 0 <= i < |routes| && PqOf(routes[i], env) ==> zoned[i] == routes[i];
    assert forall i :: 0 <= i < |routes| && PqOf(zoned[i], env) ==> zoned[i] == routes[i];
  }
}
