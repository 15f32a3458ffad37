/**
  Emission order for host matchers as Caddy reads them, root dots included. The order is right for
  every choice of paths and gates exactly when no two routes in different components have matchers
  whose overlap the root dots hide.
 */
module LiteralOrder {
  import opened Strings
  import opened RouteModel
  import opened HostMatch
  import opened LiteralHosts
  import opened Components
  import opened RouteOrder

  /** The request hosts a route accepts, by the matchers as stored. */
  ghost predicate ListAccepts(idna: Idna, expand: Expansion, hs: seq<string>, host: string) {
    || AllBlank(CaddyHosts(idna), hs)
    || exists i :: 0 <= i < |hs| && AcceptsLiterally(idna, expand, hs[i], host)
  }

  ghost predicate RouteAcceptsLiterally(idna: Idna, expand: Expansion, r: Route, host: string) {
    ListAccepts(idna, expand, r.hosts, host)
  }

  ghost predicate AllStable(idna: Idna, lists: seq<seq<string>>) {
    forall i, a :: 0 <= i < |lists| && 0 <= a < |lists[i]| ==> Stable(idna, lists[i][a])
  }

  /** Two lists hold matchers whose overlap the test misses. */
  predicate Clash(idna: Idna, a: seq<string>, b: seq<string>) {
    exists i, j :: 0 <= i < |a| && 0 <= j < |b| && ClashAt(idna, a[i], b[j])
  }

  predicate ClashAt(idna: Idna, x: string, y: string) {
    Modelled(idna, x) && Modelled(idna, y) && HiddenPair(idna, x, y)
  }

  /** No such matchers in lists that nothing else connects. */
  ghost predicate NoHiddenSplit(idna: Idna, lists: seq<seq<string>>) {
    forall i, j :: 0 <= i < |lists| && 0 <= j < |lists| && Clash(idna, lists[i], lists[j]) ==>
      Connected(ListCollisions(CaddyHosts(idna), lists), i, j)
  }

  /** Lists that accept a common host touch, unless root dots hide the overlap. */
  lemma AcceptingListsTouch(idna: Idna, expand: Expansion, a: seq<string>, b: seq<string>, host: string)
    requires forall i :: 0 <= i < |a| ==> Stable(idna, a[i])
    requires forall i :: 0 <= i < |b| ==> Stable(idna, b[i])
    requires ListAccepts(idna, expand, a, host) && ListAccepts(idna, expand, b, host)
    ensures ListsTouch(CaddyHosts(idna), a, b) || Clash(idna, a, b)
  {
    var hx := CaddyHosts(idna);
    if !AllBlank(hx, a) && !AllBlank(hx, b) {
      var i :| 0 <= i < |a| && AcceptsLiterally(idna, expand, a[i], host);
      var j :| 0 <= j < |b| && AcceptsLiterally(idna, expand, b[j], host);
      if HostsOverlap(idna, a[i], b[j]) {
        OverlapOfStable(idna, a[i], b[j]);
        assert Meet(hx, a, b, NormalizeHost(idna, a[i]), NormalizeHost(idna, b[j]));
      } else {
        MissedIsHidden(idna, expand, a[i], b[j], host);
        assert ClashAt(idna, a[i], b[j]);
      }
    }
  }

  lemma OverlapOfStable(idna: Idna, x: string, y: string)
    requires Stable(idna, x) && Stable(idna, y) && HostsOverlap(idna, x, y)
    ensures HostsOverlap(idna, NormalizeHost(idna, x), NormalizeHost(idna, y))
  {
  }

  lemma AcceptedOnWriteHasNoRootDot(idna: Idna, x: string)
    requires ValidHostMatcher(idna, x)
    ensures RootDots(x) == 0
  {
    var raw := TrimSpace(x);
    assert ToLower(raw)[|raw| - 1] == LowerChar(raw[|raw| - 1]);
  }

  /** The check the write paths make is enough: it refuses root-dotted matchers, so lists of accepted
      ones hide nothing. */
  lemma AcceptedOnWriteHidesNothing(idna: Idna, lists: seq<seq<string>>)
    requires forall i, a :: 0 <= i < |lists| && 0 <= a < |lists[i]| ==> ValidHostMatcher(idna, lists[i][a])
    ensures NoHiddenSplit(idna, lists)
  {
    forall i, j | 0 <= i < |lists| && 0 <= j < |lists| ensures !Clash(idna, lists[i], lists[j]) {
      forall a, b | 0 <= a < |lists[i]| && 0 <= b < |lists[j]| ensures !ClashAt(idna, lists[i][a], lists[j][b]) {
        AcceptedOnWriteHasNoRootDot(idna, lists[i][a]);
        AcceptedOnWriteHasNoRootDot(idna, lists[j][b]);
      }
    }
  }

  // ---------------------------------------------------------------- sufficient

  lemma AcceptingRoutesAreConnected(
    idna: Idna, expand: Expansion, routes: seq<Route>, host: string, i: nat, j: nat)
    requires AllStable(idna, HostsOf(routes)) && NoHiddenSplit(idna, HostsOf(routes))
    requires i < |routes| && j < |routes|
    requires RouteAcceptsLiterally(idna, expand, routes[i], host)
    requires RouteAcceptsLiterally(idna, expand, routes[j], host)
    ensures Connected(Collisions(CaddyHosts(idna), routes), i, j)
  {
    var lists := HostsOf(routes);
    assert forall a :: 0 <= a < |lists[i]| ==> Stable(idna, lists[i][a]);
    assert forall a :: 0 <= a < |lists[j]| ==> Stable(idna, lists[j][a]);
    AcceptingListsTouch(idna, expand, lists[i], lists[j], host);
    if ListsTouch(CaddyHosts(idna), lists[i], lists[j]) {
      EdgeConnects(ListCollisions(CaddyHosts(idna), lists), i, j);
    }
  }

  /** First match is best match by the matchers as stored: for every request host and every set of
      matching routes, the first of them in emission order goes before all the others. */
  lemma LiteralFirstMatchIsBest(
    idna: Idna, expand: Expansion, routes: seq<Route>, order: seq<nat>, host: string,
    matches: nat -> bool, k: nat, j: nat)
    requires AllStable(idna, HostsOf(routes)) && NoHiddenSplit(idna, HostsOf(routes))
    requires Emission(CaddyHosts(idna), routes, order)
    requires forall i :: 0 <= i < |routes| && matches(i) ==> RouteAcceptsLiterally(idna, expand, routes[i], host)
    requires k < |order| && matches(order[k]) && forall l :: 0 <= l < k ==> !matches(order[l])
    requires j < |routes| && matches(j) && j != order[k]
    ensures Before(Ranks(routes), order[k], j)
  {
    var hx := CaddyHosts(idna);
    AcceptingRoutesAreConnected(idna, expand, routes, host, order[k], j);
    TogetherIsEquivalence(hx, routes);
    EarlierGoesBefore(Together(hx, routes), Ranks(routes), order, k, j);
  }

  // ---------------------------------------------------------------- necessary

  /** Any two routes that accept the host come in the order of their ranks. */
  ghost predicate InOrder(idna: Idna, expand: Expansion, routes: seq<Route>, order: seq<nat>, host: string)
    requires Indices(order, |routes|)
  {
    forall k, l :: 0 <= k < l < |order|
                   && RouteAcceptsLiterally(idna, expand, routes[order[k]], host)
                   && RouteAcceptsLiterally(idna, expand, routes[order[l]], host)
                   ==> Before(Ranks(routes), order[k], order[l])
  }

  /** Whatever paths and gates the routes with these host lists have. */
  ghost predicate AlwaysInOrder(idna: Idna, expand: Expansion, lists: seq<seq<string>>) {
    forall routes, order, host ::
      HostsOf(routes) == lists && Emission(CaddyHosts(idna), routes, order) ==>
        InOrder(idna, expand, routes, order, host)
  }

  /** A path prefix of n characters. */
  function Prefix(n: nat): (p: string)
    requires n >= 2
    ensures |p| == n
  {
    "/" + seq(n - 1, i => 'a')
  }

  lemma PrefixSpecificity(r: Route, n: nat)
    requires n >= 2 && r.pathPrefix == Prefix(n)
    ensures PathSpecificity(r) == n
  {
    assert r.pathPrefix[0] == '/' && r.pathPrefix[n - 1] == 'a';
  }

  /** Paths that leave every route in its slot, but rank the component of j above the others. */
  ghost function Length(lists: seq<seq<string>>, g: Graph, j: nat, t: nat): nat
    requires t < |lists|
  {
    (if Connected(g, j, t) then 2 * |lists| + 4 else |lists| + 2) - t
  }

  ghost function Favouring(routes: seq<Route>, g: Graph, j: nat): (out: seq<Route>)
    ensures |out| == |routes|
  {
    seq(|routes|, t requires 0 <= t < |routes| =>
      routes[t].(pathPrefix := Prefix(Length(HostsOf(routes), g, j, t))))
  }

  lemma FavouringKeepsHosts(routes: seq<Route>, g: Graph, j: nat)
    ensures HostsOf(Favouring(routes, g, j)) == HostsOf(routes)
  {
  }

  lemma FavouringRanks(routes: seq<Route>, g: Graph, j: nat, t: nat)
    requires t < |routes|
    ensures Ranks(Favouring(routes, g, j))[t].specificity == Length(HostsOf(routes), g, j, t)
  {
    PrefixSpecificity(Favouring(routes, g, j)[t], Length(HostsOf(routes), g, j, t));
  }

  function Identity(n: nat): (order: seq<nat>)
    ensures |order| == n && forall k :: 0 <= k < n ==> order[k] == k
  {
    seq(n, k => k)
  }

  lemma IdentityIsEmission(idna: Idna, routes: seq<Route>, j: nat)
    requires j < |routes|
    ensures var g := Collisions(CaddyHosts(idna), routes);
            Emission(CaddyHosts(idna), Favouring(routes, g, j), Identity(|routes|))
  {
    var hx := CaddyHosts(idna);
    var g := Collisions(hx, routes);
    var fav, order := Favouring(routes, g, j), Identity(|routes|);
    FavouringKeepsHosts(routes, g, j);
    forall k | 0 <= k < |order| ensures Connected(g, k, order[k]) && Placed(order, k) {
      ConnectedToItself(g, k);
      assert order[k] == k;
    }
    forall k, l | 0 <= k < l < |order| && Connected(g, k, l) ensures Before(Ranks(fav), order[k], order[l]) {
      FavouringRanks(routes, g, j, k);
      FavouringRanks(routes, g, j, l);
      SameSide(g, j, k, l);
    }
  }

  lemma SameSide(g: Graph, j: nat, k: nat, l: nat)
    requires Connected(g, k, l)
    ensures Connected(g, j, k) <==> Connected(g, j, l)
  {
    if Connected(g, j, k) {
      ConnectedOn(g, j, k, l);
    }
    if Connected(g, j, l) {
      ConnectedBack(g, k, l);
      ConnectedOn(g, j, l, k);
    }
  }

  lemma FavouredRanksFirst(routes: seq<Route>, g: Graph, i: nat, j: nat)
    requires i < j < |routes| && j < g.n && !Connected(g, j, i)
    ensures !Before(Ranks(Favouring(routes, g, j)), i, j)
  {
    FavouringRanks(routes, g, j, i);
    FavouringRanks(routes, g, j, j);
    ConnectedToItself(g, j);
  }

  lemma NotInOrder(idna: Idna, expand: Expansion, routes: seq<Route>, order: seq<nat>, host: string, k: nat, l: nat)
    requires Indices(order, |routes|) && k < l < |order|
    requires RouteAcceptsLiterally(idna, expand, routes[order[k]], host)
    requires RouteAcceptsLiterally(idna, expand, routes[order[l]], host)
    requires !Before(Ranks(routes), order[k], order[l])
    ensures !InOrder(idna, expand, routes, order, host)
  {
  }

  lemma OneFailureIsEnough(
    idna: Idna, expand: Expansion, lists: seq<seq<string>>, routes: seq<Route>, order: seq<nat>, host: string)
    requires HostsOf(routes) == lists && Emission(CaddyHosts(idna), routes, order)
    requires !InOrder(idna, expand, routes, order, host)
    ensures !AlwaysInOrder(idna, expand, lists)
  {
  }

  /** A hidden overlap between unconnected routes puts some choice of paths in the wrong order. */
  lemma SplitBreaksOrder(idna: Idna, expand: Expansion, routes: seq<Route>, i: nat, j: nat)
    requires i < j < |routes| && Clash(idna, routes[i].hosts, routes[j].hosts)
    requires !Connected(Collisions(CaddyHosts(idna), routes), j, i)
    ensures !AlwaysInOrder(idna, expand, HostsOf(routes))
  {
    var g := Collisions(CaddyHosts(idna), routes);
    var fav, order := Favouring(routes, g, j), Identity(|routes|);
    var host := CommonHost(idna, expand, routes[i].hosts, routes[j].hosts);
    FavouredRanksFirst(routes, g, i, j);
    NotInOrder(idna, expand, fav, order, host, i, j);
    IdentityIsEmission(idna, routes, j);
    FavouringKeepsHosts(routes, g, j);
    OneFailureIsEnough(idna, expand, HostsOf(routes), fav, order, host);
  }

  lemma CommonHost(idna: Idna, expand: Expansion, a: seq<string>, b: seq<string>) returns (host: string)
    requires Clash(idna, a, b)
    ensures ListAccepts(idna, expand, a, host) && ListAccepts(idna, expand, b, host)
  {
    var i, j :| 0 <= i < |a| && 0 <= j < |b| && ClashAt(idna, a[i], b[j]);
    HiddenIsMissed(idna, expand, a[i], b[j]);
    host :| AcceptsLiterally(idna, expand, a[i], host) && AcceptsLiterally(idna, expand, b[j], host);
  }

  lemma ClashIsSymmetric(idna: Idna, a: seq<string>, b: seq<string>)
    requires Clash(idna, a, b)
    ensures Clash(idna, b, a)
  {
    var i, j :| 0 <= i < |a| && 0 <= j < |b| && ClashAt(idna, a[i], b[j]);
    HiddenFlips(SplitDots(NormalizeHost(idna, a[i])), RootDots(a[i]),
                SplitDots(NormalizeHost(idna, b[j])), RootDots(b[j]));
    assert ClashAt(idna, b[j], a[i]);
  }

  /** For every list of host lists: the emission order is right for all paths and gates, and by the
      matchers as stored, exactly when no overlap that root dots hide splits two components. */
  lemma InOrderExactly(idna: Idna, expand: Expansion, routes: seq<Route>)
    requires AllStable(idna, HostsOf(routes))
    ensures AlwaysInOrder(idna, expand, HostsOf(routes)) <==> NoHiddenSplit(idna, HostsOf(routes))
  {
    var lists, hx := HostsOf(routes), CaddyHosts(idna);
    if NoHiddenSplit(idna, lists) {
      forall rs, order, host | HostsOf(rs) == lists && Emission(hx, rs, order)
        ensures InOrder(idna, expand, rs, order, host)
      {
        NoSplitKeepsOrder(idna, expand, rs, order, host);
      }
    } else {
      var i, j :| 0 <= i < |lists| && 0 <= j < |lists| && Clash(idna, lists[i], lists[j])
                  && !Connected(ListCollisions(hx, lists), i, j);
      SplitEitherWay(idna, expand, routes, i, j);
    }
  }

  lemma SplitEitherWay(idna: Idna, expand: Expansion, routes: seq<Route>, i: nat, j: nat)
    requires i < |routes| && j < |routes| && Clash(idna, routes[i].hosts, routes[j].hosts)
    requires !Connected(Collisions(CaddyHosts(idna), routes), i, j)
    ensures !AlwaysInOrder(idna, expand, HostsOf(routes))
  {
    var g := Collisions(CaddyHosts(idna), routes);
    if i == j {
      ConnectedToItself(g, i);
    } else if i < j {
      if Connected(g, j, i) {
        ConnectedBack(g, j, i);
      }
      SplitBreaksOrder(idna, expand, routes, i, j);
    } else {
      ClashIsSymmetric(idna, routes[i].hosts, routes[j].hosts);
      SplitBreaksOrder(idna, expand, routes, j, i);
    }
  }

  lemma NoSplitKeepsOrder(idna: Idna, expand: Expansion, routes: seq<Route>, order: seq<nat>, host: string)
    requires AllStable(idna, HostsOf(routes)) && NoHiddenSplit(idna, HostsOf(routes))
    requires Emission(CaddyHosts(idna), routes, order)
    ensures InOrder(idna, expand, routes, order, host)
  {
    var hx := CaddyHosts(idna);
    TogetherIsEquivalence(hx, routes);
    forall k, l | 0 <= k < l < |order|
                  && RouteAcceptsLiterally(idna, expand, routes[order[k]], host)
                  && RouteAcceptsLiterally(idna, expand, routes[order[l]], host)
      ensures Before(Ranks(routes), order[k], order[l])
    {
      AcceptingRoutesAreConnected(idna, expand, routes, host, order[k], order[l]);
      EarlierGoesBefore(Together(hx, routes), Ranks(routes), order, k, order[l]);
    }
  }

  // ---------------------------------------------------------------- the failing list

  lemma TwoApartStay(hx: Hosts, routes: seq<Route>, order: seq<nat>)
    requires Symmetric(hx) && |routes| == 2 && Emission(hx, routes, order)
    requires !Touches(hx, routes[0], routes[1]) && !Touches(hx, routes[1], routes[0])
    ensures order == [0, 1]
  {
    LoneRouteKeepsSlot(hx, routes, order, 0);
    LoneRouteKeepsSlot(hx, routes, order, 1);
  }

  /** Two routes with one matcher each that do not overlap keep their order, whatever they rank. */
  lemma ApartKeepOrder(idna: Idna, routes: seq<Route>, order: seq<nat>, x: string, y: string)
    requires |routes| == 2 && routes[0].hosts == [x] && routes[1].hosts == [y]
    requires Modelled(idna, x) && Modelled(idna, y) && !HostsOverlap(idna, x, y)
    requires Emission(CaddyHosts(idna), routes, order)
    ensures order == [0, 1]
  {
    CaddyHostsAreSymmetric(idna);
    ApartDontTouch(idna, routes[0], routes[1], x, y);
    OverlapIsSymmetric(idna, x, y);
    ApartDontTouch(idna, routes[1], routes[0], y, x);
    TwoApartStay(CaddyHosts(idna), routes, order);
  }

  lemma ApartDontTouch(idna: Idna, a: Route, b: Route, x: string, y: string)
    requires a.hosts == [x] && b.hosts == [y] && Modelled(idna, x) && Modelled(idna, y) && !HostsOverlap(idna, x, y)
    ensures !Touches(CaddyHosts(idna), a, b)
  {
    ModelledIsShaped(idna, x);
    ModelledIsShaped(idna, y);
    var hx := CaddyHosts(idna);
    assert a.hosts[0] == x && b.hosts[0] == y;
    if p, q :| Meet(hx, a.hosts, b.hosts, p, q) {
      assert p == NormalizeHost(idna, x) && q == NormalizeHost(idna, y);
      SameOverlaps(idna, x, y);
      assert false;
    }
  }

  /** Matchers with one normal form overlap, and normalising does not change the answer. */
  lemma SameOverlaps(idna: Idna, x: string, y: string)
    requires Stable(idna, x) && Stable(idna, y)
    ensures NormalizeHost(idna, x) == NormalizeHost(idna, y) ==> HostsOverlap(idna, x, y)
    ensures HostsOverlap(idna, NormalizeHost(idna, x), NormalizeHost(idna, y)) == HostsOverlap(idna, x, y)
  {
    var labels := SplitDots(NormalizeHost(idna, x));
    assert forall i :: 0 <= i < |labels| ==> LabelsMeet(labels[i], labels[i]);
  }

  lemma OneMatcherAccepts(idna: Idna, expand: Expansion, r: Route, x: string, host: string)
    requires r.hosts == [x] && AcceptsLiterally(idna, expand, x, host)
    ensures RouteAcceptsLiterally(idna, expand, r, host)
  {
    assert r.hosts[0] == x;
  }

  /** The failing input: of routes on "a.*" and "a.", in this order, the first is always emitted
      first and takes requests for "a.", however specific or guarded the second is. */
  lemma RootDotIsShadowed(idna: Idna, expand: Expansion, routes: seq<Route>, order: seq<nat>)
    requires LabelByLabel(idna) && InNormalForm(idna, "a")
    requires |routes| == 2 && routes[0].hosts == ["a.*"] && routes[1].hosts == ["a."]
    requires Emission(CaddyHosts(idna), routes, order)
    ensures order == [0, 1]
    ensures RouteAcceptsLiterally(idna, expand, routes[0], "a.") && RouteAcceptsLiterally(idna, expand, routes[1], "a.")
    ensures Before(Ranks(routes), 1, 0) ==> !InOrder(idna, expand, routes, order, "a.")
  {
    RootDotHidesOverlap(idna, expand);
    OverlapIsSymmetric(idna, "a.", "a.*");
    ApartKeepOrder(idna, routes, order, "a.*", "a.");
    OneMatcherAccepts(idna, expand, routes[0], "a.*", "a.");
    OneMatcherAccepts(idna, expand, routes[1], "a.", "a.");
    if Before(Ranks(routes), 1, 0) {
      NotInOrder(idna, expand, routes, order, "a.", 0, 1);
    }
  }
}
