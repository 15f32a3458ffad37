/**
  The route list of a node's configuration (BuildNodeConfig in internal/caddyapi/config.go): the
  panel's own route and the tunnel route, then the tenants' routes with their wildcard hosts, sorted
  for emission and compiled. Caddy runs the first one that matches, so every request is decided by
  the policy of the best-ranked route that matches it.
 */
module NodeConfig {
  import opened Wrappers
  import opened RouteModel
  import opened HostMatch
  import opened LiteralOrder
  import opened RouteOrder
  import opened HandlerTree
  import opened RouteCompiler
  import opened RouteOutcome
  import opened RoutePolicy

  /** What the node's Caddy build offers. */
  datatype Modules = Modules(cache: bool, rateLimit: bool, waf: bool, wafFailOpen: bool, geo: bool)

  datatype TunnelRoute = TunnelRoute(hostname: string, port: int)

  /** zones: the DNS zones with a live wildcard certificate policy. */
  datatype Settings = Settings(
    zones: seq<string>, panel: Option<Route>, tunnel: Option<TunnelRoute>, modules: Modules)

  function OnNode(r: Route, m: Modules): Route {
    r.(cacheModule := m.cache, rateModule := m.rateLimit, wafModule := m.waf,
       wafFailOpen := m.wafFailOpen, geoModule := m.geo)
  }

  // ---------------------------------------------------------------- wildcard hosts

  /** Routes with TLS options of their own stay off the wildcard, which would impose them on the zone. */
  function WithZone(r: Route, zones: seq<string>): Route {
    if r.wildcardZone == "" || r.wildcardZone !in zones || r.requireClientCert || r.tlsPqOnly then r
    else if "*." + r.wildcardZone in r.hosts then r
    else r.(hosts := r.hosts + ["*." + r.wildcardZone])
  }

  function WithZones(routes: seq<Route>, zones: seq<string>): (out: seq<Route>)
    ensures |out| == |routes|
  {
    seq(|routes|, i requires 0 <= i < |routes| => WithZone(routes[i], zones))
  }

  /** withWildcardHosts */
  method WithWildcardHosts(routes: seq<Route>, zones: seq<string>) returns (out: seq<Route>)
    ensures out == WithZones(routes, zones)
  {
    out := routes;
    if zones == [] {
      return;
    }
    for i := 0 to |routes|
      invariant |out| == |routes|
      invariant forall j :: 0 <= j < i ==> out[j] == WithZone(routes[j], zones)
      invariant forall j :: i <= j < |routes| ==> out[j] == routes[j]
    {
      var r := routes[i];
      if r.wildcardZone == "" || r.wildcardZone !in zones || r.requireClientCert || r.tlsPqOnly {
        continue;
      }
      var h := "*." + r.wildcardZone;
      if h !in r.hosts {
        out := out[i := r.(hosts := r.hosts + [h])];
      }
    }
  }

  /** The zone has a wildcard for the route, which has no TLS options of its own. */
  predicate TakesZone(r: Route, zones: seq<string>) {
    r.wildcardZone != "" && r.wildcardZone in zones && !r.requireClientCert && !r.tlsPqOnly
  }

  lemma InAppended(hs: seq<string>, x: string, h: string)
    ensures h in hs + [x] <==> h in hs || h == x
  {
  }

  /** Such a route takes the wildcard beside its own hosts, any other keeps just its own. */
  lemma ZoneAddsExactly(r: Route, zones: seq<string>, h: string)
    ensures h in WithZone(r, zones).hosts <==> h in r.hosts || (TakesZone(r, zones) && h == "*." + r.wildcardZone)
  {
    var wild := "*." + r.wildcardZone;
    InAppended(r.hosts, wild, h);
    if TakesZone(r, zones) && wild !in r.hosts {
      assert WithZone(r, zones).hosts == r.hosts + [wild];
    } else {
      assert WithZone(r, zones).hosts == r.hosts;
    }
  }

  // ---------------------------------------------------------------- the route list

  ghost function Emitted(routes: seq<Route>, order: seq<nat>, m: Modules): (out: seq<HRoute>)
    requires Indices(order, |routes|)
    ensures |out| == |order|
  {
    seq(|order|, k requires 0 <= k < |order| => Compile(OnNode(routes[order[k]], m)))
  }

  const TUNNEL_PATH := ["/wg-tunnel*"]

  /** buildWstunnelCaddyRoute */
  function CompileTunnel(t: TunnelRoute): HRoute {
    HRoute([All([Host([t.hostname]), Path(TUNNEL_PATH)])], [Forward(Tunnel(t.port))], false)
  }

  /** The routes in front of the tenants'. */
  function OwnRoutes(s: Settings): seq<HRoute> {
    (if s.panel.Some? then [Compile(OnNode(s.panel.value, s.modules))] else [])
    + if s.tunnel.Some? && s.tunnel.value.hostname != "" && s.tunnel.value.port > 0 then [CompileTunnel(s.tunnel.value)]
      else []
  }

  /** The loop that compiles the sorted routes. */
  method CompileAll(sorted: seq<Route>, m: Modules) returns (out: seq<HRoute>)
    ensures |out| == |sorted| && forall k :: 0 <= k < |out| ==> out[k] == Compile(OnNode(sorted[k], m))
  {
    out := [];
    for k := 0 to |sorted|
      invariant |out| == k && forall j :: 0 <= j < k ==> out[j] == Compile(OnNode(sorted[j], m))
    {
      var route := BuildRoute(OnNode(sorted[k], m));
      out := out + [route];
    }
  }

  /** The route list of BuildNodeConfig. */
  method BuildNodeRoutes(idna: Idna, routes: seq<Route>, s: Settings) returns (out: seq<HRoute>)
    ensures exists order :: Emission(CaddyHosts(idna), WithZones(routes, s.zones), order)
                            && out == OwnRoutes(s) + Emitted(WithZones(routes, s.zones), order, s.modules)
  {
    var zoned := WithWildcardHosts(routes, s.zones);
    var sorted := SortRoutesForEmission(idna, zoned);
    var own := [];
    if s.panel.Some? {
      var panel := BuildRoute(OnNode(s.panel.value, s.modules));
      own := [panel];
    }
    if s.tunnel.Some? && s.tunnel.value.hostname != "" && s.tunnel.value.port > 0 {
      own := own + [CompileTunnel(s.tunnel.value)];
    } else {
      assert own + [] == own;
    }
    var tenants := CompileAll(sorted, s.modules);
    out := own + tenants;
    ghost var order :| Emission(CaddyHosts(idna), zoned, order) && Reordered(zoned, order, sorted);
    assert tenants == Emitted(zoned, order, s.modules);
  }

  // ---------------------------------------------------------------- who decides

  /** A compiled chain always ends the request. */
  lemma NeverFallsThrough(r: Route, w: World, q: Req)
    requires IsFor(r, w, q)
    ensures !RunAll(Handlers(r), w, q).Next?
  {
    if Refused(r) {
      RefusedDialsNothing(r, w, q);
    } else if r.maintenance {
      ForItsHost(r, w, q);
      MaintenanceEnds(r, w, q);
      WithHttpsRuns(r, MaintenanceHandlers(r), w, q);
    } else {
      HandlersRun(r, w, q);
      ChainRuns(r, w, q);
    }
  }

  /** Some module of the node stops the request. */
  predicate Stopped(r: Route, m: Modules, w: World, q: Req) {
    || (r.waf && r.wafBlocking && m.waf && !w.wafPasses(Cleaned(r, w, q)))
    || (r.rateLimit && m.rateLimit && !w.underLimit(Cleaned(r, w, q)))
    || (r.geoMode != GeoOff && r.geoCountries != [] && r.geoAllow == []
        && if m.geo then !w.permits(r.geoMode, r.geoCountries) else r.geoFailClosed)
  }

  lemma StoppedIsAnswered(r: Route, m: Modules, w: World, q: Req)
    requires !r.maintenance && Stopped(r, m, w, q)
    ensures Outcome(OnNode(r, m), w, q).Answered?
  {
  }

  /** What the node's modules decide: without the firewall a blocking route is withheld unless the node
      fails open; without the cache module nothing comes from the cache; and what the firewall, the rate
      limiter or the country rule stops dials nothing. */
  lemma ModulesDecide(r: Route, m: Modules, w: World, q: Req)
    requires IsFor(OnNode(r, m), w, q)
    ensures r.waf && r.wafBlocking && !m.waf && !m.wafFailOpen ==> RunAll(Handlers(OnNode(r, m)), w, q) == Answered(503)
    ensures !m.cache ==> RunAll(Handlers(OnNode(r, m)), w, q) != FromCache
    ensures !r.maintenance && Stopped(r, m, w, q) ==> RunAll(Handlers(OnNode(r, m)), w, q).Answered?
  {
    CompiledMeansRecord(OnNode(r, m), w, q);
    CacheAnswersExactly(OnNode(r, m), w, q);
    if !r.maintenance && Stopped(r, m, w, q) {
      StoppedIsAnswered(r, m, w, q);
    }
  }

  /** The first route for a request decides it; without one nothing is dialled. */
  lemma {:induction false} FirstDecides(routes: seq<HRoute>, w: World, q: Req, k: nat)
    requires k <= |routes| && forall l :: 0 <= l < k ==> !Applies(routes[l].sets, w, q)
    requires k < |routes| ==> Applies(routes[k].sets, w, q) && !RunAll(routes[k].handle, w, q).Next?
    ensures RunRoutes(routes, w, q) == if k < |routes| then RunAll(routes[k].handle, w, q) else Next(q)
    decreases k
  {
    if k > 0 {
      FirstDecides(routes[1..], w, q, k - 1);
    }
  }

  predicate ForPanel(s: Settings, w: World, q: Req) {
    s.panel.Some? && IsFor(OnNode(s.panel.value, s.modules), w, q)
  }

  predicate ForTunnel(s: Settings, w: World, q: Req) {
    && s.tunnel.Some? && s.tunnel.value.hostname != "" && s.tunnel.value.port > 0
    && w.hostIs(q.host, [s.tunnel.value.hostname]) && w.pathIs(q.path, TUNNEL_PATH)
  }

  lemma TunnelRuns(t: TunnelRoute, w: World, q: Req)
    ensures RunRoutes([CompileTunnel(t)], w, q)
            == if w.hostIs(q.host, [t.hostname]) && w.pathIs(q.path, TUNNEL_PATH) then Proxied(Tunnel(t.port))
               else Next(q)
  {
    OneRoute(CompileTunnel(t), w, q);
    OneSet([Host([t.hostname]), Path(TUNNEL_PATH)], w, q);
    MatchesTwo(Host([t.hostname]), Path(TUNNEL_PATH), w, q);
    RunsOne(Forward(Tunnel(t.port)), w, q);
  }

  lemma PanelRuns(r: Route, w: World, q: Req)
    ensures RunRoutes([Compile(r)], w, q) == if IsFor(r, w, q) then RunAll(Handlers(r), w, q) else Next(q)
  {
    OneRoute(Compile(r), w, q);
    if IsFor(r, w, q) {
      NeverFallsThrough(r, w, q);
    }
  }

  lemma OwnRoutesRun(s: Settings, w: World, q: Req)
    ensures RunRoutes(OwnRoutes(s), w, q)
            == if ForPanel(s, w, q) then RunAll(Handlers(OnNode(s.panel.value, s.modules)), w, q)
               else if ForTunnel(s, w, q) then Proxied(Tunnel(s.tunnel.value.port))
               else Next(q)
  {
    var panel := if s.panel.Some? then [Compile(OnNode(s.panel.value, s.modules))] else [];
    var tunnel := OwnRoutes(s)[|panel|..];
    assert OwnRoutes(s) == panel + tunnel;
    RoutesInTurn(panel, tunnel, w, q);
    if s.panel.Some? {
      PanelRuns(OnNode(s.panel.value, s.modules), w, q);
      if ForPanel(s, w, q) {
        NeverFallsThrough(OnNode(s.panel.value, s.modules), w, q);
      }
    }
    if s.tunnel.Some? {
      TunnelRuns(s.tunnel.value, w, q);
    }
  }

  /** Slot k holds the first tenant route that is for the request; past the end there is none. */
  ghost predicate FirstFor(routes: seq<Route>, order: seq<nat>, m: Modules, w: World, q: Req, k: nat) {
    && Indices(order, |routes|) && k <= |order|
    && (k < |order| ==> IsFor(OnNode(routes[order[k]], m), w, q))
    && forall l :: 0 <= l < k ==> !IsFor(OnNode(routes[order[l]], m), w, q)
  }

  lemma TenantsRun(routes: seq<Route>, order: seq<nat>, m: Modules, w: World, q: Req, k: nat)
    requires FirstFor(routes, order, m, w, q, k)
    ensures RunRoutes(Emitted(routes, order, m), w, q)
            == if k < |order| then RunAll(Handlers(OnNode(routes[order[k]], m)), w, q) else Next(q)
  {
    if k < |order| {
      NeverFallsThrough(OnNode(routes[order[k]], m), w, q);
    }
    FirstDecides(Emitted(routes, order, m), w, q, k);
  }

  /** For every request, list of routes and node: the panel's route has the first word, then the
      tunnel's, then the first tenant route for the request. That route's backend is reached exactly
      when it serves and its gates admit the request; when no route is for it nothing is dialled. */
  lemma FirstRouteDecides(s: Settings, routes: seq<Route>, order: seq<nat>, w: World, q: Req, k: nat)
    requires FirstFor(routes, order, s.modules, w, q, k)
    ensures var f := RunRoutes(OwnRoutes(s) + Emitted(routes, order, s.modules), w, q);
            if ForPanel(s, w, q) then f == RunAll(Handlers(OnNode(s.panel.value, s.modules)), w, q)
            else if ForTunnel(s, w, q) then f == Proxied(Tunnel(s.tunnel.value.port))
            else if k == |order| then f == Next(q)
            else
              var first := OnNode(routes[order[k]], s.modules);
              && f == RunAll(Handlers(first), w, q)
              && (!first.maintenance ==> (ReachesTenant(f) <==> Serves(first) && Admits(first, w, q)))
  {
    OwnRoutesRun(s, w, q);
    RoutesInTurn(OwnRoutes(s), Emitted(routes, order, s.modules), w, q);
    if ForPanel(s, w, q) {
      NeverFallsThrough(OnNode(s.panel.value, s.modules), w, q);
    } else if !ForTunnel(s, w, q) {
      TenantsRun(routes, order, s.modules, w, q, k);
      if k < |order| {
        ReachesBackendAsEmitted(OnNode(routes[order[k]], s.modules), w, q);
      }
    }
  }

  /** When the first tenant route's gates are all emitted, its backend is reached exactly when the
      route serves, the declared policy apart from upgrades admits the request, the cache does not
      answer it and no part of its Connection header has "Upgrade" in it unless upgrades are allowed;
      what is declared of upgrades happens, too, exactly when the header is spelled out. */
  lemma FirstRouteEnforcesPolicy(s: Settings, routes: seq<Route>, order: seq<nat>, w: World, q: Req, k: nat)
    requires FirstFor(routes, order, s.modules, w, q, k) && k < |order| && !ForPanel(s, w, q) && !ForTunnel(s, w, q)
    ensures var f, first := RunRoutes(OwnRoutes(s) + Emitted(routes, order, s.modules), w, q),
                            OnNode(routes[order[k]], s.modules);
            var q0 := Arrived(first, w, q);
            var open := Serves(first) && DeclaredApart(first, w, q) && !Cached(first, w, q0);
            var qc := AfterCustom(first, w, q0);
            !first.maintenance && FullyEmitted(first) ==>
              && (ReachesTenant(f) <==> open && (!first.webSocket ==> !NamesUpgrade(qc.connection)))
              && (open ==> ((ReachesTenant(f) <==> Declared(first, w, q)) <==> SpelledOut(first, qc)))
  {
    FirstRouteDecides(s, routes, order, w, q, k);
    ReachesBackendExactly(OnNode(routes[order[k]], s.modules), w, q);
  }

  /** Caddy's host matcher takes a list by its matchers as stored. */
  ghost predicate HostMatcherIsLiteral(idna: Idna, expand: Expansion, w: World, q: Req) {
    forall hs :: w.hostIs(q.host, hs) ==> ListAccepts(idna, expand, hs, q.host)
  }

  /** And no other tenant route for the request ranks before that first one, provided no overlap that
      root dots hide splits two components; InOrderExactly says that this is needed. */
  lemma FirstRouteIsBest(
    idna: Idna, expand: Expansion, routes: seq<Route>, order: seq<nat>, m: Modules, w: World, q: Req, k: nat, j: nat)
    requires AllStable(idna, HostsOf(routes)) && NoHiddenSplit(idna, HostsOf(routes))
    requires Emission(CaddyHosts(idna), routes, order) && FirstFor(routes, order, m, w, q, k) && k < |order|
    requires HostMatcherIsLiteral(idna, expand, w, q)
    requires j < |routes| && j != order[k] && IsFor(OnNode(routes[j], m), w, q)
    ensures Before(Ranks(routes), order[k], j)
  {
    var matches := (i: nat) => i < |routes| && IsFor(OnNode(routes[i], m), w, q);
    forall i | 0 <= i < |routes| && matches(i) ensures RouteAcceptsLiterally(idna, expand, routes[i], q.host) {
      ForItsHost(OnNode(routes[i], m), w, q);
    }
    LiteralFirstMatchIsBest(idna, expand, routes, order, q.host, matches, k, j);
  }
}
