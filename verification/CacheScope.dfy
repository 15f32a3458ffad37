/**
  What a compiled route tells caches (buildCacheHandlers in internal/caddyapi/route.go): the response
  headers its handlers set, over the whole chain.
 */
module CacheScope {
  import opened Wrappers
  import opened RouteModel
  import opened HandlerTree
  import opened RouteCompiler
  import opened RouteOutcome

  /** The values that running hs sends in response headers. */
  function Sent(hs: seq<Handler>, w: World, q: Req): seq<Directive>
    decreases hs, 1
  {
    if hs == [] then []
    else
      var f := Run(hs[0], w, q);
      SentBy(hs[0], w, q) + if f.Next? then Sent(hs[1..], w, f.q) else []
  }

  function SentBy(h: Handler, w: World, q: Req): seq<Directive>
    decreases h, 0
  {
    match h
    case ResponseHeader(value) => [value]
    case Subroute(routes) => SentByRoutes(routes, w, q)
    case _ => []
  }

  function SentByRoutes(routes: seq<HRoute>, w: World, q: Req): seq<Directive>
    decreases routes, 2
  {
    if routes == [] then []
    else if !Applies(routes[0].sets, w, q) then SentByRoutes(routes[1..], w, q)
    else
      var f := RunAll(routes[0].handle, w, q);
      Sent(routes[0].handle, w, q) + if f.Next? && !routes[0].terminal then SentByRoutes(routes[1..], w, f.q) else []
  }

  /** Some addresses or countries are kept out. */
  predicate Restricted(r: Route) {
    r.blockAll || r.deny != [] || r.blockCidrs != [] || r.geoMode != GeoOff
  }

  /** What a route tells downstream caches. */
  function Scope(r: Route, q: Req): seq<Directive> {
    if r.redirect then []
    else if Personal(r) then [PrivateNoStore]
    else if !r.cacheEnabled then if Restricted(r) then [PrivateNoStore] else []
    else if q.cookie.Some? || q.authorization.Some? then [PrivateNoStore]
    else if r.cachePublic && !Restricted(r) then [DropSetCookie, PublicScope]
    else [PrivateScope]
  }

  lemma SentByOne(route: HRoute, w: World, q: Req)
    ensures SentByRoutes([route], w, q) == if Applies(route.sets, w, q) then Sent(route.handle, w, q) else []
  {
    assert [route][1..] == [] && forall p :: SentByRoutes([], w, p) == [];
    assert Sent(route.handle, w, q) + [] == Sent(route.handle, w, q);
  }

  lemma SentByTwo(a: HRoute, b: HRoute, w: World, q: Req)
    requires !a.terminal && Applies(a.sets, w, q) != Applies(b.sets, w, q)
    requires Applies(a.sets, w, q) && RunAll(a.handle, w, q).Next? ==> RunAll(a.handle, w, q).q == q
    ensures Sent([Subroute([a, b])], w, q)
            == if Applies(a.sets, w, q) then Sent(a.handle, w, q) else Sent(b.handle, w, q)
  {
    assert [a, b][1..] == [b];
    SentByOne(b, w, q);
    var all := SentByRoutes([a, b], w, q);
    assert Sent(a.handle, w, q) + [] == Sent(a.handle, w, q);
    assert [Subroute([a, b])][1..] == [] && forall p :: Sent([], w, p) == [];
    assert all + [] == all;
  }

  lemma {:induction false} SentInTurn(a: seq<Handler>, b: seq<Handler>, w: World, q: Req)
    ensures Sent(a + b, w, q)
            == Sent(a, w, q) + (var f := RunAll(a, w, q); if f.Next? then Sent(b, w, f.q) else [])
    decreases |a|
  {
    if a == [] {
      assert a + b == b;
    } else {
      assert (a + b)[0] == a[0] && (a + b)[1..] == a[1..] + b;
      var f := Run(a[0], w, q);
      if f.Next? {
        SentInTurn(a[1..], b, w, f.q);
      }
    }
  }

  lemma SentByHeader(h: Handler, w: World, q: Req)
    requires h.ResponseHeader? || h.Cache?
    ensures Sent([h], w, q) == if h.ResponseHeader? then [h.value] else []
  {
    assert [h][1..] == [] && forall p :: Sent([], w, p) == [];
    assert SentBy(h, w, q) + [] == SentBy(h, w, q);
  }

  lemma SentByHeaders(a: Directive, b: Directive, w: World, q: Req)
    ensures Sent([ResponseHeader(a), ResponseHeader(b)], w, q) == [a, b]
  {
    SentByHeader(ResponseHeader(a), w, q);
    SentByHeader(ResponseHeader(b), w, q);
    HeadersOnlyRun(a, b, w, q);
    assert [ResponseHeader(a), ResponseHeader(b)] == [ResponseHeader(a)] + [ResponseHeader(b)];
    SentInTurn([ResponseHeader(a)], [ResponseHeader(b)], w, q);
  }

  lemma CacheThenSends(cache: bool, rest: seq<Handler>, w: World, q: Req)
    ensures var hs := (if cache then [Cache] else []) + rest;
            Sent(hs, w, q) == if cache && w.cached(q) then [] else Sent(rest, w, q)
  {
    var first := if cache then [Cache] else [];
    SentInTurn(first, rest, w, q);
    SentByHeader(Cache, w, q);
    RunsOne(Cache, w, q);
    assert [] + Sent(rest, w, q) == Sent(rest, w, q);
  }

  lemma UncredentialledSends(r: Route, w: World, q: Req)
    ensures Sent(Uncredentialled(r), w, q)
            == if r.cacheModule && r.cachePublic && w.cached(q) then []
               else if r.cachePublic && !AudienceRestricted(r) then [DropSetCookie, PublicScope] else [PrivateScope]
  {
    var rest := if r.cachePublic && !AudienceRestricted(r)
                then [ResponseHeader(DropSetCookie), ResponseHeader(PublicScope)]
                else [ResponseHeader(PrivateScope)];
    SentByHeaders(DropSetCookie, PublicScope, w, q);
    SentByHeader(ResponseHeader(PrivateScope), w, q);
    CacheThenSends(r.cacheModule && r.cachePublic, rest, w, q);
  }

  lemma CacheSubrouteSends(r: Route, w: World, q: Req)
    requires !RouteAuthGated(r)
    ensures Sent(CacheHandlers(r), w, q)
            == if q.cookie.Some? || q.authorization.Some? then [PrivateNoStore] else Sent(Uncredentialled(r), w, q)
  {
    var first := HRoute([All([Not(CREDENTIALLED)])], Uncredentialled(r), false);
    var second := HRoute(CREDENTIALLED, [NO_STORE], false);
    CredentialledMatches(w, q);
    MatchesOne(Not(CREDENTIALLED), w, q);
    UncredentialledRuns(r, w, q);
    SentByTwo(first, second, w, q);
    SentByHeader(NO_STORE, w, q);
  }

  lemma OpenStageSends(r: Route, w: World, q: Req)
    requires r.cacheEnabled && !r.redirect && !RouteAuthGated(r)
    ensures Sent(CacheHandlers(r), w, q) == if CacheAnswers(r, w, q) then [] else Scope(r, q)
  {
    CacheSubrouteSends(r, w, q);
    UncredentialledSends(r, w, q);
  }

  lemma StageSends(r: Route, w: World, q: Req)
    ensures Sent(CacheStage(r), w, q) == if CacheAnswers(r, w, q) then [] else Scope(r, q)
  {
    if r.cacheEnabled && !r.redirect && !RouteAuthGated(r) {
      OpenStageSends(r, w, q);
    } else {
      SentByHeader(NO_STORE, w, q);
    }
  }

  // ---------------------------------------------------------------- handlers that send nothing

  predicate Mute(h: Handler)
    decreases h, 0
  {
    match h
    case ResponseHeader(_) => false
    case Subroute(routes) => MuteRoutes(routes)
    case _ => true
  }

  predicate MuteAll(hs: seq<Handler>)
    decreases hs, 1
  {
    hs == [] || (Mute(hs[0]) && MuteAll(hs[1..]))
  }

  predicate MuteRoutes(routes: seq<HRoute>)
    decreases routes, 2
  {
    routes == [] || (MuteAll(routes[0].handle) && MuteRoutes(routes[1..]))
  }

  lemma {:induction false} MuteSendsNothing(hs: seq<Handler>, w: World, q: Req)
    requires MuteAll(hs)
    ensures Sent(hs, w, q) == []
    decreases hs, 1
  {
    if hs != [] {
      match hs[0] {
        case Subroute(routes) => MuteRoutesSendNothing(routes, w, q);
        case _ =>
      }
      var f := Run(hs[0], w, q);
      if f.Next? {
        MuteSendsNothing(hs[1..], w, f.q);
      }
    }
  }

  lemma {:induction false} MuteRoutesSendNothing(routes: seq<HRoute>, w: World, q: Req)
    requires MuteRoutes(routes)
    ensures SentByRoutes(routes, w, q) == []
    decreases routes, 2
  {
    if routes != [] {
      if !Applies(routes[0].sets, w, q) {
        MuteRoutesSendNothing(routes[1..], w, q);
      } else {
        MuteSendsNothing(routes[0].handle, w, q);
        var f := RunAll(routes[0].handle, w, q);
        if f.Next? && !routes[0].terminal {
          MuteRoutesSendNothing(routes[1..], w, f.q);
        }
      }
    }
  }

  lemma {:induction false} MuteTogether(a: seq<Handler>, b: seq<Handler>)
    requires MuteAll(a) && MuteAll(b)
    ensures MuteAll(a + b)
    decreases |a|
  {
    if a == [] {
      assert a + b == b;
    } else {
      assert (a + b)[0] == a[0] && (a + b)[1..] == a[1..] + b;
      MuteTogether(a[1..], b);
    }
  }

  lemma {:induction false} MuteRoutesTogether(a: seq<HRoute>, b: seq<HRoute>)
    requires MuteRoutes(a) && MuteRoutes(b)
    ensures MuteRoutes(a + b)
    decreases |a|
  {
    if a == [] {
      assert a + b == b;
    } else {
      assert (a + b)[0] == a[0] && (a + b)[1..] == a[1..] + b;
      MuteRoutesTogether(a[1..], b);
    }
  }

  lemma MuteOne(h: Handler)
    requires Mute(h)
    ensures MuteAll([h])
  {
    assert [h][1..] == [];
  }

  lemma MuteRoute(route: HRoute)
    requires MuteAll(route.handle)
    ensures MuteRoutes([route]) && MuteAll([Subroute([route])])
  {
    assert [route][1..] == [];
    MuteOne(Subroute([route]));
  }

  lemma GuardIsMute(sets: seq<MatchSet>, status: int, terminal: bool)
    ensures MuteAll([Guard(sets, status, terminal)])
  {
    MuteOne(Respond(status));
    MuteRoute(HRoute(sets, [Respond(status)], terminal));
  }

  lemma GuardsAreMute(r: Route)
    ensures MuteAll(RevokedStage(r)) && MuteAll(CidrStage(r)) && MuteAll(BearerStage(r)) && MuteAll(WebSocketStage(r))
    ensures MuteAll(GeoStage(r))
  {
    forall sets, status, terminal ensures MuteAll([Guard(sets, status, terminal)]) {
      GuardIsMute(sets, status, terminal);
    }
  }

  lemma SimpleStagesAreMute(r: Route)
    ensures MuteAll([StripSubject]) && MuteAll(PanelStage(r)) && MuteAll(WafStage(r)) && MuteAll(RateStage(r))
    ensures MuteAll(BasicStage(r)) && MuteAll(Rewrites(r)) && MuteAll([Primary(r)])
  {
    MuteOne(StripSubject);
    MuteOne(StampRealIp);
    MuteOne(Waf(r.wafBlocking));
    MuteOne(RateLimit);
    MuteOne(BasicAuth(Accounts(r)));
    MuteOne(Reshape(StripPrefix));
    MuteOne(Reshape(AddPrefix));
    MuteOne(Primary(r));
  }

  lemma {:induction false} EarlyIsMute(rules: seq<LocationRule>)
    ensures MuteRoutes(EarlyRoutes(rules))
    decreases |rules|
  {
    if rules != [] {
      var rule := rules[|rules| - 1];
      EarlyIsMute(rules[..|rules| - 1]);
      MuteOne(EarlyRoute(rule).handle[0]);
      MuteRoute(EarlyRoute(rule));
      MuteRoutesTogether(EarlyRoutes(rules[..|rules| - 1]), [EarlyRoute(rule)]);
      MuteRoutesTogether(EarlyRoutes(rules[..|rules| - 1]), []);
    }
  }

  lemma {:induction false} LateIsMute(rules: seq<LocationRule>, primary: Handler)
    requires Mute(primary)
    ensures MuteRoutes(LateRoutes(rules, primary))
    decreases |rules|
  {
    if rules != [] {
      var rule := rules[|rules| - 1];
      LateIsMute(rules[..|rules| - 1], primary);
      var late := LateRoute(rule, primary);
      MuteOne(Forward(Static([rule.upstream])));
      MuteOne(primary);
      assert [Reshape(RewriteTo(rule.rewriteUri)), primary][1..] == [primary];
      MuteRoute(late);
      MuteRoutesTogether(LateRoutes(rules[..|rules| - 1], primary), [late]);
      MuteRoutesTogether(LateRoutes(rules[..|rules| - 1], primary), []);
    }
  }

  lemma {:induction false} ReshapesAreMute(tags: seq<string>)
    ensures MuteAll(ReshapeAll(tags))
    decreases |tags|
  {
    if tags != [] {
      ReshapesAreMute(tags[1..]);
      MuteOne(Reshape(ByHandler(tags[0])));
      MuteTogether([Reshape(ByHandler(tags[0]))], ReshapeAll(tags[1..]));
    }
  }

  lemma GateIsMute(sets: seq<MatchSet>, t: Target, responses: seq<Response>)
    ensures MuteAll([Gate(sets, t, responses)])
  {
    MuteOne(Verify(t, responses));
    MuteRoute(HRoute(sets, [Verify(t, responses)], false));
  }

  lemma PassthroughIsMute(paths: seq<string>, t: Target)
    ensures MuteAll([Passthrough(paths, t)])
  {
    MuteOne(Forward(t));
    MuteRoute(HRoute([All([Path(paths)])], [Forward(t)], true));
  }

  lemma VerifiersAreMute(r: Route)
    ensures MuteAll(RbacStage(r)) && MuteAll(SsoStage(r)) && MuteAll(PortalStage(r))
  {
    var verify := Verify(Rbac(r.panelUrl), RBAC_RESPONSES);
    assert [StampSubject, verify][1..] == [verify];
    MuteOne(verify);
    MuteRoute(HRoute([], [StampSubject, verify], false));
    PassthroughIsMute(OUTPOST, Sso(r.ssoUrl));
    GateIsMute(SsoSets(r), Sso(r.ssoUrl), SsoResponses(r));
    MuteTogether([Passthrough(OUTPOST, Sso(r.ssoUrl))], [Gate(SsoSets(r), Sso(r.ssoUrl), SsoResponses(r))]);
    PassthroughIsMute(PORTAL, Portal(r.portalDial));
    GateIsMute(PortalSets(r), Portal(r.portalDial), [Response(Some(2), [])]);
    MuteTogether([Passthrough(PORTAL, Portal(r.portalDial))],
                 [Gate(PortalSets(r), Portal(r.portalDial), [Response(Some(2), [])])]);
  }

  lemma BackendIsMute(r: Route)
    ensures MuteAll(BackendStage(r))
  {
    SimpleStagesAreMute(r);
    MuteTogether(Rewrites(r), [Primary(r)]);
    LateIsMute(r.locations, Primary(r));
    var late, fallback := LateRoutes(r.locations, Primary(r)), HRoute([], Rewrites(r) + [Primary(r)], true);
    MuteRoute(fallback);
    MuteRoutesTogether(late, [fallback]);
    MuteOne(Subroute(late + [fallback]));
  }

  lemma PerimeterIsMute(r: Route)
    ensures MuteAll(Perimeter(r))
  {
    SimpleStagesAreMute(r);
    GuardsAreMute(r);
    EarlyIsMute(r.locations);
    MuteOne(Subroute(EarlyRoutes(r.locations)));
    var hs := [StripSubject];
    MuteTogether(hs, RevokedStage(r));
    hs := hs + RevokedStage(r);
    MuteTogether(hs, PanelStage(r));
    hs := hs + PanelStage(r);
    MuteTogether(hs, CidrStage(r));
    hs := hs + CidrStage(r);
    MuteTogether(hs, GeoStage(r));
    hs := hs + GeoStage(r);
    MuteTogether(hs, WafStage(r));
    hs := hs + WafStage(r);
    MuteTogether(hs, BearerStage(r));
    hs := hs + BearerStage(r);
    MuteTogether(hs, EarlyStage(r));
    hs := hs + EarlyStage(r);
    MuteTogether(hs, RateStage(r));
  }

  // ---------------------------------------------------------------- the whole chain

  function Compression(r: Route): seq<Directive> {
    if !r.compressDisabled && !r.redirect then [Encoded] else []
  }

  /** Appending handlers that send nothing sends nothing more. */
  lemma MuteTail(a: seq<Handler>, b: seq<Handler>, w: World, q: Req)
    requires MuteAll(b)
    ensures Sent(a + b, w, q) == Sent(a, w, q)
  {
    SentInTurn(a, b, w, q);
    var f := RunAll(a, w, q);
    if f.Next? {
      MuteSendsNothing(b, w, f.q);
    }
    assert Sent(a, w, q) + [] == Sent(a, w, q);
  }

  lemma EncodeSends(r: Route, w: World, q: Req)
    ensures Sent(EncodeStage(r), w, q) == Compression(r)
  {
    SentByHeader(ResponseHeader(Encoded), w, q);
  }

  lemma SentAfterMute(
    p: seq<Handler>, c: seq<Handler>, e: seq<Handler>, w: World, q: Req, ok: bool, q0: Req, f: Flow)
    requires MuteAll(p) && Leads(p, w, q, ok, q0, f) && !f.Next?
    ensures Sent(p + c + e, w, q)
            == if !ok then []
               else Sent(c, w, q0) + (var g := RunAll(c, w, q0); if g.Next? then Sent(e, w, g.q) else [])
  {
    MuteSendsNothing(p, w, q);
    SentInTurn(p, c, w, q);
    RunsInTurn(p, c, w, q);
    SentInTurn(p + c, e, w, q);
    assert [] + Sent(c, w, q0) == Sent(c, w, q0);
  }

  lemma FrontSends(r: Route, w: World, q: Req)
    ensures var q0 := Arrived(r, w, q);
            Sent(Perimeter(r) + CacheStage(r) + EncodeStage(r), w, q)
            == if !PerimeterAdmits(r, w, q0) || CacheAnswers(r, w, q0) then [] else Scope(r, q0) + Compression(r)
  {
    var q0 := Arrived(r, w, q);
    PerimeterLeads(r, w, q);
    PerimeterIsMute(r);
    SentAfterMute(Perimeter(r), CacheStage(r), EncodeStage(r), w, q, PerimeterAdmits(r, w, q0), q0,
                  PerimeterAnswer(r, w, q0));
    StageSends(r, w, q0);
    CacheLeads(r, w, q0);
    EncodeSends(r, w, q0);
  }

  /** The rest of the chain sends nothing. */
  lemma ChainSends(r: Route, w: World, q: Req)
    ensures Sent(Gates(r) + BackendStage(r), w, q) == Sent(Perimeter(r) + CacheStage(r) + EncodeStage(r), w, q)
  {
    var hs := Perimeter(r) + CacheStage(r) + EncodeStage(r);
    if r.custom.Shaping? {
      ReshapesAreMute(r.custom.handlers);
    }
    MuteTail(hs, CustomStage(r), w, q);
    hs := hs + CustomStage(r);
    GuardsAreMute(r);
    MuteTail(hs, WebSocketStage(r), w, q);
    hs := hs + WebSocketStage(r);
    VerifiersAreMute(r);
    MuteTail(hs, RbacStage(r), w, q);
    hs := hs + RbacStage(r);
    MuteTail(hs, SsoStage(r), w, q);
    hs := hs + SsoStage(r);
    MuteTail(hs, PortalStage(r), w, q);
    hs := hs + PortalStage(r);
    SimpleStagesAreMute(r);
    MuteTail(hs, BasicStage(r), w, q);
    hs := hs + BasicStage(r);
    BackendIsMute(r);
    MuteTail(hs, BackendStage(r), w, q);
  }

  /** A chain behind routes that send nothing themselves. */
  lemma BehindMute(pre: seq<HRoute>, inner: seq<Handler>, w: World, q: Req)
    requires MuteRoutes(pre)
    ensures var f := RunRoutes(pre, w, q);
            Sent([Subroute(pre + [HRoute([], inner, true)])], w, q) == if f.Next? then Sent(inner, w, f.q) else []
  {
    var last := HRoute([], inner, true);
    SentRoutesInTurn(pre, [last], w, q);
    MuteRoutesSendNothing(pre, w, q);
    var f := RunRoutes(pre, w, q);
    if f.Next? {
      SentByOne(last, w, f.q);
      assert [] + Sent(inner, w, f.q) == Sent(inner, w, f.q);
    }
    var all := Subroute(pre + [last]);
    assert [all][1..] == [] && forall p :: Sent([], w, p) == [];
    assert SentBy(all, w, q) + [] == SentBy(all, w, q);
  }

  lemma {:induction false} SentRoutesInTurn(a: seq<HRoute>, b: seq<HRoute>, w: World, q: Req)
    ensures SentByRoutes(a + b, w, q)
            == SentByRoutes(a, w, q) + (var f := RunRoutes(a, w, q); if f.Next? then SentByRoutes(b, w, f.q) else [])
    decreases |a|
  {
    if a == [] {
      assert a + b == b;
    } else {
      assert (a + b)[0] == a[0] && (a + b)[1..] == a[1..] + b;
      if !Applies(a[0].sets, w, q) {
        SentRoutesInTurn(a[1..], b, w, q);
      } else {
        var f := RunAll(a[0].handle, w, q);
        if f.Next? && !a[0].terminal {
          SentRoutesInTurn(a[1..], b, w, f.q);
        }
      }
    }
  }

  lemma AclIsMute(r: Route)
    ensures MuteRoutes(AclRoutes(r))
  {
    MuteOne(Respond(403));
    forall sets ensures MuteRoutes([HRoute(sets, [Respond(403)], true)]) {
      MuteRoute(HRoute(sets, [Respond(403)], true));
    }
    var deny := if r.deny == [] then [] else [HRoute([All([RemoteIp(r.deny)])], [Respond(403)], true)];
    var block := AclRoutes(r)[|deny|..];
    assert AclRoutes(r) == deny + block;
    MuteRoutesTogether(deny, block);
  }

  lemma AclSends(r: Route, inner: seq<Handler>, w: World, q: Req)
    ensures Sent(WithAcl(r, inner), w, q) == if IpAdmits(r, w) then Sent(inner, w, q) else []
  {
    AclIsMute(r);
    AclRuns(r, w, q);
    BehindMute(AclRoutes(r), inner, w, q);
  }

  lemma HttpsSends(r: Route, inner: seq<Handler>, w: World, q: Req)
    requires w.hostIs(q.host, r.hosts)
    ensures Sent(WithHttps(r, inner), w, q) == if ForcesHttps(r) && w.cleartext then [] else Sent(inner, w, q)
  {
    var upgrade := HRoute([All([Cleartext, Host(r.hosts)])], [Respond(308)], false);
    MuteOne(Respond(308));
    MuteRoute(upgrade);
    BehindMute([upgrade], inner, w, q);
    assert [upgrade] + [HRoute([], inner, true)] == [upgrade, HRoute([], inner, true)];
    OneRoute(upgrade, w, q);
    OneSet([Cleartext, Host(r.hosts)], w, q);
    MatchesTwo(Cleartext, Host(r.hosts), w, q);
    RunsOne(Respond(308), w, q);
  }

  /** Over the whole compiled route: a response is called public only by opt-in, and never for a
      gated or restricted route or a request with credentials; those that must not be stored say so.
      Refused requests and cache hits are sent no header of the route's own. */
  lemma CacheScopeIsExact(r: Route, w: World, q: Req)
    ensures !Withheld(r) && !r.maintenance && IsFor(r, w, q) ==>
              var q0 := Cleaned(r, w, q);
              Sent(Handlers(r), w, q)
              == if (WantsTls(r) && w.cleartext) || AddressBarred(r, w)
                    || !PerimeterAdmits(r, w, q0) || (Shareable(r, q0) && w.cached(q0))
                 then [] else Scope(r, q0) + Compression(r)
  {
    if !Withheld(r) && !r.maintenance && IsFor(r, w, q) {
      var chain := Gates(r) + BackendStage(r);
      ForItsHost(r, w, q);
      FrontSends(r, w, q);
      ChainSends(r, w, q);
      AclSends(r, chain, w, q);
      HttpsSends(r, WithAcl(r, chain), w, q);
    }
  }

  lemma MuteWhenNotServed(r: Route, w: World, q: Req)
    requires (Withheld(r) || r.maintenance) && IsFor(r, w, q)
    ensures Sent(Handlers(r), w, q) == []
  {
    if Withheld(r) {
      MuteOne(Respond(503));
      MuteSendsNothing([Respond(503)], w, q);
    } else {
      ForItsHost(r, w, q);
      MaintenanceIsMute(r);
      HttpsSends(r, MaintenanceHandlers(r), w, q);
      MuteSendsNothing(MaintenanceHandlers(r), w, q);
    }
  }

  lemma MaintenanceIsMute(r: Route)
    ensures MuteAll(MaintenanceHandlers(r))
  {
    MuteOne(Respond(503));
    if r.maintenanceAllow != [] {
      var allowed := HRoute([All([RemoteIp(r.maintenanceAllow)])], [Forward(Static([r.upstream]))], true);
      var page := HRoute([], [Respond(503)], true);
      MuteOne(Forward(Static([r.upstream])));
      MuteRoute(allowed);
      MuteRoute(page);
      MuteRoutesTogether([allowed], [page]);
      assert [allowed] + [page] == [allowed, page];
      MuteOne(Subroute([allowed, page]));
    }
  }

  lemma ScopeIsPrivate(r: Route, w: World, q: Req)
    requires !Withheld(r) && !r.maintenance && IsFor(r, w, q) && Personal(r)
    ensures PublicScope !in Sent(Handlers(r), w, q)
  {
    CacheScopeIsExact(r, w, q);
    assert PublicScope !in Scope(r, Cleaned(r, w, q)) && PublicScope !in Compression(r);
  }

  /** No response of a route on which anything depends on the caller is called public. */
  lemma PersonalIsPrivate(r: Route, w: World, q: Req)
    requires IsFor(r, w, q) && Personal(r)
    ensures PublicScope !in Sent(Handlers(r), w, q)
  {
    if Withheld(r) || r.maintenance {
      MuteWhenNotServed(r, w, q);
    } else {
      ScopeIsPrivate(r, w, q);
    }
  }
}
