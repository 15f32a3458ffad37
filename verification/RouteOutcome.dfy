/**
  What a route record means for a request, decision by decision and on the record's own fields,
  without the handlers the compiler emits (BuildRoute in internal/caddyapi/route.go). Running the
  compiled tree comes to exactly this for every route and every request for it: the same answer, the
  same status, the same target.
 */
module RouteOutcome {
  import opened Wrappers
  import opened Strings
  import opened RouteModel
  import opened HandlerTree
  import opened RouteCompiler

  // ---------------------------------------------------------------- the reference

  /** The route is not compiled: its custom chain was rejected, a stored text would expand to more than
      is allowed, or an enabled gate cannot be emitted. */
  predicate Withheld(r: Route) {
    || r.custom.Rejected?
    || !r.rateKeySafe
    || (exists i :: 0 <= i < |r.templates| && !Screened(r.templates[i]))
    || r.mtlsDenyOnMisconfig
    || r.portalDenyOnMisconfig
    || (r.portalProtect && r.portalDial == "")
    || (r.waf && r.wafBlocking && !r.wafModule && !r.wafFailOpen)
  }

  predicate WantsTls(r: Route) {
    r.forceHttps || r.requireClientCert
  }

  /** Something about the route depends on who is calling. */
  predicate Personal(r: Route) {
    || r.ssoUrl != "" || r.basicUser != "" || r.basicUsers != [] || r.mtlsPathRules > 0 || r.portalProtect
    || r.requireClientCert || (r.external && r.proxySecret != "")
    || r.mtlsDenyOnMisconfig || r.portalDenyOnMisconfig
    || r.custom.Rejected? || (r.custom.Shaping? && r.custom.nested)
  }

  /** The shared cache may answer. */
  predicate Shareable(r: Route, q: Req) {
    && r.cacheEnabled && r.cachePublic && r.cacheModule && !r.redirect
    && !Personal(r) && q.cookie == None && q.authorization == None
  }

  function FirstThat(rules: seq<LocationRule>, wanted: LocationRule -> bool): Option<LocationRule> {
    if rules == [] then None
    else if wanted(rules[0]) then Some(rules[0])
    else FirstThat(rules[1..], wanted)
  }

  /** A block rule, or a redirect rule with a target, for the path. */
  predicate Answering(rule: LocationRule, w: World, q: Req) {
    && rule.paths != [] && w.pathIs(q.path, rule.paths)
    && (rule.action.Block? || (rule.action.Redirect? && TrimSpace(rule.redirectUrl) != ""))
  }

  /** A proxy rule with a backend, or a rewrite rule with a URI, for the path. */
  predicate Forwarding(rule: LocationRule, w: World, q: Req) {
    && rule.paths != [] && w.pathIs(q.path, rule.paths)
    && (|| (rule.action.Proxy? && TrimSpace(rule.upstream.host) != "" && rule.upstream.port > 0)
        || (rule.action.Rewrite? && TrimSpace(rule.rewriteUri) != ""))
  }

  function FirstAnswering(r: Route, w: World, q: Req): Option<LocationRule> {
    if r.redirect then None else FirstThat(r.locations, rule => Answering(rule, w, q))
  }

  function AnswerOf(rule: LocationRule): Flow {
    if rule.action.Block? then Answered(403) else if rule.code == 0 then Answered(308) else Answered(rule.code)
  }

  /** The backend of the route itself: through a resolver, the route's before the node's; else its pool
      of dials, unless it is external; else its one dial. */
  function OwnBackend(r: Route): Target {
    if r.backendResolver != "" then Resolved(r.upstream, r.backendResolver)
    else if r.dnsResolver != "" && !r.upstreamIsAddress then Resolved(r.upstream, r.dnsResolver)
    else if r.pool == [] || r.external then Static([r.upstream])
    else Static(r.pool)
  }

  /** Where an admitted request goes. */
  function Destination(r: Route, w: World, q: Req): Target {
    match FirstThat(r.locations, rule => Forwarding(rule, w, q))
    case None => OwnBackend(r)
    case Some(rule) => if rule.action.Proxy? then Static([rule.upstream]) else OwnBackend(r)
  }

  function BlockStatus(r: Route): int {
    if r.geoStatus == 0 then 403 else r.geoStatus
  }

  predicate ShowsBearer(r: Route, w: World, q: Req) {
    q.authorization.Some? && PatternMatches(Expanded(w, "Bearer " + r.proxySecret), q.authorization.value)
  }

  /** Past the access list: the checks on the connection and the request as it arrived. */
  function AtPerimeter(r: Route, w: World, q: Req): Flow {
    if r.requireClientCert && r.revokedFingerprints != [] && w.fingerprintIn(r.revokedFingerprints) then Answered(403)
    else if (r.blockCidrs != [] && w.inRanges(r.blockCidrs)) || !GeoAdmits(r, w) then Answered(BlockStatus(r))
    else if r.waf && r.wafModule && r.wafBlocking && !w.wafPasses(q) then Answered(403)
    else if r.external && r.proxySecret != "" && !ShowsBearer(r, w, q) then Answered(403)
    else if FirstAnswering(r, w, q).Some? then AnswerOf(FirstAnswering(r, w, q).value)
    else if r.rateLimit && r.rateModule && !w.underLimit(q) then Answered(429)
    else if Shareable(r, q) && w.cached(q) then FromCache
    else AtIdentity(r, w, AfterCustom(r, w, q))
  }

  predicate TwoHundred(w: World, t: Target, q: Req) {
    w.verify(t, q).Some? && w.verify(t, q).value / 100 == 2
  }

  /** Past the custom handlers: upgrades and roles. */
  function AtIdentity(r: Route, w: World, q: Req): Flow {
    if !r.webSocket && !r.redirect && q.connection.Some? && Contains(q.connection.value, "Upgrade") then Answered(426)
    else if r.mtlsPathRules > 0 && r.panelUrl != "" then
      var q' := q.(subject := Some(w.certSubject));
      if w.verify(Rbac(r.panelUrl), q').None? then Answered(502)
      else if !TwoHundred(w, Rbac(r.panelUrl), q') then Answered(403)
      else AtSso(r, w, q')
    else AtSso(r, w, q)
  }

  function AtSso(r: Route, w: World, q: Req): Flow {
    var t := Sso(r.ssoUrl);
    if r.ssoUrl == "" then AtPortal(r, w, q)
    else if w.pathIs(q.path, ["/outpost.goauthentik.io/*"]) then Proxied(t)
    else if !SsoGates(r, w, q) then AtPortal(r, w, q)
    else if w.verify(t, q).None? then Answered(502)
    else if TwoHundred(w, t, q) then AtPortal(r, w, if r.ssoCopies then w.reshape(CopySso, q) else q)
    else if r.ssoStrict && w.verify(t, q).value / 100 == 3 then Answered(401)
    else Proxied(t)
  }

  function AtPortal(r: Route, w: World, q: Req): Flow {
    var t := Portal(r.portalDial);
    if !r.portalProtect then AtPassword(r, w, q)
    else if w.pathIs(q.path, ["/hpg-portal/*"]) then Proxied(t)
    else if r.portalPublicPaths != [] && q.verb in ["GET", "HEAD"] && w.pathIs(q.path, r.portalPublicPaths) then
      AtPassword(r, w, q)
    else if w.verify(t, q).None? then Answered(502)
    else if TwoHundred(w, t, q) then AtPassword(r, w, q)
    else Proxied(t)
  }

  function AtPassword(r: Route, w: World, q: Req): Flow {
    if r.basicUsers != [] then
      if w.authenticates(r.basicUsers, q) then AtBackend(r, w, q) else Answered(401)
    else if r.basicUser != "" && r.basicHash != "" then
      if w.authenticates([Account(r.basicUser, r.basicHash)], q) then AtBackend(r, w, q) else Answered(401)
    else AtBackend(r, w, q)
  }

  function AtBackend(r: Route, w: World, q: Req): Flow {
    if !r.redirect then Proxied(Destination(r, w, q))
    else if r.redirectCode == 0 then Answered(308)
    else Answered(r.redirectCode)
  }

  predicate AddressBarred(r: Route, w: World) {
    (r.deny != [] && w.inRanges(r.deny)) || (r.blockAll && (r.allow == [] || !w.inRanges(r.allow)))
  }

  /** The request without a claimed subject, with the caller's address for the panel itself. */
  function Cleaned(r: Route, w: World, q: Req): Req {
    q.(subject := None, realIp := if r.panelSelf then Some(w.clientIp) else q.realIp)
  }

  function Outcome(r: Route, w: World, q: Req): Flow {
    if Withheld(r) then Answered(503)
    else if WantsTls(r) && w.cleartext then Answered(308)
    else if r.maintenance then
      if r.maintenanceAllow != [] && w.inRanges(r.maintenanceAllow) then Proxied(Static([r.upstream]))
      else Answered(503)
    else if AddressBarred(r, w) then Answered(403)
    else AtPerimeter(r, w, Cleaned(r, w, q))
  }

  // ---------------------------------------------------------------- rules

  lemma {:induction false} FirstThatSnoc(rules: seq<LocationRule>, last: LocationRule, wanted: LocationRule -> bool)
    ensures FirstThat(rules + [last], wanted)
            == if FirstThat(rules, wanted).Some? then FirstThat(rules, wanted)
               else if wanted(last) then Some(last) else None
    decreases |rules|
  {
    if rules == [] {
      assert rules + [last] == [last] && [last][1..] == [];
    } else {
      assert (rules + [last])[0] == rules[0] && (rules + [last])[1..] == rules[1..] + [last];
      FirstThatSnoc(rules[1..], last, wanted);
    }
  }

  lemma {:induction false} EarlyIsFirst(rules: seq<LocationRule>, w: World, q: Req)
    ensures FirstEarly(rules, w, q) == FirstThat(rules, rule => Answering(rule, w, q))
    decreases |rules|
  {
    if rules != [] {
      var front, last := rules[..|rules| - 1], rules[|rules| - 1];
      EarlyIsFirst(front, w, q);
      FirstThatSnoc(front, last, rule => Answering(rule, w, q));
      assert front + [last] == rules;
      assert EarlyRuleFor(last, w, q) <==> Answering(last, w, q);
    }
  }

  lemma {:induction false} LateIsFirst(rules: seq<LocationRule>, w: World, q: Req)
    ensures FirstLate(rules, w, q) == FirstThat(rules, rule => Forwarding(rule, w, q))
    decreases |rules|
  {
    if rules != [] {
      var front, last := rules[..|rules| - 1], rules[|rules| - 1];
      LateIsFirst(front, w, q);
      FirstThatSnoc(front, last, rule => Forwarding(rule, w, q));
      assert front + [last] == rules;
      assert LateRuleFor(last, w, q) <==> Forwarding(last, w, q);
    }
  }

  lemma DestinationIsTarget(r: Route, w: World, q: Req)
    ensures TargetFor(r, w, q) == Destination(r, w, q)
  {
    LateIsFirst(r.locations, w, q);
  }

  lemma NoRuleAnswers(r: Route, w: World, q: Req)
    ensures NoEarlyRule(r, w, q) <==> FirstAnswering(r, w, q).None?
    ensures !NoEarlyRule(r, w, q) ==> EarlyAnswer(r, w, q) == AnswerOf(FirstAnswering(r, w, q).value)
  {
    EarlyRoutesRun(r.locations, w, q);
    EarlyIsFirst(r.locations, w, q);
  }

  // ---------------------------------------------------------------- the tree comes to the reference

  /** Past the gates. */
  function Ending(r: Route, w: World, q: Req): Flow {
    if r.redirect then RedirectAnswer(r) else Proxied(TargetFor(r, w, q))
  }

  lemma PasswordMeans(r: Route, w: World, q: Req)
    ensures AtPassword(r, w, q) == if BasicAdmits(r, w, q) then Ending(r, w, q) else Answered(401)
  {
    DestinationIsTarget(r, w, q);
  }

  lemma PortalMeans(r: Route, w: World, q: Req)
    requires !Withheld(r)
    ensures AtPortal(r, w, q)
            == if !PortalAdmits(r, w, q) then PortalAnswer(r, w, q)
               else if !BasicAdmits(r, w, q) then Answered(401)
               else Ending(r, w, q)
  {
    PasswordMeans(r, w, q);
  }

  lemma SsoMeans(r: Route, w: World, q: Req)
    requires !Withheld(r)
    ensures var q2 := AfterSso(r, w, q);
            AtSso(r, w, q)
            == if !SsoAdmits(r, w, q) then SsoAnswer(r, w, q)
               else if !PortalAdmits(r, w, q2) then PortalAnswer(r, w, q2)
               else if !BasicAdmits(r, w, q2) then Answered(401)
               else Ending(r, w, q2)
  {
    PortalMeans(r, w, AfterSso(r, w, q));
  }

  lemma IdentityMeans(r: Route, w: World, q: Req)
    requires !Withheld(r)
    ensures AtIdentity(r, w, q)
            == if IdentityAdmits(r, w, q) then Ending(r, w, AfterSso(r, w, AfterRbac(r, w, q)))
               else IdentityAnswer(r, w, q)
  {
    SsoMeans(r, w, AfterRbac(r, w, q));
  }

  lemma PerimeterMeans(r: Route, w: World, q: Req)
    requires !Withheld(r)
    ensures AtPerimeter(r, w, q)
            == if !PerimeterAdmits(r, w, q) then PerimeterAnswer(r, w, q)
               else if CacheAnswers(r, w, q) then FromCache
               else AtIdentity(r, w, AfterCustom(r, w, q))
  {
    NoRuleAnswers(r, w, q);
  }

  lemma ChainMeans(r: Route, w: World, q: Req)
    requires !Withheld(r)
    ensures RunAll(Gates(r) + BackendStage(r), w, q) == AtPerimeter(r, w, Cleaned(r, w, q))
  {
    assert Cleaned(r, w, q) == Arrived(r, w, q);
    ChainRuns(r, w, q);
    PerimeterMeans(r, w, Arrived(r, w, q));
    IdentityMeans(r, w, AfterCustom(r, w, Arrived(r, w, q)));
  }

  /** For every route, in maintenance or not, refused or not, and every request for it: the compiled
      tree comes to exactly what the record means. */
  lemma CompiledMeansRecord(r: Route, w: World, q: Req)
    requires IsFor(r, w, q)
    ensures RunAll(Handlers(r), w, q) == Outcome(r, w, q)
  {
    if Refused(r) {
      RefusedDialsNothing(r, w, q);
    } else if r.maintenance {
      ForItsHost(r, w, q);
      MaintenanceEnds(r, w, q);
      WithHttpsRuns(r, MaintenanceHandlers(r), w, q);
    } else {
      HandlersRun(r, w, q);
      ChainMeans(r, w, q);
    }
  }

  // ---------------------------------------------------------------- on the record's fields

  lemma {:induction false} ReshapedAlike(tags: seq<string>, w: World, w': World, q: Req)
    requires w'.reshape == w.reshape
    ensures Reshaped(tags, w', q) == Reshaped(tags, w, q)
    decreases |tags|
  {
    if tags != [] {
      ReshapedAlike(tags[1..], w, w', w.reshape(ByHandler(tags[0]), q));
    }
  }

  lemma {:induction false} FirstThatFinds(rules: seq<LocationRule>, wanted: LocationRule -> bool, i: nat)
    requires i < |rules| && wanted(rules[i])
    ensures FirstThat(rules, wanted).Some?
    decreases |rules|
  {
    if !wanted(rules[0]) {
      FirstThatFinds(rules[1..], wanted, i - 1);
    }
  }

  lemma CleartextIsNoInput(r: Route, w: World, q: Req, cleartext: bool)
    ensures AtPerimeter(r, w.(cleartext := cleartext), q) == AtPerimeter(r, w, q)
  {
    var w' := w.(cleartext := cleartext);
    if r.custom.Shaping? {
      ReshapedAlike(r.custom.handlers, w, w', q);
    }
    var qc := AfterCustom(r, w, q);
    assert AfterCustom(r, w', q) == qc;
    IdentityIgnoresCleartext(r, w, qc, cleartext);
    RulesIgnoreCleartext(r.locations, w, q, cleartext);
  }

  lemma {:induction false} RulesIgnoreCleartext(rules: seq<LocationRule>, w: World, q: Req, cleartext: bool)
    ensures var w' := w.(cleartext := cleartext);
            && FirstThat(rules, rule => Answering(rule, w', q)) == FirstThat(rules, rule => Answering(rule, w, q))
            && FirstThat(rules, rule => Forwarding(rule, w', q)) == FirstThat(rules, rule => Forwarding(rule, w, q))
    decreases |rules|
  {
    if rules != [] {
      RulesIgnoreCleartext(rules[1..], w, q, cleartext);
    }
  }

  lemma IdentityIgnoresCleartext(r: Route, w: World, q: Req, cleartext: bool)
    ensures AtIdentity(r, w.(cleartext := cleartext), q) == AtIdentity(r, w, q)
  {
    forall p ensures AtPortal(r, w.(cleartext := cleartext), p) == AtPortal(r, w, p) {
      RulesIgnoreCleartext(r.locations, w, p, cleartext);
    }
  }

  lemma OutcomeIgnoresCleartext(r: Route, w: World, q: Req, cleartext: bool)
    requires !r.forceHttps && !r.requireClientCert
    ensures Outcome(r, w.(cleartext := cleartext), q) == Outcome(r, w, q)
  {
    CleartextIsNoInput(r, w, Cleaned(r, w, q), cleartext);
  }

  /** A route that forces HTTPS or requires a client certificate answers every cleartext request itself,
      in maintenance or not. */
  lemma CleartextIsRefused(r: Route, w: World, q: Req)
    requires IsFor(r, w, q) && w.cleartext && (r.forceHttps || r.requireClientCert)
    ensures RunAll(Handlers(r), w, q) == Answered(if Withheld(r) then 503 else 308)
  {
    CompiledMeansRecord(r, w, q);
  }

  lemma StillFor(r: Route, w: World, q: Req, cleartext: bool)
    requires IsFor(r, w, q)
    ensures IsFor(r, w.(cleartext := cleartext), q)
  {
    IsForMeans(r, w, q);
    IsForMeans(r, w.(cleartext := cleartext), q);
  }

  /** Any other route does the same in cleartext as over TLS. */
  lemma OthersIgnoreCleartext(r: Route, w: World, q: Req, cleartext: bool)
    requires IsFor(r, w, q) && !r.forceHttps && !r.requireClientCert
    ensures RunAll(Handlers(r), w.(cleartext := cleartext), q) == RunAll(Handlers(r), w, q)
  {
    StillFor(r, w, q, cleartext);
    CompiledMeansRecord(r, w, q);
    CompiledMeansRecord(r, w.(cleartext := cleartext), q);
    OutcomeIgnoresCleartext(r, w, q, cleartext);
  }

  lemma BlockedOutcome(r: Route, w: World, q: Req, i: nat)
    requires !r.maintenance && !r.redirect && i < |r.locations|
    requires Answering(r.locations[i], w, q)
    ensures Outcome(r, w, q).Answered?
  {
    var q0 := Cleaned(r, w, q);
    assert Answering(r.locations[i], w, q0);
    FirstThatFinds(r.locations, rule => Answering(rule, w, q0), i);
  }

  /** A block rule with a path is always enforced: requests for that path get neither to a backend nor
      to the cache. */
  lemma BlockRuleHolds(r: Route, w: World, q: Req, i: nat)
    requires IsFor(r, w, q) && !r.maintenance && !r.redirect
    requires i < |r.locations| && r.locations[i].action.Block? && r.locations[i].paths != []
    requires w.pathIs(q.path, r.locations[i].paths)
    ensures RunAll(Handlers(r), w, q).Answered?
  {
    CompiledMeansRecord(r, w, q);
    BlockedOutcome(r, w, q, i);
  }

  lemma PortalIsFresh(r: Route, w: World, q: Req)
    ensures AtPortal(r, w, q) != FromCache
  {
  }

  lemma IdentityIsFresh(r: Route, w: World, q: Req)
    ensures AtIdentity(r, w, q) != FromCache
  {
    forall p ensures AtPortal(r, w, p) != FromCache {
      PortalIsFresh(r, w, p);
    }
  }

  /** Exactly when the shared cache answers. */
  lemma CacheAnswersExactly(r: Route, w: World, q: Req)
    requires IsFor(r, w, q)
    ensures RunAll(Handlers(r), w, q) == FromCache <==>
            && !Withheld(r) && !(WantsTls(r) && w.cleartext) && !r.maintenance && !AddressBarred(r, w)
            && PerimeterAdmits(r, w, Cleaned(r, w, q)) && Shareable(r, Cleaned(r, w, q)) && w.cached(Cleaned(r, w, q))
  {
    CompiledMeansRecord(r, w, q);
    OutcomeFromCache(r, w, q);
  }

  lemma OutcomeFromCache(r: Route, w: World, q: Req)
    ensures Outcome(r, w, q) == FromCache <==>
            && !Withheld(r) && !(WantsTls(r) && w.cleartext) && !r.maintenance && !AddressBarred(r, w)
            && PerimeterAdmits(r, w, Cleaned(r, w, q)) && Shareable(r, Cleaned(r, w, q)) && w.cached(Cleaned(r, w, q))
  {
    var q0 := Cleaned(r, w, q);
    IdentityIsFresh(r, w, AfterCustom(r, w, q0));
    if !Withheld(r) {
      PerimeterMeans(r, w, q0);
    }
  }
}
