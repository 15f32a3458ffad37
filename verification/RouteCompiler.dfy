/**
  The route compiler (BuildRoute in internal/caddyapi/route.go): a policy record becomes a handler
  tree. Running the tree reaches the tenant's backend exactly when the record's policy admits the
  request.
 */
module RouteCompiler {
  import opened Wrappers
  import opened Strings
  import opened RouteModel
  import opened HandlerTree
  import TenantTemplate

  // ---------------------------------------------------------------- refusing to compile

  predicate Screened(s: string) {
    TenantTemplate.AllAllowed(TenantTemplate.Bodies(false, s))
  }

  /** A stored string the node would expand carries a placeholder that is not allowed. */
  predicate TemplateQuarantine(r: Route) {
    !r.rateKeySafe || exists i :: 0 <= i < |r.templates| && !Screened(r.templates[i])
  }

  predicate WafUnenforceable(r: Route) {
    r.waf && r.wafBlocking && !r.wafModule && !r.wafFailOpen
  }

  /** An enabled gate that cannot be emitted. */
  predicate Misconfigured(r: Route) {
    r.mtlsDenyOnMisconfig || r.portalDenyOnMisconfig || (r.portalProtect && r.portalDial == "") || WafUnenforceable(r)
  }

  predicate Refused(r: Route) {
    r.custom.Rejected? || TemplateQuarantine(r) || Misconfigured(r)
  }

  predicate AudienceRestricted(r: Route) {
    r.blockAll || r.deny != [] || r.blockCidrs != [] || r.geoMode != GeoOff
  }

  // ---------------------------------------------------------------- stages, in emission order

  function RevokedStage(r: Route): seq<Handler> {
    if r.requireClientCert && r.revokedFingerprints != [] then
      [Guard([All([Fingerprint(r.revokedFingerprints)])], 403, false)]
    else []
  }

  function PanelStage(r: Route): seq<Handler> {
    if r.panelSelf then [StampRealIp] else []
  }

  function GeoStatus(r: Route): int {
    if r.geoStatus == 0 then 403 else r.geoStatus
  }

  /** buildCIDRBlock */
  function CidrStage(r: Route): seq<Handler> {
    if r.blockCidrs == [] then [] else [Guard([All([RemoteIp(r.blockCidrs)])], GeoStatus(r), true)]
  }

  /** buildGeoBlock; the country matcher is true when the country is permitted. */
  function GeoStage(r: Route): seq<Handler> {
    if r.geoMode == GeoOff || r.geoCountries == [] then []
    else if !r.geoModule then
      if !r.geoFailClosed then []
      else if r.geoAllow == [] then [Guard([], GeoStatus(r), true)]
      else [Guard([All([Not([All([RemoteIp(r.geoAllow)])])])], GeoStatus(r), true)]
    else
      var country := All([Country(r.geoMode, r.geoCountries)]);
      var sets := if r.geoAllow == [] then [country] else [country, All([RemoteIp(r.geoAllow)])];
      [Guard([All([Not(sets)])], GeoStatus(r), true)]
  }

  function WafStage(r: Route): seq<Handler> {
    if r.waf && r.wafModule then [Waf(r.wafBlocking)] else []
  }

  function BearerStage(r: Route): seq<Handler> {
    if r.external && r.proxySecret != "" then
      [Guard([All([Not([All([Header(Authorization, "Bearer " + r.proxySecret)])])])], 403, false)]
    else []
  }

  predicate RuleEmitted(rule: LocationRule) {
    && rule.paths != []
    && match rule.action
       case Proxy => TrimSpace(rule.upstream.host) != "" && rule.upstream.port > 0
       case Rewrite => TrimSpace(rule.rewriteUri) != ""
       case Block => true
       case Redirect => TrimSpace(rule.redirectUrl) != ""
       case Unknown => false
  }

  /** buildLocationRuleRoute for the rules that answer: block and redirect. */
  function EarlyRoutes(rules: seq<LocationRule>): seq<HRoute> {
    if rules == [] then []
    else
      var rule := rules[|rules| - 1];
      EarlyRoutes(rules[..|rules| - 1])
      + if (rule.action == Block || rule.action == Redirect) && RuleEmitted(rule) then [EarlyRoute(rule)] else []
  }

  function EarlyStatus(rule: LocationRule): int {
    if rule.action == Block then 403 else if rule.code == 0 then 308 else rule.code
  }

  function EarlyRoute(rule: LocationRule): HRoute {
    HRoute([All([Path(rule.paths)])], [Respond(EarlyStatus(rule))], true)
  }

  function EarlyStage(r: Route): seq<Handler> {
    if r.redirect || EarlyRoutes(r.locations) == [] then [] else [Subroute(EarlyRoutes(r.locations))]
  }

  function RateStage(r: Route): seq<Handler> {
    if r.rateLimit && r.rateModule then [RateLimit] else []
  }

  const CREDENTIALLED := [All([Header(Cookie, "*")]), All([Header(Authorization, "*")])]

  const NO_STORE := ResponseHeader(PrivateNoStore)

  /** buildCacheHandlers */
  function CacheHandlers(r: Route): seq<Handler> {
    if RouteAuthGated(r) then [NO_STORE]
    else
      [Subroute([HRoute([All([Not(CREDENTIALLED)])], Uncredentialled(r), false),
                 HRoute(CREDENTIALLED, [NO_STORE], false)])]
  }

  function Uncredentialled(r: Route): seq<Handler> {
    (if r.cacheModule && r.cachePublic then [Cache] else [])
    + if r.cachePublic && !AudienceRestricted(r) then [ResponseHeader(DropSetCookie), ResponseHeader(PublicScope)]
      else [ResponseHeader(PrivateScope)]
  }

  function CacheStage(r: Route): seq<Handler> {
    if r.cacheEnabled && !r.redirect then CacheHandlers(r)
    else if !r.redirect && (RouteAuthGated(r) || AudienceRestricted(r)) then [NO_STORE]
    else []
  }

  function EncodeStage(r: Route): seq<Handler> {
    if !r.compressDisabled && !r.redirect then [ResponseHeader(Encoded)] else []
  }

  function ReshapeAll(tags: seq<string>): seq<Handler> {
    if tags == [] then [] else [Reshape(ByHandler(tags[0]))] + ReshapeAll(tags[1..])
  }

  function CustomStage(r: Route): seq<Handler> {
    if r.custom.Shaping? then ReshapeAll(r.custom.handlers) else []
  }

  function WebSocketStage(r: Route): seq<Handler> {
    if !r.webSocket && !r.redirect then [Guard([All([Header(Connection, "*Upgrade*")])], 426, true)] else []
  }

  /** forwardAuthGate */
  function Gate(sets: seq<MatchSet>, t: Target, responses: seq<Response>): Handler {
    Subroute([HRoute(sets, [Verify(t, responses)], false)])
  }

  /** Requests under a verifier's own paths go to the verifier. */
  function Passthrough(paths: seq<string>, t: Target): Handler {
    Subroute([HRoute([All([Path(paths)])], [Forward(t)], true)])
  }

  /** buildMTLSRBAC */
  function RbacStage(r: Route): seq<Handler> {
    if r.mtlsPathRules == 0 || r.panelUrl == "" then []
    else [Subroute([HRoute([], [StampSubject, Verify(Rbac(r.panelUrl), RBAC_RESPONSES)], false)])]
  }

  const RBAC_RESPONSES := [Response(Some(2), []), Response(None, [HRoute([], [Respond(403)], true)])]

  const OUTPOST := ["/outpost.goauthentik.io/*"]
  const SAFE := ["GET", "HEAD"]
  const ASSETS := [
    "*.js", "*.css", "*.map", "*.png", "*.jpg", "*.jpeg", "*.gif", "*.svg", "*.ico", "*.webp", "*.avif",
    "*.woff", "*.woff2", "*.ttf", "*.eot", "*.otf", "*.mp4", "*.webm", "*.mp3", "*.wav",
    "/pve2/*", "/static/*", "/assets/*", "/_next/static/*"]

  function SsoSets(r: Route): seq<MatchSet> {
    if r.ssoStrict then []
    else
      [All([Method(SAFE), Not([All([Path(ASSETS)])])]
           + (if r.ssoPaths == [] then [] else [Path(r.ssoPaths)])
           + (if r.ssoHosts == [] then [] else [Host(r.ssoHosts)]))]
  }

  function SsoResponses(r: Route): seq<Response> {
    [Response(Some(2), if r.ssoCopies then [HRoute([], [Reshape(CopySso)], false)] else [])]
    + if r.ssoStrict then [Response(Some(3), [HRoute([], [Respond(401)], false)])] else []
  }

  function SsoStage(r: Route): seq<Handler> {
    if r.ssoUrl == "" then []
    else [Passthrough(OUTPOST, Sso(r.ssoUrl))] + [Gate(SsoSets(r), Sso(r.ssoUrl), SsoResponses(r))]
  }

  const PORTAL := ["/hpg-portal/*"]

  function PortalSets(r: Route): seq<MatchSet> {
    if r.portalPublicPaths == [] then []
    else
      [All([Method(SAFE), Not([All([Path(r.portalPublicPaths)])])]), All([Not([All([Method(SAFE)])])])]
  }

  /** buildPortalForwardAuth */
  function PortalStage(r: Route): seq<Handler> {
    if !r.portalProtect || r.portalDial == "" then []
    else
      [Passthrough(PORTAL, Portal(r.portalDial))]
      + [Gate(PortalSets(r), Portal(r.portalDial), [Response(Some(2), [])])]
  }

  function Accounts(r: Route): seq<Account> {
    if r.basicUsers != [] then r.basicUsers
    else if r.basicUser != "" && r.basicHash != "" then [Account(r.basicUser, r.basicHash)]
    else []
  }

  function BasicStage(r: Route): seq<Handler> {
    if Accounts(r) == [] then [] else [BasicAuth(Accounts(r))]
  }

  // ---------------------------------------------------------------- the backend

  function BackendOf(r: Route): Target {
    if r.backendResolver != "" then Resolved(r.upstream, r.backendResolver)
    else if r.dnsResolver != "" && !r.upstreamIsAddress then Resolved(r.upstream, r.dnsResolver)
    else if !r.external && r.pool != [] then Static(r.pool)
    else Static([r.upstream])
  }

  function Primary(r: Route): Handler {
    if r.redirect then Respond(if r.redirectCode == 0 then 308 else r.redirectCode) else Forward(BackendOf(r))
  }

  /** pathRewriteHandlers */
  function Rewrites(r: Route): seq<Handler> {
    if !r.external || r.redirect then []
    else if r.stripPathPrefix && TrimSlash(r.pathPrefix) != "" then [Reshape(StripPrefix)]
    else if TrimSlash(r.upstreamPathPrefix) != "" then [Reshape(AddPrefix)]
    else []
  }

  function LateRoute(rule: LocationRule, primary: Handler): HRoute {
    HRoute([All([Path(rule.paths)])],
           if rule.action == Rewrite then [Reshape(RewriteTo(rule.rewriteUri)), primary]
           else [Forward(Static([rule.upstream]))],
           true)
  }

  function LateRoutes(rules: seq<LocationRule>, primary: Handler): seq<HRoute> {
    if rules == [] then []
    else
      var rule := rules[|rules| - 1];
      LateRoutes(rules[..|rules| - 1], primary)
      + if (rule.action == Proxy || rule.action == Rewrite) && RuleEmitted(rule) then [LateRoute(rule, primary)] else []
  }

  /** The end of the chain: location rules, path rewrites, the backend. */
  function BackendStage(r: Route): seq<Handler> {
    if r.locations != [] && !r.redirect then
      var late := LateRoutes(r.locations, Primary(r));
      if late == [] && Rewrites(r) == [] then [Primary(r)]
      else [Subroute(late + [HRoute([], Rewrites(r) + [Primary(r)], true)])]
    else Rewrites(r) + [Primary(r)]
  }

  // ---------------------------------------------------------------- the whole chain

  function Perimeter(r: Route): seq<Handler> {
    [StripSubject] + RevokedStage(r) + PanelStage(r) + CidrStage(r) + GeoStage(r) + WafStage(r) + BearerStage(r)
    + EarlyStage(r) + RateStage(r)
  }

  function Shaped(r: Route): seq<Handler> {
    Perimeter(r) + CacheStage(r) + EncodeStage(r) + CustomStage(r)
  }

  /** From the perimeter to the last gate. */
  function Gates(r: Route): seq<Handler> {
    Shaped(r) + WebSocketStage(r) + RbacStage(r) + SsoStage(r) + PortalStage(r) + BasicStage(r)
  }

  function AclRoutes(r: Route): seq<HRoute> {
    (if r.deny == [] then [] else [HRoute([All([RemoteIp(r.deny)])], [Respond(403)], true)])
    + if !r.blockAll then []
      else if r.allow == [] then [HRoute([], [Respond(403)], true)]
      else [HRoute([All([Not([All([RemoteIp(r.allow)])])])], [Respond(403)], true)]
  }

  function WithAcl(r: Route, inner: seq<Handler>): seq<Handler> {
    if r.blockAll || r.allow != [] || r.deny != [] then [Subroute(AclRoutes(r) + [HRoute([], inner, true)])]
    else inner
  }

  predicate ForcesHttps(r: Route) {
    r.forceHttps || r.requireClientCert
  }

  /** forceHTTPSWrap */
  function WithHttps(r: Route, inner: seq<Handler>): seq<Handler> {
    if !ForcesHttps(r) then inner
    else [Subroute([HRoute([All([Cleartext, Host(r.hosts)])], [Respond(308)], false), HRoute([], inner, true)])]
  }

  function MaintenanceHandlers(r: Route): seq<Handler> {
    if r.maintenanceAllow == [] then [Respond(503)]
    else
      [Subroute([HRoute([All([RemoteIp(r.maintenanceAllow)])], [Forward(Static([r.upstream]))], true),
                 HRoute([], [Respond(503)], true)])]
  }

  function Handlers(r: Route): seq<Handler> {
    if Refused(r) then [Respond(503)]
    else if r.maintenance then WithHttps(r, MaintenanceHandlers(r))
    else WithHttps(r, WithAcl(r, Gates(r) + BackendStage(r)))
  }

  /** The request matcher of the route. */
  function Match(r: Route): MatchSet {
    All([Host(r.hosts)] + if PathPatterns(r) == [] then [] else [Path(PathPatterns(r))])
  }

  function Compile(r: Route): HRoute {
    HRoute([Match(r)], Handlers(r), true)
  }

  // ---------------------------------------------------------------- what the gates admit

  predicate IpAdmits(r: Route, w: World) {
    && (r.deny != [] ==> !w.inRanges(r.deny))
    && (r.blockAll ==> r.allow != [] && w.inRanges(r.allow))
  }

  predicate CertAdmits(r: Route, w: World) {
    r.requireClientCert && r.revokedFingerprints != [] ==> !w.fingerprintIn(r.revokedFingerprints)
  }

  predicate CidrAdmits(r: Route, w: World) {
    r.blockCidrs != [] ==> !w.inRanges(r.blockCidrs)
  }

  /** A listed country rule lets in permitted countries and the allow list; without the module it
      admits the allow list only when it fails closed, and everyone when it fails open. */
  predicate GeoAdmits(r: Route, w: World) {
    r.geoMode != GeoOff && r.geoCountries != [] ==>
      || (r.geoAllow != [] && w.inRanges(r.geoAllow))
      || (if r.geoModule then w.permits(r.geoMode, r.geoCountries) else !r.geoFailClosed)
  }

  predicate WafAdmits(r: Route, w: World, q: Req) {
    r.waf && r.wafModule && r.wafBlocking ==> w.wafPasses(q)
  }

  predicate BearerAdmits(r: Route, w: World, q: Req) {
    r.external && r.proxySecret != "" ==>
      q.authorization.Some? && PatternMatches(Expanded(w, "Bearer " + r.proxySecret), q.authorization.value)
  }

  /** No emitted block or redirect rule is for this path. */
  predicate NoEarlyRule(r: Route, w: World, q: Req) {
    !r.redirect ==>
      forall i :: 0 <= i < |r.locations| && RuleEmitted(r.locations[i])
                  && (r.locations[i].action == Block || r.locations[i].action == Redirect) ==>
        !w.pathIs(q.path, r.locations[i].paths)
  }

  predicate RateAdmits(r: Route, w: World, q: Req) {
    r.rateLimit && r.rateModule ==> w.underLimit(q)
  }

  /** The shared node cache may answer: opted in, public, ungated, and no credentials shown. */
  predicate CacheOpen(r: Route, q: Req) {
    && r.cacheEnabled && !r.redirect && r.cachePublic && r.cacheModule
    && !RouteAuthGated(r) && q.cookie == None && q.authorization == None
  }

  predicate NoUpgrade(r: Route, q: Req) {
    !r.webSocket && !r.redirect ==> !(q.connection.Some? && Contains(q.connection.value, "Upgrade"))
  }

  predicate Confirmed(w: World, t: Target, q: Req) {
    w.verify(t, q).Some? && w.verify(t, q).value / 100 == 2
  }

  predicate HasRbac(r: Route) {
    r.mtlsPathRules > 0 && r.panelUrl != ""
  }

  predicate RbacAdmits(r: Route, w: World, q: Req) {
    HasRbac(r) ==> Confirmed(w, Rbac(r.panelUrl), q)
  }

  /** Strict single sign-on gates every request; the default mode gates page loads in scope. */
  predicate SsoGates(r: Route, w: World, q: Req) {
    && r.ssoUrl != ""
    && (|| r.ssoStrict
        || (&& q.verb in SAFE && !w.pathIs(q.path, ASSETS)
            && (r.ssoPaths != [] ==> w.pathIs(q.path, r.ssoPaths))
            && (r.ssoHosts != [] ==> w.hostIs(q.host, r.ssoHosts))))
  }

  predicate SsoAdmits(r: Route, w: World, q: Req) {
    && (r.ssoUrl != "" ==> !w.pathIs(q.path, OUTPOST))
    && (SsoGates(r, w, q) ==> Confirmed(w, Sso(r.ssoUrl), q))
  }

  /** The portal verifies every request but safe ones to declared public paths. */
  predicate PortalAdmits(r: Route, w: World, q: Req) {
    r.portalProtect ==>
      && !w.pathIs(q.path, PORTAL)
      && (|| Confirmed(w, Portal(r.portalDial), q)
          || (r.portalPublicPaths != [] && q.verb in SAFE && w.pathIs(q.path, r.portalPublicPaths)))
  }

  predicate BasicAdmits(r: Route, w: World, q: Req) {
    Accounts(r) != [] ==> w.authenticates(Accounts(r), q)
  }

  /** The request as the gates see it: client claims of identity are gone. */
  function Arrived(r: Route, w: World, q: Req): Req {
    var stripped := q.(subject := None);
    if r.panelSelf then stripped.(realIp := Some(w.clientIp)) else stripped
  }

  function Reshaped(tags: seq<string>, w: World, q: Req): Req {
    if tags == [] then q else Reshaped(tags[1..], w, w.reshape(ByHandler(tags[0]), q))
  }

  function AfterCustom(r: Route, w: World, q: Req): Req {
    if r.custom.Shaping? then Reshaped(r.custom.handlers, w, q) else q
  }

  function AfterRbac(r: Route, w: World, q: Req): Req {
    if HasRbac(r) then q.(subject := Some(w.certSubject)) else q
  }

  function AfterSso(r: Route, w: World, q: Req): Req {
    if SsoGates(r, w, q) && r.ssoCopies then w.reshape(CopySso, q) else q
  }

  /** Checks on the connection and the request as it arrived. */
  predicate PerimeterAdmits(r: Route, w: World, q: Req) {
    && CertAdmits(r, w) && CidrAdmits(r, w) && GeoAdmits(r, w) && WafAdmits(r, w, q) && BearerAdmits(r, w, q)
    && NoEarlyRule(r, w, q) && RateAdmits(r, w, q)
  }

  /** Checks on the caller's identity, on the request as the custom chain left it. */
  predicate IdentityAdmits(r: Route, w: World, q: Req) {
    var q1 := AfterRbac(r, w, q);
    var q2 := AfterSso(r, w, q1);
    && NoUpgrade(r, q) && RbacAdmits(r, w, q1) && SsoAdmits(r, w, q1) && PortalAdmits(r, w, q2) && BasicAdmits(r, w, q2)
  }

  predicate CacheAnswers(r: Route, w: World, q: Req) {
    CacheOpen(r, q) && w.cached(q)
  }

  /** What the emitted gates of a proxy route admit. */
  predicate Admits(r: Route, w: World, q: Req) {
    var q0 := Arrived(r, w, q);
    && (ForcesHttps(r) ==> !w.cleartext)
    && IpAdmits(r, w)
    && PerimeterAdmits(r, w, q0)
    && !CacheAnswers(r, w, q0)
    && IdentityAdmits(r, w, AfterCustom(r, w, q0))
  }

  // ---------------------------------------------------------------- what the emitted gates answer

  predicate ReachesTenant(f: Flow) {
    f.Proxied? && IsTenant(f.target)
  }

  predicate EarlyRuleFor(rule: LocationRule, w: World, q: Req) {
    RuleEmitted(rule) && (rule.action == Block || rule.action == Redirect) && w.pathIs(q.path, rule.paths)
  }

  /** The first block or redirect rule for the path. */
  function FirstEarly(rules: seq<LocationRule>, w: World, q: Req): Option<LocationRule> {
    if rules == [] then None
    else
      var before := FirstEarly(rules[..|rules| - 1], w, q);
      if before.None? && EarlyRuleFor(rules[|rules| - 1], w, q) then Some(rules[|rules| - 1]) else before
  }

  function EarlyAnswer(r: Route, w: World, q: Req): Flow {
    match FirstEarly(r.locations, w, q)
    case None => Answered(403)
    case Some(rule) => Answered(EarlyStatus(rule))
  }

  /** The answer of the first perimeter gate that does not admit the request. */
  function PerimeterAnswer(r: Route, w: World, q: Req): Flow {
    if !CertAdmits(r, w) then Answered(403)
    else if !CidrAdmits(r, w) || !GeoAdmits(r, w) then Answered(GeoStatus(r))
    else if !WafAdmits(r, w, q) || !BearerAdmits(r, w, q) then Answered(403)
    else if !NoEarlyRule(r, w, q) then EarlyAnswer(r, w, q)
    else Answered(429)
  }

  function RbacAnswer(r: Route, w: World, q: Req): Flow {
    if w.verify(Rbac(r.panelUrl), q).None? then Answered(502) else Answered(403)
  }

  /** A provider's own paths, and responses that are not passed on, are the provider's. */
  function SsoAnswer(r: Route, w: World, q: Req): Flow {
    if w.pathIs(q.path, OUTPOST) then Proxied(Sso(r.ssoUrl))
    else
      match w.verify(Sso(r.ssoUrl), q)
      case None => Answered(502)
      case Some(status) => if r.ssoStrict && status / 100 == 3 then Answered(401) else Proxied(Sso(r.ssoUrl))
  }

  function PortalAnswer(r: Route, w: World, q: Req): Flow {
    if !w.pathIs(q.path, PORTAL) && w.verify(Portal(r.portalDial), q).None? then Answered(502)
    else Proxied(Portal(r.portalDial))
  }

  /** The answer of the first identity gate that does not admit the request. */
  function IdentityAnswer(r: Route, w: World, q: Req): Flow {
    var q1 := AfterRbac(r, w, q);
    var q2 := AfterSso(r, w, q1);
    if !NoUpgrade(r, q) then Answered(426)
    else if !RbacAdmits(r, w, q1) then RbacAnswer(r, w, q1)
    else if !SsoAdmits(r, w, q1) then SsoAnswer(r, w, q1)
    else if !PortalAdmits(r, w, q2) then PortalAnswer(r, w, q2)
    else Answered(401)
  }

  /** Past the gates of a redirect route. */
  function RedirectAnswer(r: Route): Flow {
    Answered(if r.redirectCode == 0 then 308 else r.redirectCode)
  }

  // ---------------------------------------------------------------- running in stages

  /** Running hs on q lets the request go on as q', when ok; otherwise it ends with f. */
  predicate Leads(hs: seq<Handler>, w: World, q: Req, ok: bool, q': Req, f: Flow) {
    RunAll(hs, w, q) == if ok then Next(q') else f
  }

  lemma LeadsInTurn(
    a: seq<Handler>, b: seq<Handler>, w: World, q: Req, ok1: bool, q1: Req, f1: Flow, ok2: bool, q2: Req, f2: Flow)
    requires Leads(a, w, q, ok1, q1, f1) && (ok1 || !f1.Next?)
    requires ok1 ==> Leads(b, w, q1, ok2, q2, f2)
    ensures Leads(a + b, w, q, ok1 && ok2, q2, if ok1 then f2 else f1)
  {
    RunsInTurn(a, b, w, q);
  }

  lemma NothingLeads(w: World, q: Req, f: Flow)
    ensures Leads([], w, q, true, q, f)
  {
  }

  /** A guard passes the request unchanged unless its condition applies. */
  lemma GuardLeads(sets: seq<MatchSet>, status: int, terminal: bool, w: World, q: Req)
    ensures Leads([Guard(sets, status, terminal)], w, q, !Applies(sets, w, q), q, Answered(status))
  {
    GuardRuns(sets, status, terminal, w, q);
  }

  lemma RevokedLeads(r: Route, w: World, q: Req)
    ensures Leads(RevokedStage(r), w, q, CertAdmits(r, w), q, Answered(403))
  {
    NothingLeads(w, q, Answered(403));
    MatchesOne(Fingerprint(r.revokedFingerprints), w, q);
    GuardLeads([All([Fingerprint(r.revokedFingerprints)])], 403, false, w, q);
  }

  lemma CidrLeads(r: Route, w: World, q: Req)
    ensures Leads(CidrStage(r), w, q, CidrAdmits(r, w), q, Answered(GeoStatus(r)))
  {
    NothingLeads(w, q, Answered(GeoStatus(r)));
    MatchesOne(RemoteIp(r.blockCidrs), w, q);
    GuardLeads([All([RemoteIp(r.blockCidrs)])], GeoStatus(r), true, w, q);
  }

  lemma NotLeads(sets: seq<MatchSet>, status: int, terminal: bool, w: World, q: Req)
    ensures Leads([Guard([All([Not(sets)])], status, terminal)], w, q, SomeMatch(sets, w, q), q, Answered(status))
  {
    MatchesOne(Not(sets), w, q);
    GuardLeads([All([Not(sets)])], status, terminal, w, q);
  }

  lemma GeoLeads(r: Route, w: World, q: Req)
    ensures Leads(GeoStage(r), w, q, GeoAdmits(r, w), q, Answered(GeoStatus(r)))
  {
    NothingLeads(w, q, Answered(GeoStatus(r)));
    var country, allowed := Country(r.geoMode, r.geoCountries), RemoteIp(r.geoAllow);
    MatchesOne(country, w, q);
    MatchesOne(allowed, w, q);
    MatchesTwo(country, allowed, w, q);
    GuardLeads([], GeoStatus(r), true, w, q);
    NotLeads([All([allowed])], GeoStatus(r), true, w, q);
    NotLeads([All([country])], GeoStatus(r), true, w, q);
    NotLeads([All([country]), All([allowed])], GeoStatus(r), true, w, q);
  }

  lemma WafLeads(r: Route, w: World, q: Req)
    ensures Leads(WafStage(r), w, q, WafAdmits(r, w, q), q, Answered(403))
  {
    NothingLeads(w, q, Answered(403));
    RunsOne(Waf(r.wafBlocking), w, q);
  }

  lemma BearerLeads(r: Route, w: World, q: Req)
    ensures Leads(BearerStage(r), w, q, BearerAdmits(r, w, q), q, Answered(403))
  {
    NothingLeads(w, q, Answered(403));
    var bearer := Header(Authorization, "Bearer " + r.proxySecret);
    MatchesOne(bearer, w, q);
    NotLeads([All([bearer])], 403, false, w, q);
  }

  lemma StripLeads(w: World, q: Req)
    ensures Leads([StripSubject], w, q, true, q.(subject := None), EMPTY)
  {
    RunsOne(StripSubject, w, q);
  }

  lemma PanelLeads(r: Route, w: World, q: Req)
    ensures Leads(PanelStage(r), w, q.(subject := None), true, Arrived(r, w, q), EMPTY)
  {
    NothingLeads(w, q.(subject := None), EMPTY);
    RunsOne(StampRealIp, w, q.(subject := None));
  }

  lemma RateLeads(r: Route, w: World, q: Req)
    ensures Leads(RateStage(r), w, q, RateAdmits(r, w, q), q, Answered(429))
  {
    NothingLeads(w, q, Answered(429));
    RunsOne(RateLimit, w, q);
  }

  lemma EncodeLeads(r: Route, w: World, q: Req)
    ensures Leads(EncodeStage(r), w, q, true, q, EMPTY)
  {
    NothingLeads(w, q, EMPTY);
    RunsOne(ResponseHeader(Encoded), w, q);
  }

  lemma {:induction false} ReshapeLeads(tags: seq<string>, w: World, q: Req)
    ensures Leads(ReshapeAll(tags), w, q, true, Reshaped(tags, w, q), EMPTY)
    decreases |tags|
  {
    if tags != [] {
      RunsInTurn([Reshape(ByHandler(tags[0]))], ReshapeAll(tags[1..]), w, q);
      RunsOne(Reshape(ByHandler(tags[0])), w, q);
      ReshapeLeads(tags[1..], w, w.reshape(ByHandler(tags[0]), q));
    }
  }

  lemma CustomLeads(r: Route, w: World, q: Req)
    ensures Leads(CustomStage(r), w, q, true, AfterCustom(r, w, q), EMPTY)
  {
    NothingLeads(w, q, EMPTY);
    if r.custom.Shaping? {
      ReshapeLeads(r.custom.handlers, w, q);
    }
  }

  lemma WebSocketLeads(r: Route, w: World, q: Req)
    ensures Leads(WebSocketStage(r), w, q, NoUpgrade(r, q), q, Answered(426))
  {
    NothingLeads(w, q, Answered(426));
    var upgrade := Header(Connection, "*Upgrade*");
    assert "*Upgrade*"[1..|"*Upgrade*"| - 1] == "Upgrade";
    MatchesOne(upgrade, w, q);
    GuardLeads([All([upgrade])], 426, true, w, q);
  }

  lemma BasicLeads(r: Route, w: World, q: Req)
    ensures Leads(BasicStage(r), w, q, BasicAdmits(r, w, q), q, Answered(401))
  {
    NothingLeads(w, q, Answered(401));
    RunsOne(BasicAuth(Accounts(r)), w, q);
  }

  // ---------------------------------------------------------------- location rules

  lemma {:induction false} EarlyRoutesRun(rules: seq<LocationRule>, w: World, q: Req)
    ensures RunRoutes(EarlyRoutes(rules), w, q)
            == match FirstEarly(rules, w, q)
               case None => Next(q)
               case Some(rule) => Answered(EarlyStatus(rule))
    ensures FirstEarly(rules, w, q).Some? <==> exists i :: 0 <= i < |rules| && EarlyRuleFor(rules[i], w, q)
    decreases |rules|
  {
    if rules != [] {
      var front, rule := rules[..|rules| - 1], rules[|rules| - 1];
      EarlyRoutesRun(front, w, q);
      assert forall i :: 0 <= i < |front| ==> front[i] == rules[i];
      if (rule.action == Block || rule.action == Redirect) && RuleEmitted(rule) {
        RoutesInTurn(EarlyRoutes(front), [EarlyRoute(rule)], w, q);
        OneRoute(EarlyRoute(rule), w, q);
        OneSet([Path(rule.paths)], w, q);
        MatchesOne(Path(rule.paths), w, q);
        RunsOne(EarlyRoute(rule).handle[0], w, q);
      } else {
        assert EarlyRoutes(front) + [] == EarlyRoutes(front);
      }
    }
  }

  lemma EarlyLeads(r: Route, w: World, q: Req)
    ensures Leads(EarlyStage(r), w, q, NoEarlyRule(r, w, q), q, EarlyAnswer(r, w, q))
  {
    NothingLeads(w, q, EarlyAnswer(r, w, q));
    EarlyRoutesRun(r.locations, w, q);
    RunsOne(Subroute(EarlyRoutes(r.locations)), w, q);
    assert !r.redirect ==>
      (NoEarlyRule(r, w, q) <==> !exists i :: 0 <= i < |r.locations| && EarlyRuleFor(r.locations[i], w, q));
  }

  predicate LateRuleFor(rule: LocationRule, w: World, q: Req) {
    RuleEmitted(rule) && (rule.action == Proxy || rule.action == Rewrite) && w.pathIs(q.path, rule.paths)
  }

  /** The first proxy or rewrite rule for the path. */
  function FirstLate(rules: seq<LocationRule>, w: World, q: Req): Option<LocationRule> {
    if rules == [] then None
    else
      var before := FirstLate(rules[..|rules| - 1], w, q);
      if before.None? && LateRuleFor(rules[|rules| - 1], w, q) then Some(rules[|rules| - 1]) else before
  }

  /** Where an admitted request goes. */
  function TargetFor(r: Route, w: World, q: Req): Target {
    var rule := FirstLate(r.locations, w, q);
    if rule.Some? && rule.value.action == Proxy then Static([rule.value.upstream]) else BackendOf(r)
  }

  lemma LateRouteRuns(rule: LocationRule, backend: Target, w: World, q: Req)
    ensures RunRoutes([LateRoute(rule, Forward(backend))], w, q)
            == if !w.pathIs(q.path, rule.paths) then Next(q)
               else Proxied(if rule.action == Rewrite then backend else Static([rule.upstream]))
  {
    var route := LateRoute(rule, Forward(backend));
    OneRoute(route, w, q);
    OneSet([Path(rule.paths)], w, q);
    MatchesOne(Path(rule.paths), w, q);
    RunsOne(Forward(Static([rule.upstream])), w, q);
    RewriteThenForward(RewriteTo(rule.rewriteUri), backend, w, q);
  }

  lemma RewriteThenForward(change: Change, backend: Target, w: World, q: Req)
    ensures RunAll([Reshape(change), Forward(backend)], w, q) == Proxied(backend)
  {
    assert [Reshape(change), Forward(backend)] == [Reshape(change)] + [Forward(backend)];
    RunsInTurn([Reshape(change)], [Forward(backend)], w, q);
    RunsOne(Reshape(change), w, q);
    RunsOne(Forward(backend), w, w.reshape(change, q));
  }

  lemma {:induction false} LateRoutesRun(rules: seq<LocationRule>, backend: Target, w: World, q: Req)
    ensures var rule := FirstLate(rules, w, q);
            RunRoutes(LateRoutes(rules, Forward(backend)), w, q)
            == if rule.None? then Next(q)
               else Proxied(if rule.value.action == Proxy then Static([rule.value.upstream]) else backend)
    ensures var rule := FirstLate(rules, w, q);
            rule.Some? ==> rule.value.action == Proxy || rule.value.action == Rewrite
    decreases |rules|
  {
    if rules != [] {
      var front, rule := rules[..|rules| - 1], rules[|rules| - 1];
      LateRoutesRun(front, backend, w, q);
      if (rule.action == Proxy || rule.action == Rewrite) && RuleEmitted(rule) {
        RoutesInTurn(LateRoutes(front, Forward(backend)), [LateRoute(rule, Forward(backend))], w, q);
        LateRouteRuns(rule, backend, w, q);
      } else {
        assert LateRoutes(front, Forward(backend)) + [] == LateRoutes(front, Forward(backend));
      }
    }
  }

  lemma RewritesThenPrimary(r: Route, w: World, q: Req)
    requires !r.redirect
    ensures RunAll(Rewrites(r) + [Primary(r)], w, q) == Proxied(BackendOf(r))
  {
    RunsInTurn(Rewrites(r), [Primary(r)], w, q);
    RunsOne(Reshape(StripPrefix), w, q);
    RunsOne(Reshape(AddPrefix), w, q);
    forall p ensures RunAll([Primary(r)], w, p) == Proxied(BackendOf(r)) {
      RunsOne(Primary(r), w, p);
    }
  }

  lemma BackendRuns(r: Route, w: World, q: Req)
    requires !r.redirect
    ensures RunAll(BackendStage(r), w, q) == Proxied(TargetFor(r, w, q))
  {
    RewritesThenPrimary(r, w, q);
    LateRoutesRun(r.locations, BackendOf(r), w, q);
    var late := LateRoutes(r.locations, Primary(r));
    var fallback := HRoute([], Rewrites(r) + [Primary(r)], true);
    if late == [] && Rewrites(r) == [] {
      assert Rewrites(r) + [Primary(r)] == [Primary(r)];
    }
    RunsOne(Subroute(late + [fallback]), w, q);
    RoutesInTurn(late, [fallback], w, q);
    OneRoute(fallback, w, q);
  }

  lemma RedirectRuns(r: Route, w: World, q: Req)
    requires r.redirect
    ensures RunAll(BackendStage(r), w, q) == RedirectAnswer(r)
  {
    assert Rewrites(r) + [Primary(r)] == [Primary(r)];
    RunsOne(Primary(r), w, q);
  }

  // ---------------------------------------------------------------- cache and verifiers

  lemma CredentialledMatches(w: World, q: Req)
    ensures SomeMatch(CREDENTIALLED, w, q) == (q.cookie.Some? || q.authorization.Some?)
    ensures Applies(CREDENTIALLED, w, q) == (q.cookie.Some? || q.authorization.Some?)
  {
    MatchesTwo(Header(Cookie, "*"), Header(Authorization, "*"), w, q);
  }

  lemma HeadersOnlyRun(a: Directive, b: Directive, w: World, q: Req)
    ensures RunAll([ResponseHeader(a)], w, q) == Next(q)
    ensures RunAll([ResponseHeader(a), ResponseHeader(b)], w, q) == Next(q)
  {
    RunsOne(ResponseHeader(a), w, q);
    RunsOne(ResponseHeader(b), w, q);
    assert [ResponseHeader(a), ResponseHeader(b)] == [ResponseHeader(a)] + [ResponseHeader(b)];
    RunsInTurn([ResponseHeader(a)], [ResponseHeader(b)], w, q);
  }

  lemma CacheLeads(r: Route, w: World, q: Req)
    ensures Leads(CacheStage(r), w, q, !CacheAnswers(r, w, q), q, FromCache)
  {
    NothingLeads(w, q, FromCache);
    HeadersOnlyRun(PrivateNoStore, Encoded, w, q);
    if r.cacheEnabled && !r.redirect && !RouteAuthGated(r) {
      CacheSubrouteRuns(r, w, q);
    }
  }

  lemma UncredentialledRuns(r: Route, w: World, q: Req)
    ensures RunAll(Uncredentialled(r), w, q)
            == if r.cacheModule && r.cachePublic && w.cached(q) then FromCache else Next(q)
  {
    var cache := if r.cacheModule && r.cachePublic then [Cache] else [];
    var rest := Uncredentialled(r)[|cache|..];
    HeadersOnlyRun(DropSetCookie, PublicScope, w, q);
    HeadersOnlyRun(PrivateScope, Encoded, w, q);
    RunsOne(Cache, w, q);
    RunsInTurn(cache, rest, w, q);
  }

  lemma CacheSubrouteRuns(r: Route, w: World, q: Req)
    requires r.cacheEnabled && !r.redirect && !RouteAuthGated(r)
    ensures RunAll(CacheHandlers(r), w, q) == if CacheAnswers(r, w, q) then FromCache else Next(q)
  {
    var first := HRoute([All([Not(CREDENTIALLED)])], Uncredentialled(r), false);
    var second := HRoute(CREDENTIALLED, [NO_STORE], false);
    TwoRoutes(first, second, w, q);
    OneRoute(first, w, q);
    OneRoute(second, w, q);
    MatchesOne(Not(CREDENTIALLED), w, q);
    CredentialledMatches(w, q);
    UncredentialledRuns(r, w, q);
    HeadersOnlyRun(PrivateNoStore, Encoded, w, q);
  }

  lemma GateRuns(sets: seq<MatchSet>, t: Target, responses: seq<Response>, w: World, q: Req)
    ensures RunAll([Gate(sets, t, responses)], w, q)
            == if !Applies(sets, w, q) then Next(q)
               else if w.verify(t, q).None? then Answered(502)
               else Handle(responses, t, w.verify(t, q).value, w, q)
  {
    OneRoute(HRoute(sets, [Verify(t, responses)], false), w, q);
    RunsOne(Verify(t, responses), w, q);
  }

  lemma PassthroughLeads(paths: seq<string>, t: Target, w: World, q: Req)
    ensures Leads([Passthrough(paths, t)], w, q, !w.pathIs(q.path, paths), q, Proxied(t))
  {
    OneRoute(HRoute([All([Path(paths)])], [Forward(t)], true), w, q);
    MatchesOne(Path(paths), w, q);
    RunsOne(Forward(t), w, q);
  }

  lemma RbacHandles(status: nat, t: Target, w: World, q: Req)
    ensures Handle(RBAC_RESPONSES, t, status, w, q) == if status / 100 == 2 then Next(q) else Answered(403)
  {
    var deny := HRoute([], [Respond(403)], true);
    assert RBAC_RESPONSES[1..] == [Response(None, [deny])];
    OneRoute(deny, w, q);
    RunsOne(Respond(403), w, q);
  }

  lemma RbacLeads(r: Route, w: World, q: Req)
    ensures var q1 := AfterRbac(r, w, q); Leads(RbacStage(r), w, q, RbacAdmits(r, w, q1), q1, RbacAnswer(r, w, q1))
  {
    NothingLeads(w, q, RbacAnswer(r, w, q));
    if HasRbac(r) {
      var q1 := AfterRbac(r, w, q);
      var t := Rbac(r.panelUrl);
      var verify := Verify(t, RBAC_RESPONSES);
      OneRoute(HRoute([], [StampSubject, verify], false), w, q);
      assert [StampSubject, verify] == [StampSubject] + [verify];
      RunsInTurn([StampSubject], [verify], w, q);
      RunsOne(StampSubject, w, q);
      RunsOne(verify, w, q1);
      if w.verify(t, q1).Some? {
        RbacHandles(w.verify(t, q1).value, t, w, q1);
      }
    }
  }

  lemma SafeAndNot(paths: seq<string>, w: World, q: Req)
    ensures AllMatch([Method(SAFE), Not([All([Path(paths)])])], w, q) == (q.verb in SAFE && !w.pathIs(q.path, paths))
  {
    MatchesTwo(Method(SAFE), Not([All([Path(paths)])]), w, q);
    MatchesOne(Path(paths), w, q);
  }

  lemma SsoSetsApply(r: Route, w: World, q: Req)
    requires r.ssoUrl != ""
    ensures Applies(SsoSets(r), w, q) == SsoGates(r, w, q)
  {
    if !r.ssoStrict {
      var safe := [Method(SAFE), Not([All([Path(ASSETS)])])];
      var paths := if r.ssoPaths == [] then [] else [Path(r.ssoPaths)];
      var hosts := if r.ssoHosts == [] then [] else [Host(r.ssoHosts)];
      OneSet(safe + paths + hosts, w, q);
      AllMatchSplits(safe + paths, hosts, w, q);
      AllMatchSplits(safe, paths, w, q);
      SafeAndNot(ASSETS, w, q);
      MatchesOne(Path(r.ssoPaths), w, q);
      MatchesOne(Host(r.ssoHosts), w, q);
    }
  }

  lemma SsoHandles(r: Route, status: nat, w: World, q: Req)
    ensures var f := Handle(SsoResponses(r), Sso(r.ssoUrl), status, w, q);
            if status / 100 == 2 then f == Next(if r.ssoCopies then w.reshape(CopySso, q) else q)
            else f == if r.ssoStrict && status / 100 == 3 then Answered(401) else Proxied(Sso(r.ssoUrl))
  {
    var copy, deny := HRoute([], [Reshape(CopySso)], false), HRoute([], [Respond(401)], false);
    OneRoute(copy, w, q);
    OneRoute(deny, w, q);
    RunsOne(Reshape(CopySso), w, q);
    RunsOne(Respond(401), w, q);
    var t, rest := Sso(r.ssoUrl), if r.ssoStrict then [Response(Some(3), [deny])] else [];
    assert SsoResponses(r)[1..] == rest;
    assert Handle([], t, status, w, q) == Proxied(t);
    assert rest != [] ==> rest[1..] == [];
    assert Handle(rest, t, status, w, q)
        == if r.ssoStrict && status / 100 == 3 then Answered(401) else Proxied(t);
  }

  /** What the provider's response comes to when it is not passed on. */
  function SsoVerdict(r: Route, w: World, q: Req): Flow {
    match w.verify(Sso(r.ssoUrl), q)
    case None => Answered(502)
    case Some(status) => if r.ssoStrict && status / 100 == 3 then Answered(401) else Proxied(Sso(r.ssoUrl))
  }

  lemma SsoGateLeads(r: Route, w: World, q: Req)
    requires r.ssoUrl != ""
    ensures Leads([Gate(SsoSets(r), Sso(r.ssoUrl), SsoResponses(r))], w, q,
                  SsoGates(r, w, q) ==> Confirmed(w, Sso(r.ssoUrl), q), AfterSso(r, w, q), SsoVerdict(r, w, q))
  {
    SsoSetsApply(r, w, q);
    GateRuns(SsoSets(r), Sso(r.ssoUrl), SsoResponses(r), w, q);
    if w.verify(Sso(r.ssoUrl), q).Some? {
      SsoHandles(r, w.verify(Sso(r.ssoUrl), q).value, w, q);
    }
  }

  lemma SsoLeads(r: Route, w: World, q: Req)
    ensures Leads(SsoStage(r), w, q, SsoAdmits(r, w, q), AfterSso(r, w, q), SsoAnswer(r, w, q))
  {
    NothingLeads(w, q, SsoAnswer(r, w, q));
    if r.ssoUrl != "" {
      PassthroughLeads(OUTPOST, Sso(r.ssoUrl), w, q);
      SsoGateLeads(r, w, q);
      LeadsInTurn([Passthrough(OUTPOST, Sso(r.ssoUrl))], [Gate(SsoSets(r), Sso(r.ssoUrl), SsoResponses(r))], w, q,
                  !w.pathIs(q.path, OUTPOST), q, Proxied(Sso(r.ssoUrl)),
                  SsoGates(r, w, q) ==> Confirmed(w, Sso(r.ssoUrl), q), AfterSso(r, w, q), SsoVerdict(r, w, q));
    }
  }

  predicate PortalGates(r: Route, w: World, q: Req) {
    !(r.portalPublicPaths != [] && q.verb in SAFE && w.pathIs(q.path, r.portalPublicPaths))
  }

  lemma PortalSetsApply(r: Route, w: World, q: Req)
    ensures Applies(PortalSets(r), w, q) == PortalGates(r, w, q)
  {
    if r.portalPublicPaths != [] {
      SafeAndNot(r.portalPublicPaths, w, q);
      var unsafe := Not([All([Method(SAFE)])]);
      MatchesOne(unsafe, w, q);
      MatchesOne(Method(SAFE), w, q);
      TwoSets([Method(SAFE), Not([All([Path(r.portalPublicPaths)])])], [unsafe], w, q);
    }
  }

  function PortalVerdict(r: Route, w: World, q: Req): Flow {
    if w.verify(Portal(r.portalDial), q).None? then Answered(502) else Proxied(Portal(r.portalDial))
  }

  lemma PortalGateLeads(r: Route, w: World, q: Req)
    ensures Leads([Gate(PortalSets(r), Portal(r.portalDial), [Response(Some(2), [])])], w, q,
                  PortalGates(r, w, q) ==> Confirmed(w, Portal(r.portalDial), q), q, PortalVerdict(r, w, q))
  {
    PortalSetsApply(r, w, q);
    GateRuns(PortalSets(r), Portal(r.portalDial), [Response(Some(2), [])], w, q);
    assert [Response(Some(2), [])][1..] == [];
  }

  lemma PortalLeads(r: Route, w: World, q: Req)
    requires !Refused(r)
    ensures Leads(PortalStage(r), w, q, PortalAdmits(r, w, q), q, PortalAnswer(r, w, q))
  {
    NothingLeads(w, q, PortalAnswer(r, w, q));
    if r.portalProtect {
      PassthroughLeads(PORTAL, Portal(r.portalDial), w, q);
      PortalGateLeads(r, w, q);
      LeadsInTurn([Passthrough(PORTAL, Portal(r.portalDial))],
                  [Gate(PortalSets(r), Portal(r.portalDial), [Response(Some(2), [])])], w, q,
                  !w.pathIs(q.path, PORTAL), q, Proxied(Portal(r.portalDial)),
                  PortalGates(r, w, q) ==> Confirmed(w, Portal(r.portalDial), q), q, PortalVerdict(r, w, q));
    }
  }

  // ---------------------------------------------------------------- the gates together

  lemma PerimeterLeads(r: Route, w: World, q: Req)
    ensures var q0 := Arrived(r, w, q);
            Leads(Perimeter(r), w, q, PerimeterAdmits(r, w, q0), q0, PerimeterAnswer(r, w, q0))
  {
    var stripped, q0 := q.(subject := None), Arrived(r, w, q);
    StripLeads(w, q);
    RevokedLeads(r, w, stripped);
    var hs := [StripSubject] + RevokedStage(r);
    LeadsInTurn([StripSubject], RevokedStage(r), w, q, true, stripped, EMPTY,
                CertAdmits(r, w), stripped, Answered(403));
    PanelLeads(r, w, q);
    LeadsInTurn(hs, PanelStage(r), w, q, CertAdmits(r, w), stripped, Answered(403), true, q0, EMPTY);
    PerimeterAfterPanel(r, w, q, hs + PanelStage(r));
  }

  lemma PerimeterAfterPanel(r: Route, w: World, q: Req, hs: seq<Handler>)
    requires Leads(hs, w, q, CertAdmits(r, w), Arrived(r, w, q), Answered(403))
    ensures var q0 := Arrived(r, w, q);
            Leads(hs + CidrStage(r) + GeoStage(r) + WafStage(r) + BearerStage(r) + EarlyStage(r) + RateStage(r), w, q,
                  PerimeterAdmits(r, w, q0), q0, PerimeterAnswer(r, w, q0))
  {
    var q0 := Arrived(r, w, q);
    var ok1, f1 := CertAdmits(r, w), Answered(403);
    CidrLeads(r, w, q0);
    Pass(hs, CidrStage(r), w, q, q0, ok1, f1, CidrAdmits(r, w), Answered(GeoStatus(r)));
    var hs2, ok2, f2 := hs + CidrStage(r), ok1 && CidrAdmits(r, w), if ok1 then Answered(GeoStatus(r)) else f1;
    GeoLeads(r, w, q0);
    Pass(hs2, GeoStage(r), w, q, q0, ok2, f2, GeoAdmits(r, w), Answered(GeoStatus(r)));
    var hs3, ok3, f3 := hs2 + GeoStage(r), ok2 && GeoAdmits(r, w), if ok2 then Answered(GeoStatus(r)) else f2;
    WafLeads(r, w, q0);
    Pass(hs3, WafStage(r), w, q, q0, ok3, f3, WafAdmits(r, w, q0), Answered(403));
    var hs4, ok4, f4 := hs3 + WafStage(r), ok3 && WafAdmits(r, w, q0), if ok3 then Answered(403) else f3;
    BearerLeads(r, w, q0);
    Pass(hs4, BearerStage(r), w, q, q0, ok4, f4, BearerAdmits(r, w, q0), Answered(403));
    var hs5, ok5, f5 := hs4 + BearerStage(r), ok4 && BearerAdmits(r, w, q0), if ok4 then Answered(403) else f4;
    EarlyLeads(r, w, q0);
    Pass(hs5, EarlyStage(r), w, q, q0, ok5, f5, NoEarlyRule(r, w, q0), EarlyAnswer(r, w, q0));
    var hs6, ok6, f6 := hs5 + EarlyStage(r), ok5 && NoEarlyRule(r, w, q0), if ok5 then EarlyAnswer(r, w, q0) else f5;
    RateLeads(r, w, q0);
    Pass(hs6, RateStage(r), w, q, q0, ok6, f6, RateAdmits(r, w, q0), Answered(429));
  }

  /** LeadsInTurn for a stage that leaves the request as it is. */
  lemma Pass(
    a: seq<Handler>, b: seq<Handler>, w: World, q: Req, q0: Req, ok1: bool, f1: Flow, ok2: bool, f2: Flow)
    requires Leads(a, w, q, ok1, q0, f1) && Leads(b, w, q0, ok2, q0, f2) && !f1.Next?
    ensures Leads(a + b, w, q, ok1 && ok2, q0, if ok1 then f2 else f1)
  {
    LeadsInTurn(a, b, w, q, ok1, q0, f1, ok2, q0, f2);
  }

  /** What the request comes to that does not get past the cache. */
  function ShapedAnswer(r: Route, w: World, q: Req): Flow {
    if PerimeterAdmits(r, w, q) then FromCache else PerimeterAnswer(r, w, q)
  }

  lemma ShapedLeads(r: Route, w: World, q: Req)
    ensures var q0 := Arrived(r, w, q);
            Leads(Shaped(r), w, q, PerimeterAdmits(r, w, q0) && !CacheAnswers(r, w, q0), AfterCustom(r, w, q0),
                  ShapedAnswer(r, w, q0))
  {
    var q0 := Arrived(r, w, q);
    var ok, missed, f := PerimeterAdmits(r, w, q0), !CacheAnswers(r, w, q0), ShapedAnswer(r, w, q0);
    PerimeterLeads(r, w, q);
    CacheLeads(r, w, q0);
    LeadsInTurn(Perimeter(r), CacheStage(r), w, q, ok, q0, PerimeterAnswer(r, w, q0), missed, q0, FromCache);
    EncodeLeads(r, w, q0);
    var hs := Perimeter(r) + CacheStage(r);
    LeadsInTurn(hs, EncodeStage(r), w, q, ok && missed, q0, f, true, q0, EMPTY);
    CustomLeads(r, w, q0);
    LeadsInTurn(hs + EncodeStage(r), CustomStage(r), w, q, ok && missed, q0, f, true, AfterCustom(r, w, q0), EMPTY);
  }

  /** The request as the backend sees it, before location rules. */
  function Final(r: Route, w: World, q: Req): Req {
    AfterSso(r, w, AfterRbac(r, w, AfterCustom(r, w, Arrived(r, w, q))))
  }

  lemma IdentityLeads(r: Route, w: World, q: Req, hs: seq<Handler>, qc: Req, ok: bool, f: Flow)
    requires !Refused(r) && Leads(hs, w, q, ok, qc, f) && !f.Next?
    ensures Leads(hs + WebSocketStage(r) + RbacStage(r) + SsoStage(r) + PortalStage(r) + BasicStage(r), w, q,
                  ok && IdentityAdmits(r, w, qc), AfterSso(r, w, AfterRbac(r, w, qc)),
                  if ok then IdentityAnswer(r, w, qc) else f)
  {
    var q1 := AfterRbac(r, w, qc);
    var q2 := AfterSso(r, w, q1);
    WebSocketLeads(r, w, qc);
    LeadsInTurn(hs, WebSocketStage(r), w, q, ok, qc, f, NoUpgrade(r, qc), qc, Answered(426));
    var hs1, ok1, f1 := hs + WebSocketStage(r), ok && NoUpgrade(r, qc), if ok then Answered(426) else f;
    RbacLeads(r, w, qc);
    LeadsInTurn(hs1, RbacStage(r), w, q, ok1, qc, f1, RbacAdmits(r, w, q1), q1, RbacAnswer(r, w, q1));
    var hs2, ok2, f2 := hs1 + RbacStage(r), ok1 && RbacAdmits(r, w, q1), if ok1 then RbacAnswer(r, w, q1) else f1;
    SsoLeads(r, w, q1);
    LeadsInTurn(hs2, SsoStage(r), w, q, ok2, q1, f2, SsoAdmits(r, w, q1), q2, SsoAnswer(r, w, q1));
    var hs3, ok3, f3 := hs2 + SsoStage(r), ok2 && SsoAdmits(r, w, q1), if ok2 then SsoAnswer(r, w, q1) else f2;
    PortalLeads(r, w, q2);
    LeadsInTurn(hs3, PortalStage(r), w, q, ok3, q2, f3, PortalAdmits(r, w, q2), q2, PortalAnswer(r, w, q2));
    var ok4, f4 := ok3 && PortalAdmits(r, w, q2), if ok3 then PortalAnswer(r, w, q2) else f3;
    BasicLeads(r, w, q2);
    LeadsInTurn(hs3 + PortalStage(r), BasicStage(r), w, q, ok4, q2, f4, BasicAdmits(r, w, q2), q2, Answered(401));
  }

  predicate GatesAdmit(r: Route, w: World, q: Req) {
    var q0 := Arrived(r, w, q);
    PerimeterAdmits(r, w, q0) && !CacheAnswers(r, w, q0) && IdentityAdmits(r, w, AfterCustom(r, w, q0))
  }

  /** What a request comes to that the gates do not admit. */
  function GatesAnswer(r: Route, w: World, q: Req): (f: Flow)
    ensures !f.Next? && !ReachesTenant(f)
  {
    var q0 := Arrived(r, w, q);
    if PerimeterAdmits(r, w, q0) && !CacheAnswers(r, w, q0) then IdentityAnswer(r, w, AfterCustom(r, w, q0))
    else ShapedAnswer(r, w, q0)
  }

  lemma GatesLead(r: Route, w: World, q: Req)
    requires !Refused(r)
    ensures Leads(Gates(r), w, q, GatesAdmit(r, w, q), Final(r, w, q), GatesAnswer(r, w, q))
  {
    var q0 := Arrived(r, w, q);
    ShapedLeads(r, w, q);
    IdentityLeads(r, w, q, Shaped(r), AfterCustom(r, w, q0), PerimeterAdmits(r, w, q0) && !CacheAnswers(r, w, q0),
                  ShapedAnswer(r, w, q0));
  }

  // ---------------------------------------------------------------- access list and HTTPS

  lemma DenyRoute(sets: seq<MatchSet>, w: World, q: Req)
    ensures RunRoutes([HRoute(sets, [Respond(403)], true)], w, q)
            == if Applies(sets, w, q) then Answered(403) else Next(q)
  {
    OneRoute(HRoute(sets, [Respond(403)], true), w, q);
    RunsOne(Respond(403), w, q);
  }

  lemma AclRuns(r: Route, w: World, q: Req)
    ensures RunRoutes(AclRoutes(r), w, q) == if IpAdmits(r, w) then Next(q) else Answered(403)
  {
    var deny := if r.deny == [] then [] else [HRoute([All([RemoteIp(r.deny)])], [Respond(403)], true)];
    var block := AclRoutes(r)[|deny|..];
    assert AclRoutes(r) == deny + block;
    RoutesInTurn(deny, block, w, q);
    DenyRoute([All([RemoteIp(r.deny)])], w, q);
    MatchesOne(RemoteIp(r.deny), w, q);
    DenyRoute([], w, q);
    DenyRoute([All([Not([All([RemoteIp(r.allow)])])])], w, q);
    MatchesOne(Not([All([RemoteIp(r.allow)])]), w, q);
    MatchesOne(RemoteIp(r.allow), w, q);
  }

  /** The access list lets the inner chain run, and end, only for admitted addresses. */
  lemma WithAclRuns(r: Route, inner: seq<Handler>, w: World, q: Req)
    requires !RunAll(inner, w, q).Next?
    ensures RunAll(WithAcl(r, inner), w, q) == if IpAdmits(r, w) then RunAll(inner, w, q) else Answered(403)
  {
    if r.blockAll || r.allow != [] || r.deny != [] {
      var last := HRoute([], inner, true);
      AclRuns(r, w, q);
      RoutesInTurn(AclRoutes(r), [last], w, q);
      OneRoute(last, w, q);
      RunsOne(Subroute(AclRoutes(r) + [last]), w, q);
    }
  }

  /** Cleartext requests for the route's hosts are redirected. */
  lemma WithHttpsRuns(r: Route, inner: seq<Handler>, w: World, q: Req)
    requires !RunAll(inner, w, q).Next? && w.hostIs(q.host, r.hosts)
    ensures RunAll(WithHttps(r, inner), w, q)
            == if ForcesHttps(r) && w.cleartext then Answered(308) else RunAll(inner, w, q)
  {
    if ForcesHttps(r) {
      var upgrade := HRoute([All([Cleartext, Host(r.hosts)])], [Respond(308)], false);
      var last := HRoute([], inner, true);
      TwoRoutes(upgrade, last, w, q);
      OneRoute(upgrade, w, q);
      OneSet([Cleartext, Host(r.hosts)], w, q);
      MatchesTwo(Cleartext, Host(r.hosts), w, q);
      RunsOne(Respond(308), w, q);
      OneRoute(last, w, q);
    }
  }

  // ---------------------------------------------------------------- main results

  /** The request is for this route. */
  predicate IsFor(r: Route, w: World, q: Req) {
    Applies(Compile(r).sets, w, q)
  }

  lemma ForItsHost(r: Route, w: World, q: Req)
    requires IsFor(r, w, q)
    ensures w.hostIs(q.host, r.hosts)
  {
    OneSet(Match(r).matchers, w, q);
    assert Match(r).matchers[0] == Host(r.hosts);
  }

  lemma ChainRuns(r: Route, w: World, q: Req)
    requires !Refused(r)
    ensures var f := RunAll(Gates(r) + BackendStage(r), w, q);
            f == if !GatesAdmit(r, w, q) then GatesAnswer(r, w, q)
                 else if r.redirect then RedirectAnswer(r)
                 else Proxied(TargetFor(r, w, Final(r, w, q)))
  {
    GatesLead(r, w, q);
    RunsInTurn(Gates(r), BackendStage(r), w, q);
    if r.redirect {
      RedirectRuns(r, w, Final(r, w, q));
    } else {
      BackendRuns(r, w, Final(r, w, q));
    }
  }

  lemma HandlersRun(r: Route, w: World, q: Req)
    ensures !Refused(r) && !r.maintenance && IsFor(r, w, q) ==>
              RunAll(Handlers(r), w, q)
              == if ForcesHttps(r) && w.cleartext then Answered(308)
                 else if !IpAdmits(r, w) then Answered(403)
                 else RunAll(Gates(r) + BackendStage(r), w, q)
  {
    if !Refused(r) && !r.maintenance && IsFor(r, w, q) {
      ForItsHost(r, w, q);
      ChainRuns(r, w, q);
      var chain := Gates(r) + BackendStage(r);
      WithAclRuns(r, chain, w, q);
      WithHttpsRuns(r, WithAcl(r, chain), w, q);
    }
  }

  /** A quarantined or misconfigured route answers 503 to everything and dials nothing. */
  lemma RefusedDialsNothing(r: Route, w: World, q: Req)
    requires Refused(r)
    ensures Handlers(r) == [Respond(503)] && RunAll(Handlers(r), w, q) == Answered(503)
  {
    RunsOne(Respond(503), w, q);
  }

  /** A redirect route never reaches the backend. */
  lemma RedirectNeverReaches(r: Route, w: World, q: Req)
    requires r.redirect && !r.maintenance && IsFor(r, w, q)
    ensures !ReachesTenant(RunAll(Handlers(r), w, q))
  {
    if Refused(r) {
      RefusedDialsNothing(r, w, q);
    } else {
      HandlersRun(r, w, q);
      ChainRuns(r, w, q);
    }
  }

  /** For every route and every request for it, outside maintenance: the compiled tree dials the
      tenant's backend exactly when the route serves and the emitted gates admit the request, and
      then it dials the target the location rules name. */
  lemma ReachesBackendAsEmitted(r: Route, w: World, q: Req)
    ensures IsFor(r, w, q) && !r.maintenance ==>
              var f := RunAll(Handlers(r), w, q);
              && (ReachesTenant(f) <==> !Refused(r) && !r.redirect && Admits(r, w, q))
              && (ReachesTenant(f) ==> f == Proxied(TargetFor(r, w, Final(r, w, q))))
  {
    if IsFor(r, w, q) && !r.maintenance {
      if Refused(r) {
        RefusedDialsNothing(r, w, q);
      } else if r.redirect {
        RedirectNeverReaches(r, w, q);
      } else {
        HandlersRun(r, w, q);
        ChainRuns(r, w, q);
      }
    }
  }

  lemma MaintenanceEnds(r: Route, w: World, q: Req)
    ensures RunAll(MaintenanceHandlers(r), w, q)
            == if r.maintenanceAllow != [] && w.inRanges(r.maintenanceAllow) then Proxied(Static([r.upstream]))
               else Answered(503)
  {
    RunsOne(Respond(503), w, q);
    if r.maintenanceAllow != [] {
      var backend := Forward(Static([r.upstream]));
      var allowed := HRoute([All([RemoteIp(r.maintenanceAllow)])], [backend], true);
      var page := HRoute([], [Respond(503)], true);
      TwoRoutes(allowed, page, w, q);
      OneRoute(allowed, w, q);
      MatchesOne(RemoteIp(r.maintenanceAllow), w, q);
      RunsOne(backend, w, q);
      OneRoute(page, w, q);
    }
  }

  /** Under maintenance only listed addresses reach the backend, never in cleartext when HTTPS is
      forced. */
  lemma MaintenanceReachesExactly(r: Route, w: World, q: Req)
    requires !Refused(r) && r.maintenance && IsFor(r, w, q)
    ensures ReachesTenant(RunAll(Handlers(r), w, q)) <==>
            && (ForcesHttps(r) ==> !w.cleartext)
            && r.maintenanceAllow != [] && w.inRanges(r.maintenanceAllow)
  {
    ForItsHost(r, w, q);
    MaintenanceEnds(r, w, q);
    WithHttpsRuns(r, MaintenanceHandlers(r), w, q);
  }

  /** When the shared node cache answers. */
  lemma FromCacheExactly(r: Route, w: World, q: Req)
    requires !r.maintenance && IsFor(r, w, q)
    ensures RunAll(Handlers(r), w, q) == FromCache <==>
            && !Refused(r) && (ForcesHttps(r) ==> !w.cleartext) && IpAdmits(r, w)
            && PerimeterAdmits(r, w, Arrived(r, w, q)) && CacheAnswers(r, w, Arrived(r, w, q))
  {
    if Refused(r) {
      RefusedDialsNothing(r, w, q);
    } else {
      HandlersRun(r, w, q);
      ChainRuns(r, w, q);
    }
  }

  /** The shared node cache answers only for a public route without any identity gate, a request
      without credentials, and a caller the connection checks admit. */
  lemma CacheAnswersOnlyPublic(r: Route, w: World, q: Req, q': Req)
    requires !r.maintenance && IsFor(r, w, q) && RunAll(Handlers(r), w, q) == FromCache
    ensures r.cachePublic && q.cookie == None && q.authorization == None
    ensures (ForcesHttps(r) ==> !w.cleartext) && IpAdmits(r, w) && PerimeterAdmits(r, w, Arrived(r, w, q))
    ensures RbacAdmits(r, w, q') && SsoAdmits(r, w, q') && PortalAdmits(r, w, q') && BasicAdmits(r, w, q')
  {
    FromCacheExactly(r, w, q);
  }

  /** A request is for a route by its host and path alone. */
  lemma IsForMeans(r: Route, w: World, q: Req)
    ensures IsFor(r, w, q) <==>
            w.hostIs(q.host, r.hosts) && (PathPatterns(r) != [] ==> w.pathIs(q.path, PathPatterns(r)))
  {
    var host, path := [Host(r.hosts)], if PathPatterns(r) == [] then [] else [Path(PathPatterns(r))];
    OneSet(host + path, w, q);
    AllMatchSplits(host, path, w, q);
    MatchesOne(Host(r.hosts), w, q);
    MatchesOne(Path(PathPatterns(r)), w, q);
  }

  /** A client cannot claim a certificate subject: whatever it sends, the route does the same. */
  lemma ClaimedSubjectHasNoEffect(r: Route, w: World, q: Req, claimed: Option<string>)
    requires IsFor(r, w, q)
    ensures RunAll(Handlers(r), w, q.(subject := claimed)) == RunAll(Handlers(r), w, q)
  {
    var p := q.(subject := claimed);
    IsForMeans(r, w, q);
    IsForMeans(r, w, p);
    if Refused(r) {
      RefusedDialsNothing(r, w, q);
      RefusedDialsNothing(r, w, p);
    } else if r.maintenance {
      ForItsHost(r, w, q);
      MaintenanceEnds(r, w, q);
      MaintenanceEnds(r, w, p);
      WithHttpsRuns(r, MaintenanceHandlers(r), w, q);
      WithHttpsRuns(r, MaintenanceHandlers(r), w, p);
    } else {
      HandlersRun(r, w, q);
      HandlersRun(r, w, p);
      StripComesFirst(r, w, q);
      StripComesFirst(r, w, p);
    }
  }

  lemma StripComesFirst(r: Route, w: World, q: Req)
    ensures var chain := Gates(r) + BackendStage(r);
            chain != [] && RunAll(chain, w, q) == RunAll(chain[1..], w, q.(subject := None))
  {
    assert Perimeter(r)[0] == StripSubject;
    assert Shaped(r)[0] == StripSubject;
    assert Gates(r)[0] == StripSubject;
    assert (Gates(r) + BackendStage(r))[0] == StripSubject;
  }

  // ---------------------------------------------------------------- the program

  /** buildEarlyLocationSubroute: the rules that answer, in order. */
  method BuildEarlyRoutes(rules: seq<LocationRule>) returns (routes: seq<HRoute>)
    ensures routes == EarlyRoutes(rules)
  {
    routes := [];
    for i := 0 to |rules|
      invariant routes == EarlyRoutes(rules[..i])
    {
      assert rules[..i + 1][..i] == rules[..i];
      if (rules[i].action == Block || rules[i].action == Redirect) && RuleEmitted(rules[i]) {
        routes := routes + [EarlyRoute(rules[i])];
      } else {
        assert routes + [] == routes;
      }
    }
    assert rules[..|rules|] == rules;
  }

  /** buildLocationSubroute: the rules that proxy or rewrite, then the fallback. */
  method BuildLocationSubroute(rules: seq<LocationRule>, primary: Handler, fallbackPre: seq<Handler>)
    returns (h: Handler)
    ensures var late := LateRoutes(rules, primary);
            h == if late == [] && fallbackPre == [] then primary
                 else Subroute(late + [HRoute([], fallbackPre + [primary], true)])
  {
    var routes := [];
    for i := 0 to |rules|
      invariant routes == LateRoutes(rules[..i], primary)
    {
      assert rules[..i + 1][..i] == rules[..i];
      if (rules[i].action == Proxy || rules[i].action == Rewrite) && RuleEmitted(rules[i]) {
        routes := routes + [LateRoute(rules[i], primary)];
      } else {
        assert routes + [] == routes;
      }
    }
    assert rules[..|rules|] == rules;
    if routes == [] && fallbackPre == [] {
      return primary;
    }
    h := Subroute(routes + [HRoute([], fallbackPre + [primary], true)]);
  }

  /** The access list in front of a chain. */
  method WrapAcl(r: Route, inner: seq<Handler>) returns (handlers: seq<Handler>)
    ensures handlers == WithAcl(r, inner)
  {
    if !r.blockAll && r.allow == [] && r.deny == [] {
      return inner;
    }
    var deny := [];
    if r.deny != [] {
      deny := [HRoute([All([RemoteIp(r.deny)])], [Respond(403)], true)];
    }
    var block := [];
    if r.blockAll {
      if r.allow != [] {
        block := [HRoute([All([Not([All([RemoteIp(r.allow)])])])], [Respond(403)], true)];
      } else {
        block := [HRoute([], [Respond(403)], true)];
      }
    }
    handlers := [Subroute(deny + block + [HRoute([], inner, true)])];
  }

  /** BuildRoute */
  method BuildRoute(r: Route) returns (route: HRoute)
    ensures route == Compile(r)
  {
    var sets := [Match(r)];
    if r.custom.Rejected? || TemplateQuarantine(r) || Misconfigured(r) {
      return HRoute(sets, [Respond(503)], true);
    }
    var handlers: seq<Handler>;
    if r.maintenance {
      handlers := WithHttps(r, MaintenanceHandlers(r));
      return HRoute(sets, handlers, true);
    }
    handlers := [StripSubject];
    handlers := handlers + RevokedStage(r);
    handlers := handlers + PanelStage(r);
    handlers := handlers + CidrStage(r);
    handlers := handlers + GeoStage(r);
    handlers := handlers + WafStage(r);
    handlers := handlers + BearerStage(r);
    var early := BuildEarlyRoutes(r.locations);
    handlers := handlers + (if r.redirect || early == [] then [] else [Subroute(early)]);
    handlers := handlers + RateStage(r);
    handlers := handlers + CacheStage(r);
    handlers := handlers + EncodeStage(r);
    handlers := handlers + CustomStage(r);
    handlers := handlers + WebSocketStage(r);
    handlers := handlers + RbacStage(r);
    handlers := handlers + SsoStage(r);
    handlers := handlers + PortalStage(r);
    handlers := handlers + BasicStage(r);
    assert handlers == Gates(r);
    if r.locations != [] && !r.redirect {
      var primary := BuildLocationSubroute(r.locations, Primary(r), Rewrites(r));
      handlers := handlers + [primary];
    } else {
      handlers := handlers + (Rewrites(r) + [Primary(r)]);
    }
    handlers := WrapAcl(r, handlers);
    handlers := WithHttps(r, handlers);
    route := HRoute(sets, handlers, true);
  }
}
