/**
  The route record that the panel compiles (the Route struct of internal/caddyapi/route.go),
  with the fields the modelled builders read. Free-form lists (CIDR lists, country lists, custom
  handler chains) are given as already split or parsed.
 */
module RouteModel {
  datatype Dial = Dial(host: string, port: int)

  datatype Account = Account(username: string, hash: string)

  datatype GeoMode = GeoOff | GeoAllow | GeoDeny

  /** The stored custom handler chain: none, rejected by the sanitiser, or allow-listed handlers,
      which can reshape a request but not answer it. nested says one has a key named like an
      embedded route list. */
  datatype Custom = NoCustom | Rejected | Shaping(handlers: seq<string>, nested: bool)

  datatype Action = Proxy | Rewrite | Block | Redirect | Unknown

  datatype LocationRule = LocationRule(
    paths: seq<string>, action: Action, upstream: Dial, redirectUrl: string, rewriteUri: string, code: int)

  datatype Route = Route(
    hosts: seq<string>, wildcardZone: string, pathPrefix: string,
    // upstream
    upstream: Dial, upstreamIsAddress: bool, backendResolver: string, dnsResolver: string, pool: seq<Dial>,
    external: bool, proxySecret: string, stripPathPrefix: bool, upstreamPathPrefix: string,
    // behaviour
    webSocket: bool, forceHttps: bool, redirect: bool, redirectCode: int,
    maintenance: bool, maintenanceAllow: seq<string>, panelSelf: bool,
    cacheEnabled: bool, cachePublic: bool, cacheModule: bool, compressDisabled: bool,
    rateLimit: bool, rateModule: bool,
    // access
    allow: seq<string>, deny: seq<string>, blockAll: bool,
    basicUser: string, basicHash: string, basicUsers: seq<Account>,
    ssoUrl: string, ssoStrict: bool, ssoPaths: seq<string>, ssoHosts: seq<string>, ssoCopies: bool,
    portalProtect: bool, portalDial: string, portalPublicPaths: seq<string>, portalDenyOnMisconfig: bool,
    requireClientCert: bool, caPem: string, mtlsDenyOnMisconfig: bool, revokedFingerprints: seq<string>,
    mtlsPathRules: nat, panelUrl: string, tlsPqOnly: bool,
    geoMode: GeoMode, geoCountries: seq<string>, geoModule: bool, geoFailClosed: bool,
    geoAllow: seq<string>, blockCidrs: seq<string>, geoStatus: int,
    waf: bool, wafBlocking: bool, wafModule: bool, wafFailOpen: bool,
    custom: Custom, locations: seq<LocationRule>,
    // every stored string that the node's replacer would expand
    templates: seq<string>, rateKeySafe: bool)

  /** The chain cannot be taken for pure reshaping. */
  predicate CustomGates(c: Custom) {
    c.Rejected? || (c.Shaping? && c.nested)
  }

  /** Some gate of the route depends on who is calling. */
  predicate RouteAuthGated(r: Route) {
    || r.ssoUrl != ""
    || r.basicUser != "" || r.basicUsers != []
    || r.mtlsPathRules > 0
    || r.portalProtect
    || r.requireClientCert
    || (r.external && r.proxySecret != "")
    || r.mtlsDenyOnMisconfig || r.portalDenyOnMisconfig
    || CustomGates(r.custom)
  }

  function TrimSlash(s: string): string {
    if s != "" && s[|s| - 1] == '/' then s[..|s| - 1] else s
  }

  /** A stripped prefix ends on a segment boundary. */
  predicate MatchesSegment(r: Route) {
    r.external && r.stripPathPrefix && TrimSlash(r.pathPrefix) != ""
  }

  /** The path patterns of the route's matcher; none stands for every path. */
  function PathPatterns(r: Route): seq<string> {
    if r.pathPrefix == "" then []
    else if MatchesSegment(r) then [TrimSlash(r.pathPrefix), TrimSlash(r.pathPrefix) + "/*"]
    else [r.pathPrefix + "*"]
  }
}
