/**
  The part of Caddy's configuration that a compiled route uses, and what it does with a request:
  matchers, handlers, subroutes with terminal routes, and reverse proxies that call a verifier and
  handle its response.
 */
module HandlerTree {
  import opened Wrappers
  import opened RouteModel

  /** The parts of a request that handlers read or reshape. */
  datatype Req = Req(
    verb: string, host: string, path: string, authorization: Option<string>, cookie: Option<string>,
    connection: Option<string>, subject: Option<string>, realIp: Option<string>, body: string)

  /** Where a reverse proxy dials: a route's backend, a verifier, or the node's tunnel. */
  datatype Target =
    | Static(dials: seq<Dial>) | Resolved(name: Dial, resolver: string)
    | Sso(url: string) | Portal(dial: string) | Rbac(panelUrl: string) | Tunnel(port: int)

  predicate IsTenant(t: Target) {
    t.Static? || t.Resolved?
  }

  /** What handlers do to a request: a custom handler, the headers of a sign-on response copied, a path
      prefix stripped or added, a rewritten URI. */
  datatype Change = ByHandler(name: string) | CopySso | StripPrefix | AddPrefix | RewriteTo(uri: string)

  /** Everything outside the tree: the connection, Caddy's matchers and modules, the verifiers. */
  datatype World = World(
    cleartext: bool,
    inRanges: seq<string> -> bool,
    fingerprintIn: seq<string> -> bool,
    certSubject: string,
    clientIp: string,
    permits: (GeoMode, seq<string>) -> bool,
    hostIs: (string, seq<string>) -> bool,
    pathIs: (string, seq<string>) -> bool,
    expanded: string -> string,
    reshape: (Change, Req) -> Req,
    wafPasses: Req -> bool,
    underLimit: Req -> bool,
    cached: Req -> bool,
    authenticates: (seq<Account>, Req) -> bool,
    verify: (Target, Req) -> Option<nat>)

  datatype Field = Authorization | Cookie | Connection

  datatype Matcher =
    | RemoteIp(ranges: seq<string>) | Fingerprint(list: seq<string>) | Country(mode: GeoMode, countries: seq<string>)
    | Header(field: Field, pattern: string) | Method(methods: seq<string>) | Path(paths: seq<string>)
    | Host(hosts: seq<string>) | Cleartext | Not(sets: seq<MatchSet>)

  datatype MatchSet = All(matchers: seq<Matcher>)

  /** Some matcher set must match, in all its members; without sets the route takes any request. */
  datatype HRoute = HRoute(sets: seq<MatchSet>, handle: seq<Handler>, terminal: bool)

  /** What to do with a verifier's response in a status class (None: any). */
  datatype Response = Response(range: Option<nat>, routes: seq<HRoute>)

  /** What a handler adds to the response: cache scopes, cookie removal, compression. */
  datatype Directive = PrivateNoStore | PrivateScope | PublicScope | DropSetCookie | Encoded

  datatype Handler =
    | Respond(status: int)
    | StripSubject | StampSubject | StampRealIp
    | Reshape(change: Change)
    | ResponseHeader(value: Directive)
    | Subroute(routes: seq<HRoute>)
    | Waf(blocking: bool) | RateLimit | Cache
    | BasicAuth(accounts: seq<Account>)
    | Forward(target: Target)
    | Verify(target: Target, responses: seq<Response>)

  // ---------------------------------------------------------------- matching

  predicate Contains(s: string, part: string) {
    part <= s || (s != "" && Contains(s[1..], part))
  }

  /** Caddy's header patterns: "*", "*x*", "*x", "x*" and exact. */
  predicate PatternMatches(p: string, v: string) {
    if p == "*" then true
    else if |p| >= 2 && p[0] == '*' && p[|p| - 1] == '*' then Contains(v, p[1..|p| - 1])
    else if p != "" && p[0] == '*' then |v| >= |p| - 1 && v[|v| - (|p| - 1)..] == p[1..]
    else if p != "" && p[|p| - 1] == '*' then p[..|p| - 1] <= v
    else p == v
  }

  /** Matcher values go through the replacer, which changes nothing without an opening brace. */
  function Expanded(w: World, p: string): string {
    if '{' in p then w.expanded(p) else p
  }

  function FieldOf(f: Field, q: Req): Option<string> {
    match f
    case Authorization => q.authorization
    case Cookie => q.cookie
    case Connection => q.connection
  }

  predicate Matches(m: Matcher, w: World, q: Req)
    decreases m, 0
  {
    match m
    case RemoteIp(ranges) => w.inRanges(ranges)
    case Fingerprint(list) => w.fingerprintIn(list)
    case Country(mode, countries) => w.permits(mode, countries)
    case Header(f, p) => FieldOf(f, q).Some? && PatternMatches(Expanded(w, p), FieldOf(f, q).value)
    case Method(ms) => q.verb in ms
    case Path(ps) => w.pathIs(q.path, ps)
    case Host(hs) => w.hostIs(q.host, hs)
    case Cleartext => w.cleartext
    case Not(sets) => !SomeMatch(sets, w, q)
  }

  predicate AllMatch(ms: seq<Matcher>, w: World, q: Req)
    decreases ms, 1
  {
    ms == [] || (Matches(ms[0], w, q) && AllMatch(ms[1..], w, q))
  }

  predicate SomeMatch(sets: seq<MatchSet>, w: World, q: Req)
    decreases sets, 2
  {
    sets != [] && (AllMatch(sets[0].matchers, w, q) || SomeMatch(sets[1..], w, q))
  }

  predicate Applies(sets: seq<MatchSet>, w: World, q: Req) {
    sets == [] || SomeMatch(sets, w, q)
  }

  // ---------------------------------------------------------------- running

  /** What running handlers comes to: the request goes on, possibly reshaped, or it is answered. */
  datatype Flow = Next(q: Req) | Answered(status: int) | FromCache | Proxied(target: Target)

  /** A terminal route that does not answer ends the request with an empty response. */
  const EMPTY := Answered(200)

  function Run(h: Handler, w: World, q: Req): Flow
    decreases h, 0
  {
    match h
    case Respond(status) => Answered(status)
    case StripSubject => Next(q.(subject := None))
    case StampSubject => Next(q.(subject := Some(w.certSubject)))
    case StampRealIp => Next(q.(realIp := Some(w.clientIp)))
    case Reshape(change) => Next(w.reshape(change, q))
    case ResponseHeader(_) => Next(q)
    case Subroute(routes) => RunRoutes(routes, w, q)
    case Waf(blocking) => if blocking && !w.wafPasses(q) then Answered(403) else Next(q)
    case RateLimit => if w.underLimit(q) then Next(q) else Answered(429)
    case Cache => if w.cached(q) then FromCache else Next(q)
    case BasicAuth(accounts) => if w.authenticates(accounts, q) then Next(q) else Answered(401)
    case Forward(t) => Proxied(t)
    case Verify(t, responses) =>
      match w.verify(t, q)
      case None => Answered(502)
      case Some(status) => Handle(responses, t, status, w, q)
  }

  function RunAll(hs: seq<Handler>, w: World, q: Req): Flow
    decreases hs, 1
  {
    if hs == [] then Next(q)
    else
      var f := Run(hs[0], w, q);
      if f.Next? then RunAll(hs[1..], w, f.q) else f
  }

  function RunRoutes(routes: seq<HRoute>, w: World, q: Req): Flow
    decreases routes, 2
  {
    if routes == [] then Next(q)
    else if !Applies(routes[0].sets, w, q) then RunRoutes(routes[1..], w, q)
    else
      var f := RunAll(routes[0].handle, w, q);
      if !f.Next? then f
      else if routes[0].terminal then EMPTY
      else RunRoutes(routes[1..], w, f.q)
  }

  /** The first entry for the verifier's status runs its routes and lets the request go on; without
      one the verifier's own response is the answer. */
  function Handle(responses: seq<Response>, t: Target, status: nat, w: World, q: Req): Flow
    decreases responses, 3
  {
    if responses == [] then Proxied(t)
    else if responses[0].range == None || responses[0].range == Some(status / 100) then
      RunRoutes(responses[0].routes, w, q)
    else Handle(responses[1..], t, status, w, q)
  }

  // ---------------------------------------------------------------- composition

  /** What runs after a flow. */
  function Then(f: Flow, hs: seq<Handler>, w: World): Flow {
    if f.Next? then RunAll(hs, w, f.q) else f
  }

  lemma {:induction false} RunsInTurn(a: seq<Handler>, b: seq<Handler>, w: World, q: Req)
    ensures RunAll(a + b, w, q) == Then(RunAll(a, w, q), b, w)
    decreases |a|
  {
    if a == [] {
      assert a + b == b;
    } else {
      assert (a + b)[0] == a[0] && (a + b)[1..] == a[1..] + b;
      var f := Run(a[0], w, q);
      if f.Next? {
        RunsInTurn(a[1..], b, w, f.q);
      }
    }
  }

  lemma RunsOne(h: Handler, w: World, q: Req)
    ensures RunAll([h], w, q) == Run(h, w, q)
  {
  }

  lemma MatchesOne(m: Matcher, w: World, q: Req)
    ensures AllMatch([m], w, q) == Matches(m, w, q)
    ensures SomeMatch([All([m])], w, q) == Matches(m, w, q)
    ensures Applies([All([m])], w, q) == Matches(m, w, q)
  {
    assert [m][1..] == [] && [All([m])][1..] == [];
  }

  lemma MatchesTwo(a: Matcher, b: Matcher, w: World, q: Req)
    ensures AllMatch([a, b], w, q) == (Matches(a, w, q) && Matches(b, w, q))
    ensures SomeMatch([All([a]), All([b])], w, q) == (Matches(a, w, q) || Matches(b, w, q))
  {
    assert [a, b][1..] == [b] && [All([a]), All([b])][1..] == [All([b])];
    MatchesOne(a, w, q);
    MatchesOne(b, w, q);
  }

  /** A route that answers with a fixed status under a condition. */
  function Guard(sets: seq<MatchSet>, status: int, terminal: bool): Handler {
    Subroute([HRoute(sets, [Respond(status)], terminal)])
  }

  lemma GuardRuns(sets: seq<MatchSet>, status: int, terminal: bool, w: World, q: Req)
    ensures RunAll([Guard(sets, status, terminal)], w, q)
            == if Applies(sets, w, q) then Answered(status) else Next(q)
  {
    var route := HRoute(sets, [Respond(status)], terminal);
    RunsOne(Guard(sets, status, terminal), w, q);
    RunsOne(Respond(status), w, q);
    assert [route][1..] == [] && RunRoutes([], w, q) == Next(q);
    assert Run(Subroute([route]), w, q) == RunRoutes([route], w, q);
  }

  function Ended(f: Flow): Flow {
    if f.Next? then EMPTY else f
  }

  lemma {:induction false} RoutesInTurn(a: seq<HRoute>, b: seq<HRoute>, w: World, q: Req)
    ensures RunRoutes(a + b, w, q)
            == var f := RunRoutes(a, w, q); if f.Next? then RunRoutes(b, w, f.q) else f
    decreases |a|
  {
    if a == [] {
      assert a + b == b;
    } else {
      assert (a + b)[0] == a[0] && (a + b)[1..] == a[1..] + b;
      if !Applies(a[0].sets, w, q) {
        RoutesInTurn(a[1..], b, w, q);
      } else {
        var f := RunAll(a[0].handle, w, q);
        if f.Next? && !a[0].terminal {
          RoutesInTurn(a[1..], b, w, f.q);
        }
      }
    }
  }

  lemma OneRoute(route: HRoute, w: World, q: Req)
    ensures RunRoutes([route], w, q)
            == if !Applies(route.sets, w, q) then Next(q)
               else if route.terminal then Ended(RunAll(route.handle, w, q))
               else RunAll(route.handle, w, q)
    ensures RunAll([Subroute([route])], w, q) == RunRoutes([route], w, q)
  {
    assert [route][1..] == [] && forall p :: RunRoutes([], w, p) == Next(p);
    RunsOne(Subroute([route]), w, q);
  }

  lemma TwoRoutes(a: HRoute, b: HRoute, w: World, q: Req)
    ensures RunAll([Subroute([a, b])], w, q)
            == var f := RunRoutes([a], w, q); if f.Next? then RunRoutes([b], w, f.q) else f
  {
    assert [a, b] == [a] + [b];
    RoutesInTurn([a], [b], w, q);
    RunsOne(Subroute([a, b]), w, q);
  }

  lemma {:induction false} AllMatchSplits(a: seq<Matcher>, b: seq<Matcher>, w: World, q: Req)
    ensures AllMatch(a + b, w, q) == (AllMatch(a, w, q) && AllMatch(b, w, q))
    decreases |a|
  {
    if a == [] {
      assert a + b == b;
    } else {
      assert (a + b)[0] == a[0] && (a + b)[1..] == a[1..] + b;
      AllMatchSplits(a[1..], b, w, q);
    }
  }

  lemma OneSet(ms: seq<Matcher>, w: World, q: Req)
    ensures Applies([All(ms)], w, q) == AllMatch(ms, w, q)
  {
    assert [All(ms)][1..] == [] && !SomeMatch([], w, q);
  }

  lemma TwoSets(a: seq<Matcher>, b: seq<Matcher>, w: World, q: Req)
    ensures Applies([All(a), All(b)], w, q) == (AllMatch(a, w, q) || AllMatch(b, w, q))
  {
    assert [All(a), All(b)][1..] == [All(b)];
    OneSet(b, w, q);
  }
}
