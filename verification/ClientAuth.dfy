/**
  Client certificates from the handshake to the backend (BuildNodeConfig in
  internal/caddyapi/config.go). Connection policies go by the server name, routes by the Host header;
  with strict SNI a request is served only when the two agree. A route that requires a certificate is
  then reached only over connections that were asked for its own CA, exactly when that CA is also the
  one of the first opted-in matcher over each of its hosts.
 */
module ClientAuth {
  import opened Wrappers
  import opened Strings
  import opened RouteModel
  import opened RouteOrder
  import opened HandlerTree
  import opened RouteCompiler
  import opened ConnPolicies
  import NodeConfig

  // ---------------------------------------------------------------- strict SNI

  /** Some entry asks for a client certificate. */
  predicate AsksForCerts(ps: seq<Policy>) {
    exists i :: 0 <= i < |ps| && ps[i].Policy? && ps[i].options.ca != ""
  }

  /** hasClientAuth, which turns strict SNI on. */
  method HasClientAuth(ps: seq<Policy>) returns (found: bool)
    ensures found <==> AsksForCerts(ps)
  {
    for i := 0 to |ps|
      invariant forall j :: 0 <= j < i ==> !(ps[j].Policy? && ps[j].options.ca != "")
    {
      if ps[i].Policy? && ps[i].options.ca != "" {
        return true;
      }
    }
    return false;
  }

  lemma {:induction false} ListedSomewhere(ps: seq<Policy>, h: string)
    requires Listed(ps, h) > 0
    ensures exists i :: 0 <= i < |ps| && ps[i].Policy? && h in ps[i].sni
    decreases |ps|
  {
    var front, p := ps[..|ps| - 1], ps[|ps| - 1];
    if p.Policy? && h in p.sni {
      assert ps[|ps| - 1] == p;
    } else {
      ListedSomewhere(front, h);
      var i :| 0 <= i < |front| && front[i].Policy? && h in front[i].sni;
      assert ps[i] == front[i];
    }
  }

  /** Strict SNI is on wherever a route with a host has a usable CA. */
  lemma StrictIsOn(routes: seq<Route>, env: Env, mode: Mode, k: nat)
    requires k < |routes| && CaOf(routes[k], env) != "" && routes[k].hosts != []
    ensures AsksForCerts(Emitted(routes, env, mode))
  {
    var h, hs, wanted := routes[k].hosts[0], HostOrder(routes, env), h => Wanted(routes, env, h);
    HostOrderListsOptedIn(routes, env);
    assert OptsIn(routes[k], env) && h in routes[k].hosts;
    FirstCaIsFirst(routes, env, h);
    GroupListsOnce(hs, wanted, mode, h);
    var ps := Group(hs, wanted, mode);
    ListedSomewhere(ps, h);
    GroupKeepsOptions(hs, wanted, mode);
    var i :| 0 <= i < |ps| && ps[i].Policy? && h in ps[i].sni;
    assert EntryWants(ps[i], wanted, mode);
    assert Emitted(routes, env, mode)[i] == ps[i];
  }

  lemma AskedIsRequired(routes: seq<Route>, env: Env, mode: Mode, i: nat)
    requires var ps := Emitted(routes, env, mode); i < |ps| && ps[i].Policy? && ps[i].options.ca != ""
    ensures exists k, h :: 0 <= k < |routes| && Requires(routes[k], env, h)
  {
    var wanted := h => Wanted(routes, env, h);
    var ps := Group(HostOrder(routes, env), wanted, mode);
    assert ps[i] == Emitted(routes, env, mode)[i];
    GroupKeepsOptions(HostOrder(routes, env), wanted, mode);
    var h := ps[i].sni[0];
    assert EntryWants(ps[i], wanted, mode) && h in ps[i].sni;
    WantedByFields(routes, env, h);
    var k :| 0 <= k < |routes| && Requires(routes[k], env, h);
  }

  /** And nowhere else: it is on exactly when some route on some host requires certificates of a CA that can
      be read. */
  lemma StrictExactly(routes: seq<Route>, env: Env, mode: Mode)
    ensures AsksForCerts(Emitted(routes, env, mode))
            <==> exists k, h :: 0 <= k < |routes| && Requires(routes[k], env, h)
  {
    if AsksForCerts(Emitted(routes, env, mode)) {
      var ps := Emitted(routes, env, mode);
      var i :| 0 <= i < |ps| && ps[i].Policy? && ps[i].options.ca != "";
      AskedIsRequired(routes, env, mode, i);
    }
    if k, h :| 0 <= k < |routes| && Requires(routes[k], env, h) {
      RequiresMeans(routes[k], env, h);
      StrictIsOn(routes, env, mode, k);
    }
  }

  // ---------------------------------------------------------------- what a connection was asked for

  /** The CA whose certificates the connection was asked for, "" for none. */
  function AskedCa(ps: seq<Policy>, covers: (string, string) -> bool, name: string): string {
    match Lookup(ps, covers, name)
    case None => ""
    case Some(options) => options.ca
  }

  lemma AskedByFirstCover(routes: seq<Route>, env: Env, mode: Mode, covers: (string, string) -> bool, name: string)
    ensures var w := FirstCover(HostOrder(routes, env), covers, name);
            AskedCa(Emitted(routes, env, mode), covers, name) == if w.Some? then FirstCa(routes, env, w.value) else ""
  {
    LookupOfEmitted(routes, env, mode, covers, name);
  }

  /** Server names are compared without regard to case. */
  ghost predicate FoldBlind(covers: (string, string) -> bool) {
    forall p, a, b {:trigger covers(p, a), covers(p, b)} :: EqualFold(a, b) ==> covers(p, a) == covers(p, b)
  }

  lemma {:induction false} FirstCoverFolds(hs: seq<string>, covers: (string, string) -> bool, a: string, b: string)
    requires FoldBlind(covers) && EqualFold(a, b)
    ensures FirstCover(hs, covers, a) == FirstCover(hs, covers, b)
    decreases |hs|
  {
    if hs != [] {
      FirstCoverFolds(hs[..|hs| - 1], covers, a, b);
      assert covers(hs[|hs| - 1], a) == covers(hs[|hs| - 1], b);
    }
  }

  /** A request for the host is served on a connection made under the name. */
  predicate Coheres(strict: bool, name: string, host: string) {
    strict ==> EqualFold(name, host)
  }

  /** Whatever the name and the host: a request the route takes came over a connection that was asked
      for the route's own CA. */
  ghost predicate OnlyOverItsCa(
    routes: seq<Route>, env: Env, mode: Mode, covers: (string, string) -> bool, takes: (string, string) -> bool,
    strict: bool, k: nat)
    requires k < |routes|
  {
    forall name, host :: Coheres(strict, name, host) && AnyCovers(takes, routes[k].hosts, host) ==>
      AskedCa(Emitted(routes, env, mode), covers, name) == CaOf(routes[k], env)
  }

  /** On each host the route takes, the first opted-in matcher over it has the route's CA. */
  ghost predicate OwnCaFirst(
    routes: seq<Route>, env: Env, covers: (string, string) -> bool, takes: (string, string) -> bool, k: nat)
    requires k < |routes|
  {
    forall host :: AnyCovers(takes, routes[k].hosts, host) ==> OwnCaAt(routes, env, covers, k, host)
  }

  predicate OwnCaAt(routes: seq<Route>, env: Env, covers: (string, string) -> bool, k: nat, host: string)
    requires k < |routes|
  {
    var w := FirstCover(HostOrder(routes, env), covers, host);
    w.Some? && FirstCa(routes, env, w.value) == CaOf(routes[k], env)
  }

  lemma AskedForOwnCa(
    routes: seq<Route>, env: Env, mode: Mode, covers: (string, string) -> bool, takes: (string, string) -> bool,
    k: nat, name: string, host: string)
    requires k < |routes| && FoldBlind(covers) && OwnCaFirst(routes, env, covers, takes, k)
    requires EqualFold(name, host) && AnyCovers(takes, routes[k].hosts, host)
    ensures AskedCa(Emitted(routes, env, mode), covers, name) == CaOf(routes[k], env)
  {
    assert OwnCaAt(routes, env, covers, k, host);
    FirstCoverFolds(HostOrder(routes, env), covers, name, host);
    AskedByFirstCover(routes, env, mode, covers, name);
  }

  /** For every list of routes and every route with a usable CA that takes some host, given a name that
      no opted-in matcher covers: requests reach it only over connections asked for its CA exactly when
      SNI is strict and that CA comes first on each of its hosts. */
  lemma CertAskedExactly(
    routes: seq<Route>, env: Env, mode: Mode, covers: (string, string) -> bool, takes: (string, string) -> bool,
    strict: bool, k: nat, bare: string, host: string)
    requires k < |routes| && CaOf(routes[k], env) != "" && FoldBlind(covers)
    requires !AnyCovers(covers, HostOrder(routes, env), bare) && AnyCovers(takes, routes[k].hosts, host)
    ensures OnlyOverItsCa(routes, env, mode, covers, takes, strict, k)
            <==> strict && OwnCaFirst(routes, env, covers, takes, k)
  {
    if strict && OwnCaFirst(routes, env, covers, takes, k) {
      forall n, h | Coheres(strict, n, h) && AnyCovers(takes, routes[k].hosts, h)
        ensures AskedCa(Emitted(routes, env, mode), covers, n) == CaOf(routes[k], env)
      {
        AskedForOwnCa(routes, env, mode, covers, takes, k, n, h);
      }
    }
    if OnlyOverItsCa(routes, env, mode, covers, takes, strict, k) {
      if !strict {
        AskedByFirstCover(routes, env, mode, covers, bare);
        FirstCoverIsFirst(HostOrder(routes, env), covers, bare);
        assert Coheres(strict, bare, host);
      }
      OnlyMeansFirst(routes, env, mode, covers, takes, strict, k);
    }
  }

  lemma OnlyMeansFirst(
    routes: seq<Route>, env: Env, mode: Mode, covers: (string, string) -> bool, takes: (string, string) -> bool,
    strict: bool, k: nat)
    requires k < |routes| && CaOf(routes[k], env) != ""
    requires OnlyOverItsCa(routes, env, mode, covers, takes, strict, k)
    ensures OwnCaFirst(routes, env, covers, takes, k)
  {
    forall host | AnyCovers(takes, routes[k].hosts, host) ensures OwnCaAt(routes, env, covers, k, host) {
      assert Coheres(strict, host, host);
      AskedByFirstCover(routes, env, mode, covers, host);
    }
  }

  // ---------------------------------------------------------------- on a node

  /** On a node, which turns strict SNI on by itself: exactly when the CA comes first. */
  lemma NodeCertAskedExactly(
    routes: seq<Route>, env: Env, mode: Mode, covers: (string, string) -> bool, takes: (string, string) -> bool,
    k: nat, bare: string, host: string)
    requires k < |routes| && CaOf(routes[k], env) != "" && FoldBlind(covers)
    requires !AnyCovers(covers, HostOrder(routes, env), bare) && AnyCovers(takes, routes[k].hosts, host)
    ensures OnlyOverItsCa(routes, env, mode, covers, takes, AsksForCerts(Emitted(routes, env, mode)), k)
            <==> OwnCaFirst(routes, env, covers, takes, k)
  {
    StrictIsOn(routes, env, mode, k);
    CertAskedExactly(routes, env, mode, covers, takes, true, k, bare, host);
  }

  lemma NeverInCleartext(r: Route, w: World, q: Req)
    requires IsFor(r, w, q) && r.requireClientCert && ReachesTenant(RunAll(Handlers(r), w, q))
    ensures !w.cleartext
  {
    if Refused(r) {
      RefusedDialsNothing(r, w, q);
    } else if r.maintenance {
      MaintenanceReachesExactly(r, w, q);
    } else {
      ReachesBackendAsEmitted(r, w, q);
    }
  }

  /** From the handshake to the backend: a request that the node passes to the backend of a tenant route
      with a usable CA came over TLS, on a connection that was asked for this CA. */
  lemma ReachedOverItsCa(
    s: NodeConfig.Settings, routes: seq<Route>, order: seq<nat>, sorted: seq<Route>, w: World, q: Req, k: nat,
    env: Env, mode: Mode, covers: (string, string) -> bool, takes: (string, string) -> bool, name: string)
    requires Reordered(routes, order, sorted) && NodeConfig.FirstFor(routes, order, s.modules, w, q, k) && k < |order|
    requires !NodeConfig.ForPanel(s, w, q) && !NodeConfig.ForTunnel(s, w, q)
    requires CaOf(sorted[k], env) != "" && FoldBlind(covers) && OwnCaFirst(sorted, env, covers, takes, k)
    requires w.hostIs(q.host, sorted[k].hosts) ==> AnyCovers(takes, sorted[k].hosts, q.host)
    requires Coheres(AsksForCerts(Emitted(sorted, env, mode)), name, q.host)
    requires ReachesTenant(RunRoutes(NodeConfig.OwnRoutes(s) + NodeConfig.Emitted(routes, order, s.modules), w, q))
    ensures !w.cleartext && AskedCa(Emitted(sorted, env, mode), covers, name) == CaOf(sorted[k], env)
  {
    var first := NodeConfig.OnNode(routes[order[k]], s.modules);
    NodeConfig.FirstRouteDecides(s, routes, order, w, q, k);
    NeverInCleartext(first, w, q);
    ForItsHost(first, w, q);
    StrictIsOn(sorted, env, mode, k);
    AskedForOwnCa(sorted, env, mode, covers, takes, k, name, q.host);
  }

  // ---------------------------------------------------------------- names

  /** One-label wildcards, without regard to case. */
  predicate FoldCovers(p: string, name: string) {
    WildcardCovers(ToLower(p), ToLower(name))
  }

  lemma FoldCoversIsBlind()
    ensures FoldBlind(FoldCovers)
  {
  }

  function Longest(hs: seq<string>): (n: nat)
    ensures forall i :: 0 <= i < |hs| ==> |hs[i]| <= n
  {
    if hs == [] then 0
    else
      var n := Longest(hs[1..]);
      assert forall i :: 1 <= i < |hs| ==> hs[i] == hs[1..][i - 1];
      if |hs[0]| > n then |hs[0]| else n
  }

  /** Some name no matcher of a list covers: one label, longer than all of them. */
  lemma SomeNameIsBare(hs: seq<string>) returns (bare: string)
    ensures !AnyCovers(FoldCovers, hs, bare)
  {
    bare := seq(Longest(hs) + 1, i => 'a');
    forall i | 0 <= i < |hs| ensures !FoldCovers(hs[i], bare) {
      NotCovered(ToLower(hs[i]), bare);
      assert ToLower(bare) == bare;
    }
  }

  lemma NotCovered(p: string, bare: string)
    requires |p| < |bare| && forall i :: 0 <= i < |bare| ==> bare[i] == 'a'
    ensures !WildcardCovers(p, bare)
  {
    if |p| >= 2 && p[1] == '.' {
      assert bare[|bare| - |p| + 1..][0] == 'a' && p[1..][0] == '.';
    }
  }

  /** For Caddy's one-label wildcards nothing else is asked: exactly when the CA comes first. */
  lemma CertAskedByName(
    routes: seq<Route>, env: Env, mode: Mode, takes: (string, string) -> bool, k: nat, host: string)
    requires k < |routes| && CaOf(routes[k], env) != "" && AnyCovers(takes, routes[k].hosts, host)
    ensures OnlyOverItsCa(routes, env, mode, FoldCovers, takes, AsksForCerts(Emitted(routes, env, mode)), k)
            <==> OwnCaFirst(routes, env, FoldCovers, takes, k)
  {
    FoldCoversIsBlind();
    var bare := SomeNameIsBare(HostOrder(routes, env));
    NodeCertAskedExactly(routes, env, mode, FoldCovers, takes, k, bare, host);
  }
}
