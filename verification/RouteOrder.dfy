/**
  The order in which routes are emitted (EmissionOrder in internal/caddyapi/routeorder.go). Caddy
  takes the first route that matches, so routes that can match the same host are sorted most
  specific and most guarded first, inside the slots they already hold.
 */
module RouteOrder {
  import opened Strings
  import opened RouteModel
  import opened HostMatch
  import opened Components

  // ---------------------------------------------------------------- which routes can collide

  /** How hosts are normalised and compared: CaddyHosts below, or anything like it. */
  datatype Hosts = Hosts(norm: string -> string, overlap: (string, string) -> bool)

  function CaddyHosts(idna: Idna): Hosts {
    Hosts(h => NormalizeHost(idna, h), (a, b) => HostsOverlap(idna, a, b))
  }

  ghost predicate Symmetric(hx: Hosts) {
    forall a, b :: hx.overlap(a, b) == hx.overlap(b, a)
  }

  lemma CaddyHostsAreSymmetric(idna: Idna)
    ensures Symmetric(CaddyHosts(idna))
  {
    forall a, b ensures HostsOverlap(idna, a, b) == HostsOverlap(idna, b, a) {
      OverlapIsSymmetric(idna, a, b);
    }
  }

  /** k is a normalised matcher of the list; blank entries match nothing and are no key. */
  predicate HasKey(hx: Hosts, hs: seq<string>, k: string) {
    k != "" && exists i :: 0 <= i < |hs| && hx.norm(hs[i]) == k
  }

  /** No host matcher at all: a catch-all. */
  predicate AllBlank(hx: Hosts, hs: seq<string>) {
    forall i :: 0 <= i < |hs| ==> hx.norm(hs[i]) == ""
  }

  ghost predicate Meet(hx: Hosts, a: seq<string>, b: seq<string>, x: string, y: string) {
    HasKey(hx, a, x) && HasKey(hx, b, y) && (x == y || hx.overlap(x, y))
  }

  ghost predicate ListsTouch(hx: Hosts, a: seq<string>, b: seq<string>) {
    AllBlank(hx, a) || AllBlank(hx, b) || exists x, y :: Meet(hx, a, b, x, y)
  }

  /** Two routes collide when one has no host matcher or two of their matchers overlap. */
  ghost predicate Touches(hx: Hosts, a: Route, b: Route) {
    ListsTouch(hx, a.hosts, b.hosts)
  }

  function HostsOf(routes: seq<Route>): (lists: seq<seq<string>>)
    ensures |lists| == |routes| && forall i :: 0 <= i < |routes| ==> lists[i] == routes[i].hosts
  {
    seq(|routes|, i requires 0 <= i < |routes| => routes[i].hosts)
  }

  ghost function ListCollisions(hx: Hosts, lists: seq<seq<string>>): Graph {
    Graph(|lists|, (i: nat, j: nat) => i < |lists| && j < |lists| && ListsTouch(hx, lists[i], lists[j]))
  }

  /** Which routes collide depends on their host lists alone. */
  ghost function Collisions(hx: Hosts, routes: seq<Route>): Graph {
    ListCollisions(hx, HostsOf(routes))
  }

  lemma TouchIsSymmetric(hx: Hosts, a: Route, b: Route)
    requires Symmetric(hx) && Touches(hx, a, b)
    ensures Touches(hx, b, a)
  {
    if !AllBlank(hx, a.hosts) && !AllBlank(hx, b.hosts) {
      var x, y :| Meet(hx, a.hosts, b.hosts, x, y);
      assert Meet(hx, b.hosts, a.hosts, y, x);
    }
  }

  // ---------------------------------------------------------------- which hosts a route accepts

  ghost predicate RouteAccepts(hx: Hosts, accepts: (string, string) -> bool, r: Route, host: string) {
    AllBlank(hx, r.hosts) || exists k :: HasKey(hx, r.hosts, k) && accepts(k, host)
  }

  /** Matchers that accept a common host overlap. */
  ghost predicate Sound(hx: Hosts, accepts: (string, string) -> bool) {
    forall x, y, host :: accepts(x, host) && accepts(y, host) ==> hx.overlap(x, y)
  }

  lemma CaddyHostsAreSound(idna: Idna, expand: Expansion)
    ensures Sound(CaddyHosts(idna), (k, host) => Accepts(idna, expand, k, host))
  {
    forall x, y, host | Accepts(idna, expand, x, host) && Accepts(idna, expand, y, host)
      ensures HostsOverlap(idna, x, y)
    {
      OverlapMissesNothing(idna, expand, x, y, host);
    }
  }

  lemma AcceptingRoutesTouch(hx: Hosts, accepts: (string, string) -> bool, a: Route, b: Route, host: string)
    requires Sound(hx, accepts)
    requires RouteAccepts(hx, accepts, a, host) && RouteAccepts(hx, accepts, b, host)
    ensures Touches(hx, a, b)
  {
    if !AllBlank(hx, a.hosts) && !AllBlank(hx, b.hosts) {
      var x :| HasKey(hx, a.hosts, x) && accepts(x, host);
      var y :| HasKey(hx, b.hosts, y) && accepts(y, host);
      assert Meet(hx, a.hosts, b.hosts, x, y);
    }
  }

  // ---------------------------------------------------------------- which goes first

  function PathSpecificity(r: Route): nat {
    var p := TrimSpace(r.pathPrefix);
    if p == "/" then 0 else |p|
  }

  function WildcardRank(r: Route): nat {
    if exists i :: 0 <= i < |r.hosts| && '*' in r.hosts[i] then 1 else 0
  }

  function DenyRank(r: Route): nat {
    if r.mtlsDenyOnMisconfig || r.portalDenyOnMisconfig then 0
    else if RouteAuthGated(r) then 1
    else 2
  }

  datatype Rank = Rank(specificity: nat, wildcard: nat, deny: nat)

  function RankOf(r: Route): Rank {
    Rank(PathSpecificity(r), WildcardRank(r), DenyRank(r))
  }

  function Ranks(routes: seq<Route>): (ranks: seq<Rank>)
    ensures |ranks| == |routes| && forall i :: 0 <= i < |ranks| ==> ranks[i] == RankOf(routes[i])
  {
    seq(|routes|, i requires 0 <= i < |routes| => RankOf(routes[i]))
  }

  /** The comparison handed to the stable sort. */
  predicate Less(a: Rank, b: Rank) {
    if a.specificity != b.specificity then a.specificity > b.specificity
    else if a.wildcard != b.wildcard then a.wildcard < b.wildcard
    else a.deny < b.deny
  }

  /** The order a stable sort makes of it: ties go to the earlier index. */
  predicate Before(ranks: seq<Rank>, i: nat, j: nat)
    requires i < |ranks| && j < |ranks|
  {
    Less(ranks[i], ranks[j]) || (!Less(ranks[j], ranks[i]) && i < j)
  }

  /** A path prefix as routes store it: empty or starting with a slash, without outer space. */
  predicate PlainPrefix(p: string) {
    TrimSpace(p) == p && (p == "" || p[0] == '/')
  }

  /** What PathPatterns accepts: everything under the prefix, from a segment boundary on when the
      prefix is stripped. */
  predicate PathAccepts(r: Route, path: string) {
    if MatchesSegment(r) then path == TrimSlash(r.pathPrefix) || TrimSlash(r.pathPrefix) + "/" <= path
    else r.pathPrefix <= path
  }

  predicate RequestPath(path: string) {
    path != "" && path[0] == '/'
  }

  /** The text has none of the characters a path pattern gives a meaning to. */
  predicate Plain(s: string) {
    forall c :: c in s ==> c != '*' && c != '?' && c != '[' && c != '\\'
  }

  /** A pattern that is plain but for a star at its end accepts what starts with it, any other plain one
      only itself. */
  predicate PatternAccepts(pattern: string, path: string) {
    if pattern != "" && pattern[|pattern| - 1] == '*' then pattern[..|pattern| - 1] <= path else path == pattern
  }

  predicate PatternsAccept(patterns: seq<string>, path: string) {
    patterns == [] || exists i :: 0 <= i < |patterns| && PatternAccepts(patterns[i], path)
  }

  /** The prefix is base, with or without a slash after it. */
  predicate IsBase(base: string, prefix: string) {
    prefix == base + "/" || (prefix == base && (base == "" || base[|base| - 1] != '/'))
  }

  lemma TrimSlashIsBase(base: string, prefix: string)
    requires IsBase(base, prefix)
    ensures TrimSlash(prefix) == base
  {
  }

  lemma StarAcceptsBelow(prefix: string, path: string)
    ensures PatternAccepts(prefix + "*", path) <==> prefix <= path
  {
    assert (prefix + "*")[..|prefix|] == prefix;
  }

  lemma OneOf(pattern: string, path: string)
    ensures PatternsAccept([pattern], path) <==> PatternAccepts(pattern, path)
  {
    assert PatternAccepts([pattern][0], path) <==> PatternAccepts(pattern, path);
  }

  lemma OneOfTwo(x: string, y: string, path: string)
    ensures PatternsAccept([x, y], path) <==> PatternAccepts(x, path) || PatternAccepts(y, path)
  {
    var patterns := [x, y];
    assert patterns[0] == x && patterns[1] == y;
  }

  /** The emitted patterns accept exactly the paths under the prefix; of a prefix that is stripped on the
      way to an external backend, and that is more than a slash, only the path itself, without a slash at
      its end, and those below it. */
  lemma PatternsMeanPrefix(r: Route, base: string, path: string)
    requires Plain(r.pathPrefix) && IsBase(base, r.pathPrefix)
    ensures PatternsAccept(PathPatterns(r), path) <==>
            if r.external && r.stripPathPrefix && base != "" then path == base || base + "/" <= path
            else r.pathPrefix <= path
    ensures PatternsAccept(PathPatterns(r), path) <==> PathAccepts(r, path)
  {
    TrimSlashIsBase(base, r.pathPrefix);
    if MatchesSegment(r) {
      assert base[|base| - 1] == r.pathPrefix[|base| - 1];
      assert base[|base| - 1] in r.pathPrefix;
      StarAcceptsBelow(base + "/", path);
      assert base + "/" + "*" == base + "/*";
      OneOfTwo(base, base + "/*", path);
    } else if r.pathPrefix != "" {
      StarAcceptsBelow(r.pathPrefix, path);
      OneOf(r.pathPrefix + "*", path);
    }
  }

  /** a accepts strictly fewer paths than b. */
  ghost predicate Narrower(a: Route, b: Route) {
    && (forall path :: RequestPath(path) && PathAccepts(a, path) ==> PathAccepts(b, path))
    && (exists path :: RequestPath(path) && PathAccepts(b, path) && !PathAccepts(a, path))
  }

  lemma NarrowerIsUnder(a: Route, b: Route)
    requires PlainPrefix(a.pathPrefix) && PlainPrefix(b.pathPrefix) && Narrower(a, b) && !MatchesSegment(b)
    ensures b.pathPrefix <= if MatchesSegment(a) then TrimSlash(a.pathPrefix) else a.pathPrefix
  {
    var under := if MatchesSegment(a) then TrimSlash(a.pathPrefix) else a.pathPrefix;
    if under != "" {
      assert RequestPath(under) && PathAccepts(a, under);
    }
  }

  lemma NarrowerIsBelow(a: Route, b: Route)
    requires PlainPrefix(a.pathPrefix) && PlainPrefix(b.pathPrefix) && Narrower(a, b)
    requires MatchesSegment(b) && !MatchesSegment(a)
    ensures TrimSlash(b.pathPrefix) + "/" <= a.pathPrefix
  {
    var base, p := TrimSlash(b.pathPrefix), if a.pathPrefix == "" then "/" else a.pathPrefix;
    var x, y := p + "x", p + "y";
    assert RequestPath(x) && RequestPath(y) && PathAccepts(a, x) && PathAccepts(a, y);
    assert PathAccepts(b, x) && PathAccepts(b, y);
    ForkIsBelow(base, p);
  }

  /** A segment that two continuations of p are both under is one that p is under. */
  lemma ForkIsBelow(base: string, p: string)
    requires p + "x" == base || base + "/" <= p + "x"
    requires p + "y" == base || base + "/" <= p + "y"
    ensures base + "/" <= p
  {
    var x, y, below := p + "x", p + "y", base + "/";
    assert x[|p|] == 'x' && y[|p|] == 'y';
    assert below <= x && below <= y;
  }

  /** Of two routes whose paths are strictly nested the narrower is the more specific, exactly when
      their prefixes differ: a stripped and an unstripped route on one prefix tie. */
  lemma NarrowerPathRanksFirst(a: Route, b: Route)
    requires PlainPrefix(a.pathPrefix) && PlainPrefix(b.pathPrefix) && Narrower(a, b)
    ensures PathSpecificity(a) > PathSpecificity(b) <==> a.pathPrefix != b.pathPrefix
    ensures a.pathPrefix != b.pathPrefix ==> Less(RankOf(a), RankOf(b))
  {
    if !MatchesSegment(b) {
      NarrowerIsUnder(a, b);
    } else if !MatchesSegment(a) {
      NarrowerIsBelow(a, b);
    } else {
      var base := TrimSlash(a.pathPrefix);
      assert RequestPath(base) && PathAccepts(a, base) && PathAccepts(b, base);
    }
  }

  ghost predicate SamePaths(a: Route, b: Route) {
    forall path :: RequestPath(path) ==> (PathAccepts(a, path) <==> PathAccepts(b, path))
  }

  /** Unstripped prefixes that accept the same paths are the same, but for "" and "/". */
  lemma SameUnstripped(a: Route, b: Route)
    requires PlainPrefix(a.pathPrefix) && PlainPrefix(b.pathPrefix) && SamePaths(a, b)
    requires !MatchesSegment(a) && !MatchesSegment(b)
    ensures a.pathPrefix == b.pathPrefix || (a.pathPrefix in ["", "/"] && b.pathPrefix in ["", "/"])
  {
    var p, q := a.pathPrefix, b.pathPrefix;
    assert RequestPath("/x") && RequestPath("/y");
    if p != "" {
      assert RequestPath(p) && PathAccepts(a, p);
    }
    if q != "" {
      assert RequestPath(q) && PathAccepts(b, q);
    }
    if p == "" || q == "" {
      assert PathAccepts(a, "/x") && PathAccepts(b, "/x") && PathAccepts(a, "/y") && PathAccepts(b, "/y");
      OnlySlash(p);
      OnlySlash(q);
    }
  }

  lemma OnlySlash(p: string)
    requires p <= "/x" && p <= "/y"
    ensures p in ["", "/"]
  {
    assert "/x"[1] != "/y"[1];
    if |p| == 1 {
      assert p == "/x"[..1] == "/";
    }
  }

  lemma SameBase(a: Route, b: Route)
    requires SamePaths(a, b) && PlainPrefix(a.pathPrefix) && PlainPrefix(b.pathPrefix) && MatchesSegment(a)
    ensures MatchesSegment(b) && TrimSlash(a.pathPrefix) == TrimSlash(b.pathPrefix)
  {
    var base := TrimSlash(a.pathPrefix);
    assert RequestPath(base) && PathAccepts(a, base);
    var longer := base + "x";
    assert RequestPath(longer) && longer[|base|] == 'x' && !PathAccepts(a, longer);
    if MatchesSegment(b) {
      var other := TrimSlash(b.pathPrefix);
      assert RequestPath(other) && PathAccepts(b, other);
    }
  }

  /** Routes that accept the same paths tie, exactly unless both are stripped and one prefix ends in a
      slash that the other has not. */
  lemma SamePathsTieExactly(a: Route, b: Route)
    requires PlainPrefix(a.pathPrefix) && PlainPrefix(b.pathPrefix) && SamePaths(a, b)
    ensures PathSpecificity(a) == PathSpecificity(b) <==> !(MatchesSegment(a) && a.pathPrefix != b.pathPrefix)
  {
    if MatchesSegment(a) {
      SameBase(a, b);
    } else if MatchesSegment(b) {
      SameBase(b, a);
    } else {
      SameUnstripped(a, b);
    }
  }

  // ---------------------------------------------------------------- what the order promises

  ghost predicate Indices(s: seq<nat>, n: nat) {
    forall k :: 0 <= k < |s| ==> s[k] < n
  }

  ghost predicate Placed(order: seq<nat>, i: nat) {
    i in order
  }

  /** order is a permutation that moves indices only among equivalent ones, sorted there. */
  ghost predicate SortedWithin(same: (nat, nat) -> bool, ranks: seq<Rank>, order: seq<nat>) {
    && |order| == |ranks| && Indices(order, |ranks|)
    && (forall i :: 0 <= i < |ranks| ==> Placed(order, i))
    && (forall k, l :: 0 <= k < l < |order| ==> order[k] != order[l])
    && (forall k :: 0 <= k < |order| ==> same(k, order[k]))
    && (forall k, l {:trigger order[k], order[l]} ::
          0 <= k < l < |order| && same(k, l) ==> Before(ranks, order[k], order[l]))
  }

  ghost predicate Equivalence(same: (nat, nat) -> bool) {
    && (forall i, j :: same(i, j) ==> same(j, i))
    && (forall i, j, k :: same(i, j) && same(j, k) ==> same(i, k))
  }

  /** The components of the collision graph. */
  ghost function Together(hx: Hosts, routes: seq<Route>): (same: (nat, nat) -> bool) {
    var g := Collisions(hx, routes);
    (i: nat, j: nat) => Connected(g, i, j)
  }

  lemma TogetherIsEquivalence(hx: Hosts, routes: seq<Route>)
    ensures Equivalence(Together(hx, routes))
  {
    var g := Collisions(hx, routes);
    forall i, j | Connected(g, i, j) ensures Connected(g, j, i) {
      ConnectedBack(g, i, j);
    }
    forall i, j, k | Connected(g, i, j) && Connected(g, j, k) ensures Connected(g, i, k) {
      ConnectedOn(g, i, j, k);
    }
  }

  /** What EmissionOrder returns: a permutation that moves routes only within the connected
      components of the collision graph, sorted there. */
  ghost predicate Emission(hx: Hosts, routes: seq<Route>, order: seq<nat>) {
    SortedWithin(Together(hx, routes), Ranks(routes), order)
  }

  /** A route that collides with no other keeps its slot. */
  lemma LoneRouteKeepsSlot(hx: Hosts, routes: seq<Route>, order: seq<nat>, i: nat)
    requires Symmetric(hx) && Emission(hx, routes, order) && i < |routes|
    requires forall j :: 0 <= j < |routes| && j != i ==> !Touches(hx, routes[i], routes[j])
    ensures order[i] == i
  {
    var g := Collisions(hx, routes);
    var p :| Joins(g, p, i, order[i]);
    LoneWalkStays(hx, routes, p, i);
  }

  lemma {:induction false} LoneWalkStays(hx: Hosts, routes: seq<Route>, p: seq<nat>, i: nat)
    requires Symmetric(hx) && Walk(Collisions(hx, routes), p) && p[0] == i && i < |routes|
    requires forall j :: 0 <= j < |routes| && j != i ==> !Touches(hx, routes[i], routes[j])
    ensures p[|p| - 1] == i
    decreases |p|
  {
    if |p| > 1 {
      var g := Collisions(hx, routes);
      assert Edge(g, p[0], p[0 + 1]);
      if p[1] != i && Touches(hx, routes[p[1]], routes[i]) {
        TouchIsSymmetric(hx, routes[p[1]], routes[i]);
      }
      forall k | 0 <= k < |p[1..]| - 1 ensures Edge(g, p[1..][k], p[1..][k + 1]) {
        assert Edge(g, p[k + 1], p[k + 1 + 1]);
      }
      LoneWalkStays(hx, routes, p[1..], i);
    }
  }

  /** Of two equivalent indices the one in the earlier slot goes before the other. */
  lemma EarlierGoesBefore(same: (nat, nat) -> bool, ranks: seq<Rank>, order: seq<nat>, k: nat, j: nat)
    requires SortedWithin(same, ranks, order) && Equivalence(same)
    requires k < |order| && j < |ranks| && same(order[k], j)
    requires forall l :: 0 <= l <= k ==> order[l] != j
    ensures Before(ranks, order[k], j)
  {
    assert Placed(order, j);
    var l :| 0 <= l < |order| && order[l] == j;
    assert same(k, order[k]) && same(k, j) && same(j, l);
  }

  /** Of two equivalent indices the one that ranks first is in the earlier slot. */
  lemma LessGoesFirst(same: (nat, nat) -> bool, ranks: seq<Rank>, order: seq<nat>, k: nat, l: nat)
    requires SortedWithin(same, ranks, order) && Equivalence(same) && k < |order| && l < |order|
    requires same(order[k], order[l]) && Less(ranks[order[k]], ranks[order[l]])
    ensures k < l
  {
    if l < k {
      assert same(order[l], order[k]);
      EarlierGoesBefore(same, ranks, order, l, order[k]);
    }
  }

  /** What the ranks mean for two routes of one component in an emitted list: a narrower path comes
      first; on equal paths a route with exact hosts only comes before one with a wildcard; on equal
      wildcard use a fail-closed route comes before any other, and a gated one before an open one. */
  lemma GuardComesFirst(hx: Hosts, routes: seq<Route>, order: seq<nat>, k: nat, l: nat)
    requires Emission(hx, routes, order) && k < |order| && l < |order|
    requires Together(hx, routes)(order[k], order[l])
    ensures var a, b := routes[order[k]], routes[order[l]];
            PlainPrefix(a.pathPrefix) && PlainPrefix(b.pathPrefix) && Narrower(a, b) && a.pathPrefix != b.pathPrefix
            ==> k < l
    ensures var a, b := routes[order[k]], routes[order[l]];
            PathSpecificity(a) == PathSpecificity(b) && ExactOnly(a) && !ExactOnly(b) ==> k < l
    ensures var a, b := routes[order[k]], routes[order[l]];
            PathSpecificity(a) == PathSpecificity(b) && ExactOnly(a) == ExactOnly(b)
            && ((FailsClosed(a) && !FailsClosed(b)) || (!FailsClosed(b) && RouteAuthGated(a) && !RouteAuthGated(b)))
            ==> k < l
  {
    var a, b := routes[order[k]], routes[order[l]];
    TogetherIsEquivalence(hx, routes);
    if PlainPrefix(a.pathPrefix) && PlainPrefix(b.pathPrefix) && Narrower(a, b) && a.pathPrefix != b.pathPrefix {
      NarrowerPathRanksFirst(a, b);
    }
    if Less(RankOf(a), RankOf(b)) {
      LessGoesFirst(Together(hx, routes), Ranks(routes), order, k, l);
    }
  }

  predicate ExactOnly(r: Route) {
    forall i :: 0 <= i < |r.hosts| ==> '*' !in r.hosts[i]
  }

  predicate FailsClosed(r: Route) {
    r.mtlsDenyOnMisconfig || r.portalDenyOnMisconfig
  }

  lemma AcceptingRoutesConnect(
    hx: Hosts, accepts: (string, string) -> bool, routes: seq<Route>, host: string, i: nat, j: nat)
    requires Sound(hx, accepts) && i < |routes| && j < |routes|
    requires RouteAccepts(hx, accepts, routes[i], host) && RouteAccepts(hx, accepts, routes[j], host)
    ensures Connected(Collisions(hx, routes), i, j)
  {
    AcceptingRoutesTouch(hx, accepts, routes[i], routes[j], host);
    EdgeConnects(Collisions(hx, routes), i, j);
  }

  /** First match is best match. For every request host and every set of matching routes, the first
      of them in emission order goes before all the others: greatest path specificity, then no
      wildcard host, then fail-closed, then credential-gated, then the original order. */
  lemma FirstMatchIsBest(
    hx: Hosts, accepts: (string, string) -> bool, routes: seq<Route>, order: seq<nat>, host: string,
    matches: nat -> bool, k: nat, j: nat)
    requires Sound(hx, accepts) && Emission(hx, routes, order)
    requires forall i :: 0 <= i < |routes| && matches(i) ==> RouteAccepts(hx, accepts, routes[i], host)
    requires k < |order| && matches(order[k]) && forall l :: 0 <= l < k ==> !matches(order[l])
    requires j < |routes| && matches(j) && j != order[k]
    ensures Before(Ranks(routes), order[k], j)
  {
    AcceptingRoutesConnect(hx, accepts, routes, host, order[k], j);
    TogetherIsEquivalence(hx, routes);
    EarlierGoesBefore(Together(hx, routes), Ranks(routes), order, k, j);
  }

  /** The same for Caddy's host matchers, whatever IDNA conversion and placeholders do. */
  lemma CaddyFirstMatchIsBest(
    idna: Idna, expand: Expansion, routes: seq<Route>, order: seq<nat>, host: string,
    matches: nat -> bool, k: nat, j: nat)
    requires Emission(CaddyHosts(idna), routes, order)
    requires forall i :: 0 <= i < |routes| && matches(i) ==>
               RouteAccepts(CaddyHosts(idna), (m, h) => Accepts(idna, expand, m, h), routes[i], host)
    requires k < |order| && matches(order[k]) && forall l :: 0 <= l < k ==> !matches(order[l])
    requires j < |routes| && matches(j) && j != order[k]
    ensures Before(Ranks(routes), order[k], j)
  {
    CaddyHostsAreSound(idna, expand);
    FirstMatchIsBest(CaddyHosts(idna), (m, h) => Accepts(idna, expand, m, h), routes, order, host, matches, k, j);
  }

  lemma BeforeIsAsymmetric(ranks: seq<Rank>, i: nat, j: nat)
    requires i < |ranks| && j < |ranks| && (i != j ==> Before(ranks, i, j) && Before(ranks, j, i))
    ensures i == j
  {
  }

  /** The first slot where two orders differ would have to be filled by two routes, each before the
      other. */
  lemma {:induction false} AgreeUpTo(same: (nat, nat) -> bool, ranks: seq<Rank>, o: seq<nat>, o': seq<nat>, k: nat)
    requires SortedWithin(same, ranks, o) && SortedWithin(same, ranks, o') && Equivalence(same) && k <= |ranks|
    ensures forall l :: 0 <= l < k ==> o[l] == o'[l]
    decreases k
  {
    if k > 0 {
      AgreeUpTo(same, ranks, o, o', k - 1);
      GoesBefore(same, ranks, o, o', k - 1);
      GoesBefore(same, ranks, o', o, k - 1);
      BeforeIsAsymmetric(ranks, o[k - 1], o'[k - 1]);
    }
  }

  lemma GoesBefore(same: (nat, nat) -> bool, ranks: seq<Rank>, o: seq<nat>, o': seq<nat>, k: nat)
    requires SortedWithin(same, ranks, o) && SortedWithin(same, ranks, o') && Equivalence(same) && k < |ranks|
    requires forall l :: 0 <= l < k ==> o[l] == o'[l]
    ensures o[k] != o'[k] ==> Before(ranks, o[k], o'[k])
  {
    assert Placed(o, o'[k]);
    var l :| 0 <= l < |o| && o[l] == o'[k];
    assert same(k, o'[k]) && same(l, o[l]);
  }

  /** The promise leaves no choice: it determines the order. */
  lemma EmissionIsUnique(hx: Hosts, routes: seq<Route>, o: seq<nat>, o': seq<nat>)
    requires Emission(hx, routes, o) && Emission(hx, routes, o')
    ensures o == o'
  {
    TogetherIsEquivalence(hx, routes);
    AgreeUpTo(Together(hx, routes), Ranks(routes), o, o', |routes|);
  }

  // ---------------------------------------------------------------- the clash probe

  predicate HostSetsOverlap(hx: Hosts, a: seq<string>, b: seq<string>) {
    || AllBlank(hx, a) || AllBlank(hx, b)
    || exists i, j :: 0 <= i < |a| && 0 <= j < |b| && hx.overlap(a[i], b[j])
  }

  predicate HasBlank(hx: Hosts, hs: seq<string>) {
    exists i :: 0 <= i < |hs| && hx.norm(hs[i]) == ""
  }

  /** The comparison of x and y looks at normal forms only, and takes blank for a catch-all. */
  ghost predicate NormalPair(hx: Hosts, x: string, y: string) {
    && hx.overlap(x, y) == hx.overlap(hx.norm(x), hx.norm(y))
    && (hx.norm(x) == "" || hx.norm(y) == "" || hx.norm(x) == hx.norm(y) ==> hx.overlap(x, y))
  }

  /** So it is for hosts that normalising twice changes no further. */
  lemma StableHostsAreNormal(idna: Idna, x: string, y: string)
    requires NormalizeHost(idna, NormalizeHost(idna, x)) == NormalizeHost(idna, x)
    requires NormalizeHost(idna, NormalizeHost(idna, y)) == NormalizeHost(idna, y)
    ensures NormalPair(CaddyHosts(idna), x, y)
  {
    if NormalizeHost(idna, x) == NormalizeHost(idna, y) {
      var labels := SplitDots(NormalizeHost(idna, x));
      assert forall i :: 0 <= i < |labels| ==> LabelsMeet(labels[i], labels[i]);
    }
  }

  ghost predicate NormalPairs(hx: Hosts, a: seq<string>, b: seq<string>) {
    forall i, j :: 0 <= i < |a| && 0 <= j < |b| ==> NormalPair(hx, a[i], b[j])
  }

  lemma OverlapIsTouch(hx: Hosts, a: seq<string>, b: seq<string>, i: nat, j: nat)
    requires i < |a| && j < |b| && NormalPair(hx, a[i], b[j]) && hx.overlap(a[i], b[j])
    ensures ListsTouch(hx, a, b) || HasBlank(hx, a) || HasBlank(hx, b)
  {
    if hx.norm(a[i]) != "" && hx.norm(b[j]) != "" {
      assert Meet(hx, a, b, hx.norm(a[i]), hx.norm(b[j]));
    }
  }

  lemma TouchIsOverlap(hx: Hosts, a: seq<string>, b: seq<string>)
    requires NormalPairs(hx, a, b) && ListsTouch(hx, a, b)
    ensures HostSetsOverlap(hx, a, b)
  {
    if !AllBlank(hx, a) && !AllBlank(hx, b) {
      var x, y :| Meet(hx, a, b, x, y);
      var i :| 0 <= i < |a| && hx.norm(a[i]) == x;
      var j :| 0 <= j < |b| && hx.norm(b[j]) == y;
      assert NormalPair(hx, a[i], b[j]);
    }
  }

  lemma BlankIsOverlap(hx: Hosts, a: seq<string>, b: seq<string>)
    requires NormalPairs(hx, a, b) && (HasBlank(hx, a) || HasBlank(hx, b))
    ensures HostSetsOverlap(hx, a, b)
  {
    if a != [] && b != [] {
      if i :| 0 <= i < |a| && hx.norm(a[i]) == "" {
        assert NormalPair(hx, a[i], b[0]);
      } else {
        var j :| 0 <= j < |b| && hx.norm(b[j]) == "";
        assert NormalPair(hx, a[0], b[j]);
      }
    }
  }

  /** The incremental probe and the full ordering see the same collisions, except that the probe
      also reports a list that holds a blank host. */
  lemma ProbeAgreesExactly(hx: Hosts, a: Route, b: Route)
    requires NormalPairs(hx, a.hosts, b.hosts)
    ensures HostSetsOverlap(hx, a.hosts, b.hosts)
            <==> Touches(hx, a, b) || HasBlank(hx, a.hosts) || HasBlank(hx, b.hosts)
  {
    if Touches(hx, a, b) {
      TouchIsOverlap(hx, a.hosts, b.hosts);
    } else if HasBlank(hx, a.hosts) || HasBlank(hx, b.hosts) {
      BlankIsOverlap(hx, a.hosts, b.hosts);
    } else if i, j :| 0 <= i < |a.hosts| && 0 <= j < |b.hosts| && hx.overlap(a.hosts[i], b.hosts[j]) {
      OverlapIsTouch(hx, a.hosts, b.hosts, i, j);
    }
  }

  // ---------------------------------------------------------------- the program: components

  /** Every listed index is a route below count that has the host. */
  ghost predicate ListOk(hx: Hosts, routes: seq<Route>, count: nat, h: string, l: seq<nat>) {
    l != [] && forall t :: 0 <= t < |l| ==> l[t] < count <= |routes| && HasKey(hx, routes[l[t]].hosts, h)
  }

  ghost predicate Lists(hx: Hosts, routes: seq<Route>, count: nat, byHost: map<string, seq<nat>>) {
    forall h :: h in byHost ==> ListOk(hx, routes, count, h, byHost[h])
  }

  /** Route x is listed under every host of hs. */
  ghost predicate ListedUnder(hx: Hosts, hs: seq<string>, x: nat, byHost: map<string, seq<nat>>) {
    forall h :: HasKey(hx, hs, h) ==> h in byHost && x in byHost[h]
  }

  /** Nothing listed before is lost. */
  ghost predicate Extends(byHost0: map<string, seq<nat>>, byHost: map<string, seq<nat>>) {
    forall h, x :: h in byHost0 && x in byHost0[h] ==> h in byHost && x in byHost[h]
  }

  /** Lists route i under one normalised host. */
  method ListUnder(
    hx: Hosts, routes: seq<Route>, i: nat, h: string, byHost0: map<string, seq<nat>>, hosts0: seq<string>)
    returns (byHost: map<string, seq<nat>>, hosts: seq<string>)
    requires i < |routes| && HasKey(hx, routes[i].hosts, h)
    requires Lists(hx, routes, i + 1, byHost0) && (forall g :: g in byHost0 <==> g in hosts0)
    ensures Lists(hx, routes, i + 1, byHost) && (forall g :: g in byHost <==> g in hosts)
    ensures Extends(byHost0, byHost) && h in byHost && i in byHost[h]
  {
    hosts := if h in byHost0 then hosts0 else hosts0 + [h];
    var l := if h in byHost0 then byHost0[h] else [];
    assert ListOk(hx, routes, i + 1, h, l + [i]) by {
      if h in byHost0 {
        assert ListOk(hx, routes, i + 1, h, l);
      }
    }
    byHost := byHost0[h := l + [i]];
  }

  /** The inner loop over one route's hosts. */
  method IndexRoute(hx: Hosts, routes: seq<Route>, i: nat, byHost0: map<string, seq<nat>>, hosts0: seq<string>)
    returns (byHost: map<string, seq<nat>>, hosts: seq<string>, n: nat)
    requires i < |routes| && Lists(hx, routes, i, byHost0) && (forall h :: h in byHost0 <==> h in hosts0)
    ensures Lists(hx, routes, i + 1, byHost) && (forall h :: h in byHost <==> h in hosts)
    ensures ListedUnder(hx, routes[i].hosts, i, byHost)
    ensures Extends(byHost0, byHost)
    ensures n == 0 <==> AllBlank(hx, routes[i].hosts)
  {
    byHost, hosts, n := byHost0, hosts0, 0;
    var hs := routes[i].hosts;
    assert Lists(hx, routes, i + 1, byHost) by {
      forall h | h in byHost ensures ListOk(hx, routes, i + 1, h, byHost[h]) {
        assert ListOk(hx, routes, i, h, byHost[h]);
      }
    }
    for j := 0 to |hs|
      invariant Lists(hx, routes, i + 1, byHost) && (forall h :: h in byHost <==> h in hosts)
      invariant forall t :: 0 <= t < j && hx.norm(hs[t]) != "" ==>
                  hx.norm(hs[t]) in byHost && i in byHost[hx.norm(hs[t])]
      invariant Extends(byHost0, byHost)
      invariant n == 0 <==> forall t :: 0 <= t < j ==> hx.norm(hs[t]) == ""
    {
      var h := hx.norm(hs[j]);
      if h != "" {
        n := n + 1;
        byHost, hosts := ListUnder(hx, routes, i, h, byHost, hosts);
      }
    }
  }

  ghost predicate JoinedTo(root: seq<nat>, i: nat, js: seq<nat>, count: nat) {
    i < |root| && count <= |js| && forall t :: 0 <= t < count ==> js[t] < |root| && root[js[t]] == root[i]
  }

  lemma StayJoinedTo(r0: seq<nat>, r1: seq<nat>, i: nat, js: seq<nat>, count: nat)
    requires JoinedTo(r0, i, js, count) && Coarser(r0, r1)
    ensures JoinedTo(r1, i, js, count)
  {
    forall t | 0 <= t < count ensures r1[js[t]] == r1[i] {
      assert r1[js[t]] == r1[r0[js[t]]] && r1[i] == r1[r0[i]];
    }
  }

  /** Unites i with each of js. */
  method UniteAll(uf: UnionFind, i: nat, js: seq<nat>)
    requires uf.Valid() && i < uf.g.n
    requires forall t :: 0 <= t < |js| ==> js[t] < uf.g.n && Connected(uf.g, i, js[t])
    modifies uf, uf.parent
    ensures uf.Valid() && Coarser(old(uf.root), uf.root)
    ensures JoinedTo(uf.root, i, js, |js|)
  {
    RootsAreRoots(uf.parent[..], uf.root, uf.depth);
    for t := 0 to |js|
      invariant uf.Valid() && Coarser(old(uf.root), uf.root)
      invariant JoinedTo(uf.root, i, js, t)
    {
      ghost var before := uf.root;
      uf.Union(i, js[t]);
      CoarserOn(old(uf.root), before, uf.root);
      StayJoinedTo(before, uf.root, i, js, t);
    }
  }

  ghost predicate SharesAll(root: seq<nat>, c: nat)
    requires c < |root|
  {
    forall j :: 0 <= j < |root| ==> root[j] == root[c]
  }

  lemma SharesAllKept(r0: seq<nat>, r1: seq<nat>, c: nat)
    requires Coarser(r0, r1) && c < |r0| && SharesAll(r0, c)
    ensures SharesAll(r1, c)
  {
    forall j | 0 <= j < |r1| ensures r1[j] == r1[c] {
      assert r1[j] == r1[r0[j]] && r1[c] == r1[r0[c]];
    }
  }

  /** Catch-alls below i share a root with every route. */
  ghost predicate CatchAllsJoined(hx: Hosts, routes: seq<Route>, i: nat, root: seq<nat>) {
    |root| == |routes| && forall c :: 0 <= c < i && c < |routes| && AllBlank(hx, routes[c].hosts) ==> SharesAll(root, c)
  }

  lemma CatchAllsStayJoined(hx: Hosts, routes: seq<Route>, i: nat, r0: seq<nat>, r1: seq<nat>)
    requires CatchAllsJoined(hx, routes, i, r0) && Coarser(r0, r1)
    ensures CatchAllsJoined(hx, routes, i, r1)
  {
    forall c | 0 <= c < i && c < |routes| && AllBlank(hx, routes[c].hosts) ensures SharesAll(r1, c) {
      SharesAllKept(r0, r1, c);
    }
  }

  /** The loop over the routes: fills the host index and joins the catch-alls. */
  method IndexHosts(hx: Hosts, routes: seq<Route>, uf: UnionFind)
    returns (byHost: map<string, seq<nat>>, hosts: seq<string>)
    requires uf.Valid() && uf.g == Collisions(hx, routes)
    modifies uf, uf.parent
    ensures uf.Valid() && CatchAllsJoined(hx, routes, |routes|, uf.root)
    ensures Lists(hx, routes, |routes|, byHost) && (forall h :: h in byHost <==> h in hosts)
    ensures forall x :: 0 <= x < |routes| ==> ListedUnder(hx, routes[x].hosts, x, byHost)
  {
    byHost, hosts := map[], [];
    for i := 0 to |routes|
      invariant uf.Valid() && CatchAllsJoined(hx, routes, i, uf.root)
      invariant Lists(hx, routes, i, byHost) && (forall h :: h in byHost <==> h in hosts)
      invariant forall x :: 0 <= x < i ==> ListedUnder(hx, routes[x].hosts, x, byHost)
    {
      var n;
      ghost var before := byHost;
      byHost, hosts, n := IndexRoute(hx, routes, i, byHost, hosts);
      forall x | 0 <= x < i ensures ListedUnder(hx, routes[x].hosts, x, byHost) {
        assert ListedUnder(hx, routes[x].hosts, x, before);
      }
      if n == 0 {
        JoinCatchAll(hx, routes, uf, i);
      }
    }
  }

  method JoinCatchAll(hx: Hosts, routes: seq<Route>, uf: UnionFind, i: nat)
    requires uf.Valid() && uf.g == Collisions(hx, routes) && i < |routes| && AllBlank(hx, routes[i].hosts)
    requires CatchAllsJoined(hx, routes, i, uf.root)
    modifies uf, uf.parent
    ensures uf.Valid() && CatchAllsJoined(hx, routes, i + 1, uf.root)
  {
    var all := seq(|routes|, j => j);
    forall j | 0 <= j < |routes| ensures Connected(uf.g, i, j) {
      EdgeConnects(uf.g, i, j);
    }
    ghost var before := uf.root;
    UniteAll(uf, i, all);
    CatchAllsStayJoined(hx, routes, i, before, uf.root);
    forall j | 0 <= j < |routes| ensures uf.root[j] == uf.root[i] {
      assert all[j] == j;
    }
  }

  /** All routes listed under h share a root. */
  ghost predicate HostJoined(l: seq<nat>, root: seq<nat>) {
    l != [] && l[0] < |root| && forall t :: 0 <= t < |l| ==> l[t] < |root| && root[l[t]] == root[l[0]]
  }

  lemma HostStaysJoined(l: seq<nat>, r0: seq<nat>, r1: seq<nat>)
    requires HostJoined(l, r0) && Coarser(r0, r1)
    ensures HostJoined(l, r1)
  {
    forall t | 0 <= t < |l| ensures r1[l[t]] == r1[l[0]] {
      assert r1[l[t]] == r1[r0[l[t]]] && r1[l[0]] == r1[r0[l[0]]];
    }
  }

  lemma SharedHostConnects(hx: Hosts, routes: seq<Route>, h: string, l: seq<nat>, t: nat)
    requires ListOk(hx, routes, |routes|, h, l) && t < |l|
    ensures Connected(Collisions(hx, routes), l[0], l[t])
  {
    assert Meet(hx, routes[l[0]].hosts, routes[l[t]].hosts, h, h);
    EdgeConnects(Collisions(hx, routes), l[0], l[t]);
  }

  /** Unites the routes listed under one host. */
  method JoinHost(hx: Hosts, routes: seq<Route>, uf: UnionFind, h: string, l: seq<nat>)
    requires uf.Valid() && uf.g == Collisions(hx, routes) && ListOk(hx, routes, |routes|, h, l)
    modifies uf, uf.parent
    ensures uf.Valid() && Coarser(old(uf.root), uf.root) && HostJoined(l, uf.root)
  {
    forall t | 0 <= t < |l[1..]| ensures l[1..][t] < |routes| && Connected(uf.g, l[0], l[1..][t]) {
      SharedHostConnects(hx, routes, h, l, t + 1);
    }
    UniteAll(uf, l[0], l[1..]);
    assert forall t :: 1 <= t < |l| ==> l[t] == l[1..][t - 1];
  }

  /** The loop over the host index, in any order. */
  method JoinSharedHosts(hx: Hosts, routes: seq<Route>, uf: UnionFind, byHost: map<string, seq<nat>>)
    requires uf.Valid() && uf.g == Collisions(hx, routes) && Lists(hx, routes, |routes|, byHost)
    modifies uf, uf.parent
    ensures uf.Valid() && Coarser(old(uf.root), uf.root)
    ensures forall h :: h in byHost ==> HostJoined(byHost[h], uf.root)
  {
    RootsAreRoots(uf.parent[..], uf.root, uf.depth);
    var todo := byHost.Keys;
    while todo != {}
      invariant todo <= byHost.Keys && uf.Valid() && Coarser(old(uf.root), uf.root)
      invariant forall h :: h in byHost && h !in todo ==> HostJoined(byHost[h], uf.root)
      decreases |todo|
    {
      var h :| h in todo;
      todo := todo - {h};
      ghost var before := uf.root;
      JoinHost(hx, routes, uf, h, byHost[h]);
      CoarserOn(old(uf.root), before, uf.root);
      forall g | g in byHost && g !in todo && g != h ensures HostJoined(byHost[g], uf.root) {
        HostStaysJoined(byHost[g], before, uf.root);
      }
    }
  }

  /** If the hosts at a and b overlap, their first routes share a root. */
  ghost predicate PairJoined(
    hx: Hosts, hosts: seq<string>, byHost: map<string, seq<nat>>, root: seq<nat>, a: nat, b: nat)
    requires a < |hosts| && b < |hosts| && forall h :: h in hosts ==> h in byHost
  {
    var la, lb := byHost[hosts[a]], byHost[hosts[b]];
    hx.overlap(hosts[a], hosts[b]) ==>
      la != [] && lb != [] && la[0] < |root| && lb[0] < |root| && root[la[0]] == root[lb[0]]
  }

  lemma PairStaysJoined(
    hx: Hosts, hosts: seq<string>, byHost: map<string, seq<nat>>, r0: seq<nat>, r1: seq<nat>, a: nat, b: nat)
    requires a < |hosts| && b < |hosts| && forall h :: h in hosts ==> h in byHost
    requires PairJoined(hx, hosts, byHost, r0, a, b) && Coarser(r0, r1)
    ensures PairJoined(hx, hosts, byHost, r1, a, b)
  {
  }

  ghost predicate JoinedBelow(
    hx: Hosts, hosts: seq<string>, byHost: map<string, seq<nat>>, root: seq<nat>, a: nat, j: nat)
    requires a < |hosts| && forall h :: h in hosts ==> h in byHost
  {
    j <= |hosts| && forall b :: a < b < j ==> PairJoined(hx, hosts, byHost, root, a, b)
  }

  lemma OneMoreJoined(
    hx: Hosts, hosts: seq<string>, byHost: map<string, seq<nat>>, r0: seq<nat>, r1: seq<nat>, a: nat, j: nat)
    requires a < j < |hosts| && forall h :: h in hosts ==> h in byHost
    requires JoinedBelow(hx, hosts, byHost, r0, a, j) && Coarser(r0, r1)
    requires PairJoined(hx, hosts, byHost, r1, a, j)
    ensures JoinedBelow(hx, hosts, byHost, r1, a, j + 1)
  {
    forall b | a < b < j ensures PairJoined(hx, hosts, byHost, r1, a, b) {
      PairStaysJoined(hx, hosts, byHost, r0, r1, a, b);
    }
  }

  lemma OverlapConnects(hx: Hosts, routes: seq<Route>, x: string, y: string, lx: seq<nat>, ly: seq<nat>)
    requires ListOk(hx, routes, |routes|, x, lx) && ListOk(hx, routes, |routes|, y, ly) && hx.overlap(x, y)
    ensures lx[0] < |routes| && ly[0] < |routes| && Connected(Collisions(hx, routes), lx[0], ly[0])
  {
    assert Meet(hx, routes[lx[0]].hosts, routes[ly[0]].hosts, x, y);
    EdgeConnects(Collisions(hx, routes), lx[0], ly[0]);
  }

  /** Unites the first routes of two hosts that overlap. */
  method JoinPair(
    hx: Hosts, routes: seq<Route>, uf: UnionFind, byHost: map<string, seq<nat>>, hosts: seq<string>, a: nat, b: nat)
    requires uf.Valid() && uf.g == Collisions(hx, routes) && Lists(hx, routes, |routes|, byHost)
    requires a < |hosts| && b < |hosts| && forall h :: h in hosts ==> h in byHost
    modifies uf, uf.parent
    ensures uf.Valid() && Coarser(old(uf.root), uf.root)
    ensures PairJoined(hx, hosts, byHost, uf.root, a, b)
  {
    if hx.overlap(hosts[a], hosts[b]) {
      assert ListOk(hx, routes, |routes|, hosts[a], byHost[hosts[a]]);
      assert ListOk(hx, routes, |routes|, hosts[b], byHost[hosts[b]]);
      OverlapConnects(hx, routes, hosts[a], hosts[b], byHost[hosts[a]], byHost[hosts[b]]);
      uf.Union(byHost[hosts[a]][0], byHost[hosts[b]][0]);
    } else {
      RootsAreRoots(uf.parent[..], uf.root, uf.depth);
    }
  }

  /** One turn of the double loop: host a against all later hosts. */
  method JoinOverlapsOf(
    hx: Hosts, routes: seq<Route>, uf: UnionFind, byHost: map<string, seq<nat>>, hosts: seq<string>, a: nat)
    requires uf.Valid() && uf.g == Collisions(hx, routes) && Lists(hx, routes, |routes|, byHost)
    requires a < |hosts| && forall h :: h in hosts ==> h in byHost
    modifies uf, uf.parent
    ensures uf.Valid() && Coarser(old(uf.root), uf.root)
    ensures forall b :: a < b < |hosts| ==> PairJoined(hx, hosts, byHost, uf.root, a, b)
  {
    RootsAreRoots(uf.parent[..], uf.root, uf.depth);
    for j := a + 1 to |hosts|
      invariant uf.Valid() && Coarser(old(uf.root), uf.root)
      invariant JoinedBelow(hx, hosts, byHost, uf.root, a, j)
    {
      ghost var before := uf.root;
      JoinPair(hx, routes, uf, byHost, hosts, a, j);
      CoarserOn(old(uf.root), before, uf.root);
      OneMoreJoined(hx, hosts, byHost, before, uf.root, a, j);
    }
  }

  method JoinOverlaps(hx: Hosts, routes: seq<Route>, uf: UnionFind, byHost: map<string, seq<nat>>, hosts: seq<string>)
    requires uf.Valid() && uf.g == Collisions(hx, routes) && Lists(hx, routes, |routes|, byHost)
    requires forall h :: h in hosts ==> h in byHost
    modifies uf, uf.parent
    ensures uf.Valid() && Coarser(old(uf.root), uf.root)
    ensures forall a, b :: 0 <= a < b < |hosts| ==> PairJoined(hx, hosts, byHost, uf.root, a, b)
  {
    RootsAreRoots(uf.parent[..], uf.root, uf.depth);
    for i := 0 to |hosts|
      invariant uf.Valid() && Coarser(old(uf.root), uf.root)
      invariant forall a, b :: 0 <= a < i && a < b < |hosts| ==> PairJoined(hx, hosts, byHost, uf.root, a, b)
    {
      ghost var before := uf.root;
      JoinOverlapsOf(hx, routes, uf, byHost, hosts, i);
      CoarserOn(old(uf.root), before, uf.root);
      forall a, b | 0 <= a < i && a < b < |hosts| ensures PairJoined(hx, hosts, byHost, uf.root, a, b) {
        PairStaysJoined(hx, hosts, byHost, before, uf.root, a, b);
      }
    }
  }

  /** After the three loops touching routes share a root. */
  lemma TouchingShareRoot(
    hx: Hosts, routes: seq<Route>, byHost: map<string, seq<nat>>, hosts: seq<string>, root: seq<nat>, i: nat, j: nat)
    requires Symmetric(hx) && i < |routes| && j < |routes| && Touches(hx, routes[i], routes[j])
    requires CatchAllsJoined(hx, routes, |routes|, root)
    requires forall x :: 0 <= x < |routes| ==> ListedUnder(hx, routes[x].hosts, x, byHost)
    requires forall h :: h in byHost <==> h in hosts
    requires forall h :: h in byHost ==> HostJoined(byHost[h], root)
    requires forall a, b :: 0 <= a < b < |hosts| ==> PairJoined(hx, hosts, byHost, root, a, b)
    ensures root[i] == root[j]
  {
    if AllBlank(hx, routes[i].hosts) {
      assert SharesAll(root, i);
    } else if AllBlank(hx, routes[j].hosts) {
      assert SharesAll(root, j);
    } else {
      var x, y :| Meet(hx, routes[i].hosts, routes[j].hosts, x, y);
      assert ListedUnder(hx, routes[i].hosts, i, byHost) && ListedUnder(hx, routes[j].hosts, j, byHost);
      assert HostJoined(byHost[x], root) && HostJoined(byHost[y], root);
      assert root[i] == root[byHost[x][0]] && root[j] == root[byHost[y][0]];
      if x != y {
        var a :| 0 <= a < |hosts| && hosts[a] == x;
        var b :| 0 <= b < |hosts| && hosts[b] == y;
        if a < b {
          assert PairJoined(hx, hosts, byHost, root, a, b);
        } else {
          assert PairJoined(hx, hosts, byHost, root, b, a);
        }
      }
    }
  }

  /** The union-find groups are exactly the connected components. */
  method FindComponents(hx: Hosts, routes: seq<Route>) returns (uf: UnionFind)
    requires Symmetric(hx)
    ensures fresh(uf) && fresh(uf.parent) && uf.Valid() && uf.g == Collisions(hx, routes)
    ensures forall i, j :: 0 <= i < |routes| && 0 <= j < |routes| ==>
              (uf.root[i] == uf.root[j] <==> Connected(uf.g, i, j))
  {
    ghost var g := Collisions(hx, routes);
    uf := new UnionFind(|routes|, g.touch);
    var byHost, hosts := IndexHosts(hx, routes, uf);
    ghost var r0 := uf.root;
    JoinSharedHosts(hx, routes, uf, byHost);
    ghost var r1 := uf.root;
    CatchAllsStayJoined(hx, routes, |routes|, r0, r1);
    JoinOverlaps(hx, routes, uf, byHost, hosts);
    ghost var r2 := uf.root;
    CatchAllsStayJoined(hx, routes, |routes|, r1, r2);
    forall h | h in byHost ensures HostJoined(byHost[h], r2) {
      HostStaysJoined(byHost[h], r1, r2);
    }
    forall i, j | 0 <= i < g.n && 0 <= j < g.n && g.touch(i, j) ensures r2[i] == r2[j] {
      TouchingShareRoot(hx, routes, byHost, hosts, r2, i, j);
    }
    forall i, j | 0 <= i < |routes| && 0 <= j < |routes| ensures r2[i] == r2[j] <==> Connected(g, i, j) {
      RootsAreComponents(g, r2, i, j);
    }
  }

  // ---------------------------------------------------------------- the program: sorting

  ghost predicate Sorted(ranks: seq<Rank>, s: seq<nat>)
    requires Indices(s, |ranks|)
  {
    forall a, b :: 0 <= a < b < |s| ==> Before(ranks, s[a], s[b])
  }

  ghost predicate Ascending(s: seq<nat>) {
    forall a, b :: 0 <= a < b < |s| ==> s[a] < s[b]
  }

  /** One insertion of the stable sort: x comes after everything it is not less than. */
  method Insert(ranks: seq<Rank>, s: seq<nat>, x: nat) returns (r: seq<nat>)
    requires x < |ranks| && Indices(s, |ranks|) && Sorted(ranks, s)
    requires forall k :: 0 <= k < |s| ==> s[k] < x
    ensures |r| == |s| + 1 && Indices(r, |ranks|) && Sorted(ranks, r)
    ensures forall y :: y in r <==> y in s || y == x
  {
    var p := |s|;
    while p > 0 && Less(ranks[x], ranks[s[p - 1]])
      invariant 0 <= p <= |s|
      invariant forall k :: p <= k < |s| ==> Before(ranks, x, s[k])
    {
      p := p - 1;
    }
    forall k | 0 <= k < p ensures Before(ranks, s[k], x) {
      if k < p - 1 {
        BeforeOn(ranks, s[k], s[p - 1], x);
      }
    }
    r := Spliced(s, p, x);
    SplicedIsSorted(ranks, s, p, x);
    SplicedHolds(s, p, x);
  }

  function Spliced(s: seq<nat>, p: nat, x: nat): (r: seq<nat>)
    requires p <= |s|
    ensures |r| == |s| + 1
  {
    s[..p] + [x] + s[p..]
  }

  lemma SplicedAt(s: seq<nat>, p: nat, x: nat, k: nat)
    requires p <= |s| && k <= |s|
    ensures Spliced(s, p, x)[k] == if k < p then s[k] else if k == p then x else s[k - 1]
  {
  }

  lemma SplicedIsSorted(ranks: seq<Rank>, s: seq<nat>, p: nat, x: nat)
    requires p <= |s| && x < |ranks| && Indices(s, |ranks|) && Sorted(ranks, s)
    requires forall k :: 0 <= k < p ==> Before(ranks, s[k], x)
    requires forall k :: p <= k < |s| ==> Before(ranks, x, s[k])
    ensures Indices(Spliced(s, p, x), |ranks|) && Sorted(ranks, Spliced(s, p, x))
  {
    var r := Spliced(s, p, x);
    forall k | 0 <= k < |r| ensures r[k] < |ranks| {
      SplicedAt(s, p, x, k);
    }
    forall a, b | 0 <= a < b < |r| ensures Before(ranks, r[a], r[b]) {
      SplicedAt(s, p, x, a);
      SplicedAt(s, p, x, b);
    }
  }

  lemma SplicedHolds(s: seq<nat>, p: nat, x: nat)
    requires p <= |s|
    ensures forall y :: y in Spliced(s, p, x) <==> y in s || y == x
  {
    assert s == s[..p] + s[p..];
  }

  lemma BeforeOn(ranks: seq<Rank>, i: nat, j: nat, k: nat)
    requires i < |ranks| && j < |ranks| && k < |ranks|
    requires Before(ranks, i, j) && Before(ranks, j, k)
    ensures Before(ranks, i, k)
  {
  }

  /** sort.SliceStable on the members of a group. */
  method StableSort(ranks: seq<Rank>, slots: seq<nat>) returns (members: seq<nat>)
    requires Indices(slots, |ranks|) && Ascending(slots)
    ensures |members| == |slots| && Indices(members, |ranks|) && Sorted(ranks, members)
    ensures forall y :: y in members <==> y in slots
  {
    members := [];
    for k := 0 to |slots|
      invariant |members| == k && Indices(members, |ranks|) && Sorted(ranks, members)
      invariant forall y :: y in members <==> y in slots[..k]
    {
      assert slots[..k + 1] == slots[..k] + [slots[k]];
      forall t | 0 <= t < |members| ensures members[t] < slots[k] {
        assert members[t] in slots[..k];
      }
      members := Insert(ranks, members, slots[k]);
    }
    assert slots[..|slots|] == slots;
  }

  /** The indices below n whose root is r, ascending. */
  ghost function Slots(root: seq<nat>, n: nat, r: nat): (s: seq<nat>)
    requires n <= |root|
    ensures Ascending(s) && Indices(s, n)
    ensures forall i: nat :: i < |root| ==> (i in s <==> i < n && root[i] == r)
  {
    if n == 0 then []
    else
      var s := Slots(root, n - 1, r);
      if root[n - 1] == r then s + [n - 1] else s
  }

  /** Some slot of the group of r is filled by i. */
  ghost predicate HoldsInGroup(order: seq<nat>, root: seq<nat>, r: nat, i: nat)
    requires |order| == |root|
  {
    exists s :: 0 <= s < |order| && root[s] == r && order[s] == i
  }

  /** Within the group of r the order is a sorted permutation of the group's own slots. */
  ghost predicate GroupDone(ranks: seq<Rank>, order: seq<nat>, root: seq<nat>, r: nat)
    requires |order| == |ranks| == |root|
  {
    && (forall s {:trigger order[s]} :: 0 <= s < |order| && root[s] == r ==> order[s] < |ranks| && root[order[s]] == r)
    && (forall i {:trigger HoldsInGroup(order, root, r, i)} ::
          0 <= i < |ranks| && root[i] == r ==> HoldsInGroup(order, root, r, i))
    && (forall s, t {:trigger order[s], order[t]} :: 0 <= s < t < |order| && root[s] == r && root[t] == r ==>
          order[s] < |ranks| && order[t] < |ranks| && Before(ranks, order[s], order[t]))
  }

  lemma PlacedGroupIsDone(
    ranks: seq<Rank>, order: seq<nat>, root: seq<nat>, r: nat, slots: seq<nat>, members: seq<nat>)
    requires |order| == |ranks| == |root| && slots == Slots(root, |root|, r)
    requires |members| == |slots| && Indices(members, |ranks|) && Sorted(ranks, members)
    requires forall y :: y in members <==> y in slots
    requires forall k :: 0 <= k < |slots| ==> order[slots[k]] == members[k]
    ensures GroupDone(ranks, order, root, r)
  {
    forall s | 0 <= s < |order| && root[s] == r ensures order[s] < |ranks| && root[order[s]] == r {
      assert s in slots;
      var k :| 0 <= k < |slots| && slots[k] == s;
      assert members[k] in slots;
    }
    forall i | 0 <= i < |ranks| && root[i] == r ensures HoldsInGroup(order, root, r, i) {
      assert i in slots && i in members;
      var k :| 0 <= k < |members| && members[k] == i;
      assert slots[k] in slots;
    }
    forall s, t | 0 <= s < t < |order| && root[s] == r && root[t] == r ensures Before(ranks, order[s], order[t]) {
      assert s in slots && t in slots;
      var a :| 0 <= a < |slots| && slots[a] == s;
      var b :| 0 <= b < |slots| && slots[b] == t;
      AscendingIndex(slots, a, b);
    }
  }

  lemma AscendingIndex(s: seq<nat>, a: nat, b: nat)
    requires Ascending(s) && a < |s| && b < |s| && s[a] < s[b]
    ensures a < b
  {
  }

  /** Sorts one group and writes it back into its slots. */
  method PlaceGroup(ranks: seq<Rank>, order: array<nat>, slots: seq<nat>, ghost root: seq<nat>, ghost r: nat)
    requires order.Length == |ranks| == |root| && slots == Slots(root, |root|, r)
    requires forall k :: 0 <= k < |slots| ==> order[slots[k]] == slots[k]
    modifies order
    ensures GroupDone(ranks, order[..], root, r)
    ensures forall s :: 0 <= s < order.Length && root[s] != r ==> order[s] == old(order[s])
  {
    if |slots| < 2 {
      assert Sorted(ranks, slots);
      PlacedGroupIsDone(ranks, order[..], root, r, slots, slots);
      return;
    }
    assert forall k :: 0 <= k < |slots| ==> slots[k] in slots;
    var members := StableSort(ranks, slots);
    for k := 0 to |slots|
      invariant forall j :: 0 <= j < k ==> order[slots[j]] == members[j]
      invariant forall s :: 0 <= s < order.Length && root[s] != r ==> order[s] == old(order[s])
    {
      order[slots[k]] := members[k];
    }
    PlacedGroupIsDone(ranks, order[..], root, r, slots, members);
  }

  lemma DoneKept(ranks: seq<Rank>, o: seq<nat>, o': seq<nat>, root: seq<nat>, r: nat)
    requires |o| == |o'| == |ranks| == |root| && GroupDone(ranks, o, root, r)
    requires forall s :: 0 <= s < |o| && root[s] == r ==> o[s] == o'[s]
    ensures GroupDone(ranks, o', root, r)
  {
    forall i | 0 <= i < |ranks| && root[i] == r ensures HoldsInGroup(o', root, r, i) {
      assert HoldsInGroup(o, root, r, i);
      var s :| 0 <= s < |o| && root[s] == r && o[s] == i;
      assert o'[s] == i;
    }
  }

  /** The group of r lists its slots below n; an empty group is absent. */
  ghost predicate GroupOk(groups: map<nat, seq<nat>>, root: seq<nat>, n: nat, r: nat)
    requires n <= |root|
  {
    if r in groups then groups[r] == Slots(root, n, r) && groups[r] != [] else Slots(root, n, r) == []
  }

  /** Groups the routes by root, each group's slots ascending. */
  method GroupByRoot(n: nat, uf: UnionFind) returns (groups: map<nat, seq<nat>>)
    requires uf.Valid() && uf.g.n == n
    modifies uf.parent
    ensures uf.Valid()
    ensures forall r :: GroupOk(groups, uf.root, n, r)
  {
    groups := map[];
    for i := 0 to n
      invariant uf.Valid()
      invariant forall r :: GroupOk(groups, uf.root, i, r)
    {
      ghost var before := groups;
      var root := uf.Find(i);
      assert GroupOk(before, uf.root, i, root);
      var l := if root in groups then groups[root] else [];
      groups := groups[root := l + [i]];
      ghost var next := i + 1;
      forall r ensures GroupOk(groups, uf.root, next, r) {
        assert GroupOk(before, uf.root, i, r);
      }
    }
  }

  /** Sorts every group, in any order. */
  method PlaceGroups(ranks: seq<Rank>, order: array<nat>, groups: map<nat, seq<nat>>, ghost root: seq<nat>)
    requires order.Length == |ranks| == |root|
    requires forall i :: 0 <= i < order.Length ==> order[i] == i
    requires forall r :: GroupOk(groups, root, |root|, r)
    modifies order
    ensures forall r :: r in groups ==> GroupDone(ranks, order[..], root, r)
  {
    var todo := groups.Keys;
    while todo != {}
      invariant todo <= groups.Keys
      invariant forall i :: 0 <= i < order.Length && root[i] in todo ==> order[i] == i
      invariant forall r :: r in groups && r !in todo ==> GroupDone(ranks, order[..], root, r)
      decreases |todo|
    {
      var r :| r in todo;
      todo := todo - {r};
      ghost var before := order[..];
      assert GroupOk(groups, root, |root|, r);
      var slots := groups[r];
      assert forall k :: 0 <= k < |slots| ==> slots[k] in slots;
      PlaceGroup(ranks, order, slots, root, r);
      forall q | q in groups && q !in todo && q != r ensures GroupDone(ranks, order[..], root, q) {
        DoneKept(ranks, before, order[..], root, q);
      }
    }
  }

  lemma DoneInSlot(same: (nat, nat) -> bool, ranks: seq<Rank>, order: seq<nat>, root: seq<nat>, s: nat)
    requires |order| == |ranks| == |root| && s < |root|
    requires GroupDone(ranks, order, root, root[s])
    requires forall j :: 0 <= j < |root| ==> (root[s] == root[j] <==> same(s, j))
    ensures order[s] < |ranks| && same(s, order[s]) && Placed(order, s)
    ensures forall t {:trigger order[t]} :: s < t < |order| && same(s, t) ==>
              order[t] < |ranks| && Before(ranks, order[s], order[t])
  {
    assert HoldsInGroup(order, root, root[s], s);
  }

  lemma AllDoneIsSorted(same: (nat, nat) -> bool, ranks: seq<Rank>, order: seq<nat>, root: seq<nat>)
    requires |order| == |ranks| == |root|
    requires forall s {:trigger GroupDone(ranks, order, root, root[s])} ::
               0 <= s < |root| ==> GroupDone(ranks, order, root, root[s])
    requires forall i, j :: 0 <= i < |root| && 0 <= j < |root| ==> (root[i] == root[j] <==> same(i, j))
    ensures SortedWithin(same, ranks, order)
  {
    forall s | 0 <= s < |order|
      ensures order[s] < |ranks| && same(s, order[s]) && Placed(order, s)
      ensures forall t {:trigger order[t]} :: s < t < |order| && same(s, t) ==>
                order[t] < |ranks| && Before(ranks, order[s], order[t])
    {
      assert GroupDone(ranks, order, root, root[s]);
      DoneInSlot(same, ranks, order, root, s);
    }
    forall s, t | 0 <= s < t < |order| ensures order[s] != order[t] {
      assert GroupDone(ranks, order, root, root[s]) && GroupDone(ranks, order, root, root[t]);
      DistinctSlots(ranks, order, root, s, t);
    }
  }

  lemma DistinctSlots(ranks: seq<Rank>, order: seq<nat>, root: seq<nat>, s: nat, t: nat)
    requires |order| == |ranks| == |root| && s < t < |order|
    requires GroupDone(ranks, order, root, root[s]) && GroupDone(ranks, order, root, root[t])
    ensures order[s] != order[t]
  {
  }

  /** EmissionOrder */
  method EmissionOrder(hx: Hosts, routes: seq<Route>) returns (order: array<nat>)
    requires Symmetric(hx)
    ensures fresh(order) && Emission(hx, routes, order[..])
  {
    order := new nat[|routes|](i => i);
    ghost var g := Collisions(hx, routes);
    if |routes| < 2 {
      forall i | 0 <= i < |routes| ensures Connected(g, i, i) && Placed(order[..], i) {
        ConnectedToItself(g, i);
        assert order[..][i] == i;
      }
      return;
    }
    var uf := FindComponents(hx, routes);
    var groups := GroupByRoot(|routes|, uf);
    PlaceGroups(Ranks(routes), order, groups, uf.root);
    forall s | 0 <= s < |uf.root| ensures GroupDone(Ranks(routes), order[..], uf.root, uf.root[s]) {
      assert GroupOk(groups, uf.root, |uf.root|, uf.root[s]);
      assert s in Slots(uf.root, |uf.root|, uf.root[s]);
    }
    AllDoneIsSorted(Together(hx, routes), Ranks(routes), order[..], uf.root);
  }

  ghost predicate Reordered(routes: seq<Route>, order: seq<nat>, out: seq<Route>) {
    |out| == |order| && Indices(order, |routes|) && forall k :: 0 <= k < |out| ==> out[k] == routes[order[k]]
  }

  /** SortRoutesForEmission */
  method SortRoutesForEmission(idna: Idna, routes: seq<Route>) returns (out: seq<Route>)
    ensures exists order :: Emission(CaddyHosts(idna), routes, order) && Reordered(routes, order, out)
  {
    CaddyHostsAreSymmetric(idna);
    var o := EmissionOrder(CaddyHosts(idna), routes);
    out := [];
    for k := 0 to o.Length
      invariant |out| == k && forall j :: 0 <= j < k ==> out[j] == routes[o[j]]
    {
      out := out + [routes[o[k]]];
    }
    assert Reordered(routes, o[..], out);
  }
}
