/**
  What a route record declares, stated without looking at what BuildRoute emits, and when the
  compiled tree enforces it (internal/caddyapi/route.go). Three declared gates are not always
  emitted, the bearer gate is a header pattern, and the WebSocket gate goes by one spelling; each has
  its exact condition.
 */
module RoutePolicy {
  import opened Wrappers
  import opened Strings
  import opened RouteModel
  import opened HandlerTree
  import opened RouteCompiler
  import opened RouteOutcome

  // ---------------------------------------------------------------- declared gates

  /** Certificate roles are required on some path. */
  predicate DeclaresRoles(r: Route) {
    r.mtlsPathRules > 0
  }

  predicate RolesHold(r: Route, w: World, q: Req) {
    DeclaresRoles(r) ==> Confirmed(w, Rbac(r.panelUrl), q)
  }

  /** The accounts that may log in: the list, or else the single user. */
  function DeclaredAccounts(r: Route): seq<Account> {
    if r.basicUsers != [] then r.basicUsers
    else if r.basicUser != "" then [Account(r.basicUser, r.basicHash)]
    else []
  }

  predicate PasswordHolds(r: Route, w: World, q: Req) {
    DeclaredAccounts(r) != [] ==> w.authenticates(DeclaredAccounts(r), q)
  }

  predicate RateHolds(r: Route, w: World, q: Req) {
    r.rateLimit ==> w.underLimit(q)
  }

  predicate WafHolds(r: Route, w: World, q: Req) {
    r.waf && r.wafBlocking ==> w.wafPasses(q) || (r.wafFailOpen && !r.wafModule)
  }

  /** v[i..j] is one of the comma-separated parts of v. */
  predicate IsPart(v: string, i: nat, j: nat) {
    && i <= j <= |v|
    && (i == 0 || v[i - 1] == ',') && (j == |v| || v[j] == ',')
    && ',' !in v[i..j]
  }

  /** A Connection header lists the upgrade option, whose name ignores case (section 7.6.1 of
      RFC 9110). */
  predicate WantsUpgrade(connection: Option<string>) {
    && connection.Some?
    && exists i, j :: 0 <= i <= j <= |connection.value| && OptionAt(connection.value, i, j, "upgrade")
  }

  predicate OptionAt(v: string, i: nat, j: nat, name: string) {
    IsPart(v, i, j) && EqualFold(TrimSpace(v[i..j]), name)
  }

  predicate UpgradeHolds(r: Route, q: Req) {
    !r.webSocket ==> !WantsUpgrade(q.connection)
  }

  /** An external route with a secret is for callers that show it. */
  predicate BearerHolds(r: Route, q: Req) {
    r.external && r.proxySecret != "" ==> q.authorization == Some("Bearer " + r.proxySecret)
  }

  function Identified(r: Route, w: World, q: Req): Req {
    if DeclaresRoles(r) then q.(subject := Some(w.certSubject)) else q
  }

  /** The declared policy of a proxy route, without its word on upgrades. A location rule without a
      path, a redirect rule without a target and a country mode without countries declare nothing. */
  predicate DeclaredApart(r: Route, w: World, q: Req) {
    var q0 := Arrived(r, w, q);
    var qr := Identified(r, w, AfterCustom(r, w, q0));
    var qs := AfterSso(r, w, qr);
    && (r.forceHttps || r.requireClientCert ==> !w.cleartext)
    && !AddressBarred(r, w) && CertAdmits(r, w) && CidrAdmits(r, w) && GeoAdmits(r, w)
    && WafHolds(r, w, q0) && BearerHolds(r, q0) && FirstAnswering(r, w, q0).None? && RateHolds(r, w, q0)
    && RolesHold(r, w, qr) && SsoAdmits(r, w, qr) && PortalAdmits(r, w, qs) && PasswordHolds(r, w, qs)
  }

  predicate Declared(r: Route, w: World, q: Req) {
    DeclaredApart(r, w, q) && UpgradeHolds(r, AfterCustom(r, w, Arrived(r, w, q)))
  }

  // ---------------------------------------------------------------- gaps

  predicate RoleGap(r: Route) {
    DeclaresRoles(r) && r.panelUrl == ""
  }

  predicate PasswordGap(r: Route) {
    r.basicUsers == [] && r.basicUser != "" && r.basicHash == ""
  }

  predicate RateGap(r: Route) {
    r.rateLimit && !r.rateModule
  }

  /** The replacer or the header matcher reads more into the secret than its text. */
  predicate BearerGap(r: Route) {
    r.external && r.proxySecret != "" && ('{' in r.proxySecret || r.proxySecret[|r.proxySecret| - 1] == '*')
  }

  predicate FullyEmitted(r: Route) {
    !RoleGap(r) && !PasswordGap(r) && !RateGap(r) && !BearerGap(r)
  }

  predicate HoldsAt(v: string, i: nat, j: nat, text: string) {
    IsPart(v, i, j) && Contains(v[i..j], text)
  }

  /** Some part of the header has "Upgrade" in it. */
  predicate NamesUpgrade(connection: Option<string>) {
    && connection.Some?
    && exists i, j :: 0 <= i <= j <= |connection.value| && HoldsAt(connection.value, i, j, "Upgrade")
  }

  /** Some part is the upgrade option exactly when some part has "Upgrade" in it. */
  predicate SpelledOut(r: Route, q: Req) {
    !r.webSocket ==> (WantsUpgrade(q.connection) <==> NamesUpgrade(q.connection))
  }

  predicate Serves(r: Route) {
    !Withheld(r) && !r.redirect
  }

  /** The shared cache answers the request. */
  predicate Cached(r: Route, w: World, q: Req) {
    Shareable(r, q) && w.cached(q)
  }

  // ---------------------------------------------------------------- headers by parts

  lemma {:induction false} FoundAt(v: string, text: string, k: nat)
    requires k + |text| <= |v| && v[k..k + |text|] == text
    ensures Contains(v, text)
    decreases k
  {
    if k > 0 {
      assert v[1..][k - 1..k - 1 + |text|] == v[k..k + |text|];
      FoundAt(v[1..], text, k - 1);
    }
  }

  lemma {:induction false} WhereFound(v: string, text: string) returns (k: nat)
    requires Contains(v, text)
    ensures k + |text| <= |v| && v[k..k + |text|] == text
    decreases |v|
  {
    if text <= v {
      k := 0;
    } else {
      k := WhereFound(v[1..], text);
      assert v[k + 1..k + 1 + |text|] == v[1..][k..k + |text|];
      k := k + 1;
    }
  }

  lemma {:induction false} ExtendLeft(v: string, i: nat, j: nat) returns (i': nat)
    requires i <= j <= |v| && ',' !in v[i..j]
    ensures i' <= i && (i' == 0 || v[i' - 1] == ',') && ',' !in v[i'..j]
    decreases i
  {
    i' := i;
    if i > 0 && v[i - 1] != ',' {
      assert v[i - 1..j] == [v[i - 1]] + v[i..j];
      i' := ExtendLeft(v, i - 1, j);
    }
  }

  lemma {:induction false} ExtendRight(v: string, i: nat, j: nat) returns (j': nat)
    requires i <= j <= |v| && ',' !in v[i..j]
    ensures j <= j' <= |v| && (j' == |v| || v[j'] == ',') && ',' !in v[i..j']
    decreases |v| - j
  {
    j' := j;
    if j < |v| && v[j] != ',' {
      assert v[i..j + 1] == v[i..j] + [v[j]];
      j' := ExtendRight(v, i, j + 1);
    }
  }

  lemma SliceOfSlice(v: string, i: nat, j: nat, a: nat, b: nat)
    requires i <= j <= |v| && a <= b <= j - i
    ensures v[i..j][a..b] == v[i + a..i + b]
  {
    forall k | 0 <= k < b - a ensures v[i..j][a..b][k] == v[i + a..i + b][k] {
      assert v[i..j][a + k] == v[i + a + k];
    }
  }

  lemma InItsPart(v: string, text: string) returns (i: nat, j: nat)
    requires ',' !in text && Contains(v, text)
    ensures HoldsAt(v, i, j, text)
  {
    var k := WhereFound(v, text);
    i := ExtendLeft(v, k, k + |text|);
    j := ExtendRight(v, i, k + |text|);
    SliceOfSlice(v, i, j, k - i, k - i + |text|);
    FoundAt(v[i..j], text, k - i);
  }

  lemma PartIsInside(v: string, i: nat, j: nat, text: string)
    requires HoldsAt(v, i, j, text)
    ensures Contains(v, text)
  {
    var k := WhereFound(v[i..j], text);
    SliceOfSlice(v, i, j, k, k + |text|);
    FoundAt(v, text, i + k);
  }

  /** A text without a comma is in a header exactly when it is in one of its parts. */
  lemma InSomePart(v: string, text: string)
    requires ',' !in text
    ensures Contains(v, text) <==> exists i, j :: 0 <= i <= j <= |v| && HoldsAt(v, i, j, text)
  {
    if Contains(v, text) {
      var i, j := InItsPart(v, text);
    }
    if i, j :| 0 <= i <= j <= |v| && HoldsAt(v, i, j, text) {
      PartIsInside(v, i, j, text);
    }
  }

  /** For every header: the gate refuses it exactly when some part has "Upgrade" in it. So it lets an
      upgrade pass exactly when some part is the option, in any case, and none has "Upgrade" in it;
      and it refuses a request that asks for none exactly when some part has it and none is it. */
  lemma UpgradeRefusedExactly(r: Route, q: Req)
    requires !r.webSocket && !r.redirect
    ensures NoUpgrade(r, q) <==> !NamesUpgrade(q.connection)
    ensures NoUpgrade(r, q) && !UpgradeHolds(r, q) <==> WantsUpgrade(q.connection) && !NamesUpgrade(q.connection)
    ensures !NoUpgrade(r, q) && UpgradeHolds(r, q) <==> NamesUpgrade(q.connection) && !WantsUpgrade(q.connection)
  {
    if q.connection.Some? {
      assert ',' !in "Upgrade";
      InSomePart(q.connection.value, "Upgrade");
    }
  }

  // ---------------------------------------------------------------- the bearer

  /** The gate takes the exact bearer and nothing else. */
  ghost predicate BearerIsExact(r: Route, w: World, q: Req) {
    forall v :: BearerAdmits(r, w, q.(authorization := Some(v))) <==> v == "Bearer " + r.proxySecret
  }

  /** For a secret the replacer leaves alone: exactly when it does not end in a star, which the
      header matcher takes for a wildcard. */
  lemma BearerIsExactly(r: Route, w: World, q: Req)
    requires r.external && r.proxySecret != "" && '{' !in r.proxySecret
    ensures BearerIsExact(r, w, q) <==> !BearerGap(r)
  {
    var p := "Bearer " + r.proxySecret;
    assert '{' !in "Bearer ";
    assert p[0] == 'B' && p[|p| - 1] == r.proxySecret[|r.proxySecret| - 1];
    if p[|p| - 1] == '*' {
      var v := p[..|p| - 1];
      assert PatternMatches(p, v);
      assert BearerAdmits(r, w, q.(authorization := Some(v))) && v != p;
    }
  }

  lemma BearerIsDeclared(r: Route, w: World, q: Req)
    requires !BearerGap(r)
    ensures BearerAdmits(r, w, q) <==> BearerHolds(r, q)
  {
    if r.external && r.proxySecret != "" && q.authorization.Some? {
      BearerIsExactly(r, w, q);
      assert q.(authorization := Some(q.authorization.value)) == q;
    }
  }

  predicate Base64Url(c: char) {
    'a' <= c <= 'z' || 'A' <= c <= 'Z' || '0' <= c <= '9' || c == '-' || c == '_'
  }

  /** genProxySecret: a fixed tag, then URL-safe base64. */
  predicate Generated(secret: string) {
    && |secret| > 5 && secret[..5] == "hpgx_"
    && forall i :: 5 <= i < |secret| ==> Base64Url(secret[i])
  }

  lemma GeneratedHasNoGap(r: Route)
    requires Generated(r.proxySecret)
    ensures '{' !in r.proxySecret && !BearerGap(r)
  {
    var s := r.proxySecret;
    forall i | 0 <= i < |s| ensures s[i] != '{' {
      if i < 5 {
        assert s[i] == s[..5][i];
      }
    }
  }

  /** So for every generated secret the gate takes exactly that bearer. */
  lemma GeneratedBearerIsExact(r: Route, w: World, q: Req)
    requires r.external && Generated(r.proxySecret)
    ensures BearerIsExact(r, w, q)
  {
    GeneratedHasNoGap(r);
    BearerIsExactly(r, w, q);
  }

  // ---------------------------------------------------------------- the compiled tree

  lemma AdmitsIsDeclared(r: Route, w: World, q: Req)
    requires Serves(r) && FullyEmitted(r)
    ensures var q0 := Arrived(r, w, q);
            Admits(r, w, q) <==>
            DeclaredApart(r, w, q) && !Cached(r, w, q0) && NoUpgrade(r, AfterCustom(r, w, q0))
  {
    var q0 := Arrived(r, w, q);
    var qc := AfterCustom(r, w, q0);
    assert Identified(r, w, qc) == AfterRbac(r, w, qc);
    assert DeclaredAccounts(r) == Accounts(r);
    BearerIsDeclared(r, w, q0);
    NoRuleAnswers(r, w, q0);
  }

  /** For every route whose gates are all emitted and every request for it: the compiled tree dials
      the tenant's backend exactly when the route serves, the declared policy apart from upgrades
      admits the request, the cache does not answer it, and no part of the Connection header has
      "Upgrade" in it unless upgrades are allowed. What is declared of upgrades is what happens, too,
      exactly when the header is spelled out. */
  lemma ReachesBackendExactly(r: Route, w: World, q: Req)
    ensures IsFor(r, w, q) && !r.maintenance && FullyEmitted(r) ==>
              var f, q0 := RunAll(Handlers(r), w, q), Arrived(r, w, q);
              var open, qc := Serves(r) && DeclaredApart(r, w, q) && !Cached(r, w, q0), AfterCustom(r, w, q0);
              && (ReachesTenant(f) <==> open && (!r.webSocket ==> !NamesUpgrade(qc.connection)))
              && (open ==> ((ReachesTenant(f) <==> Declared(r, w, q)) <==> SpelledOut(r, qc)))
              && (ReachesTenant(f) ==> f == Proxied(Destination(r, w, Final(r, w, q))))
  {
    ReachesBackendAsEmitted(r, w, q);
    DestinationIsTarget(r, w, Final(r, w, q));
    if Serves(r) && FullyEmitted(r) {
      AdmitsIsDeclared(r, w, q);
      if !r.webSocket {
        UpgradeRefusedExactly(r, AfterCustom(r, w, Arrived(r, w, q)));
      }
    }
  }

  // ---------------------------------------------------------------- exactly when each gate is enforced

  /** The request reaches the tenant's backend. */
  predicate Reached(r: Route, w: World, q: Req) {
    IsFor(r, w, q) && !r.maintenance && ReachesTenant(RunAll(Handlers(r), w, q))
  }

  lemma CustomAlike(r: Route, w: World, w': World, q: Req)
    requires w'.reshape == w.reshape && w'.clientIp == w.clientIp
    ensures AfterCustom(r, w', Arrived(r, w', q)) == AfterCustom(r, w, Arrived(r, w, q))
  {
    if r.custom.Shaping? {
      ReshapedAlike(r.custom.handlers, w, w', Arrived(r, w, q));
    }
  }

  /** A world that admits a request also lets it through the compiled tree. */
  lemma AdmittedIsReached(r: Route, w: World, q: Req, w': World, q': Req)
    requires Reached(r, w, q) && w'.hostIs == w.hostIs && w'.pathIs == w.pathIs && Admits(r, w', q')
    requires q'.host == q.host && q'.path == q.path
    ensures Reached(r, w', q')
  {
    IsForMeans(r, w, q);
    IsForMeans(r, w', q');
    ReachesBackendAsEmitted(r, w, q);
    ReachesBackendAsEmitted(r, w', q');
  }

  /** The request the role check is about. */
  function AtRoles(r: Route, w: World, q: Req): Req {
    Identified(r, w, AfterCustom(r, w, Arrived(r, w, q)))
  }

  ghost predicate RolesEnforced(r: Route) {
    forall w, q :: Reached(r, w, q) ==> RolesHold(r, w, AtRoles(r, w, q))
  }

  /** The same world, but no certificate has a role. */
  function NoRoles(w: World): World {
    w.(verify := (t: Target, q: Req) => if t.Rbac? then None else w.verify(t, q))
  }

  lemma NoRolesChangesNothingElse(r: Route, w: World, q: Req)
    requires RoleGap(r) && Admits(r, w, q)
    ensures Admits(r, NoRoles(w), q)
  {
    CustomAlike(r, w, NoRoles(w), q);
  }

  /** For every route that some request reaches: declared roles are enforced exactly when the panel's
      address is known. Without it a certificate that no role allows is let through. */
  lemma RolesEnforcedExactly(r: Route, w: World, q: Req)
    requires Reached(r, w, q)
    ensures RolesEnforced(r) <==> !RoleGap(r)
    ensures RoleGap(r) ==> Reached(r, NoRoles(w), q) && !RolesHold(r, NoRoles(w), AtRoles(r, NoRoles(w), q))
  {
    if RoleGap(r) {
      ReachesBackendAsEmitted(r, w, q);
      NoRolesChangesNothingElse(r, w, q);
      AdmittedIsReached(r, w, q, NoRoles(w), q);
    } else {
      forall w', q' | Reached(r, w', q') ensures RolesHold(r, w', AtRoles(r, w', q')) {
        ReachesBackendAsEmitted(r, w', q');
      }
    }
  }

  ghost predicate PasswordEnforced(r: Route) {
    forall w, q :: Reached(r, w, q) ==> PasswordHolds(r, w, Final(r, w, q))
  }

  /** The same world, but no password is right. */
  function NoPassword(w: World): World {
    w.(authenticates := (accounts: seq<Account>, q: Req) => false)
  }

  lemma NoPasswordChangesNothingElse(r: Route, w: World, q: Req)
    requires PasswordGap(r) && Admits(r, w, q)
    ensures Admits(r, NoPassword(w), q)
  {
    CustomAlike(r, w, NoPassword(w), q);
  }

  lemma PasswordIsAsked(r: Route, w: World, q: Req)
    requires Reached(r, w, q) && !PasswordGap(r)
    ensures PasswordHolds(r, w, Final(r, w, q))
  {
    ReachesBackendAsEmitted(r, w, q);
  }

  /** For every route that some request reaches: a declared password is asked for exactly when a
      hash is stored with the single user. */
  lemma PasswordEnforcedExactly(r: Route, w: World, q: Req)
    requires Reached(r, w, q)
    ensures PasswordEnforced(r) <==> !PasswordGap(r)
    ensures PasswordGap(r) ==> var w' := NoPassword(w);
              Reached(r, w', q) && !PasswordHolds(r, w', Final(r, w', q))
  {
    if PasswordGap(r) {
      ReachesBackendAsEmitted(r, w, q);
      NoPasswordChangesNothingElse(r, w, q);
      AdmittedIsReached(r, w, q, NoPassword(w), q);
    } else {
      forall w', q' | Reached(r, w', q') ensures PasswordHolds(r, w', Final(r, w', q')) {
        PasswordIsAsked(r, w', q');
      }
    }
  }

  ghost predicate RateEnforced(r: Route) {
    forall w, q :: Reached(r, w, q) ==> RateHolds(r, w, Arrived(r, w, q))
  }

  /** The same world, but every caller is over the limit. */
  function OverLimit(w: World): World {
    w.(underLimit := (q: Req) => false)
  }

  lemma OverLimitChangesNothingElse(r: Route, w: World, q: Req)
    requires RateGap(r) && Admits(r, w, q)
    ensures Admits(r, OverLimit(w), q)
  {
    CustomAlike(r, w, OverLimit(w), q);
  }

  /** For every route that some request reaches: a declared rate limit is enforced exactly when the
      node has the module. */
  lemma RateEnforcedExactly(r: Route, w: World, q: Req)
    requires Reached(r, w, q)
    ensures RateEnforced(r) <==> !RateGap(r)
  {
    if RateGap(r) {
      ReachesBackendAsEmitted(r, w, q);
      OverLimitChangesNothingElse(r, w, q);
      AdmittedIsReached(r, w, q, OverLimit(w), q);
    } else {
      forall w', q' | Reached(r, w', q') ensures RateHolds(r, w', Arrived(r, w', q')) {
        ReachesBackendAsEmitted(r, w', q');
      }
    }
  }

  // ---------------------------------------------------------------- other headers, same answers

  /** q with other values of the two headers that gates compare. */
  function Told(q: Req, authorization: Option<string>, connection: Option<string>): Req {
    q.(authorization := authorization, connection := connection)
  }

  /** A world that answers every question as w answered it for q; custom handlers end in told. */
  function Replayed(r: Route, w: World, q: Req, told: Req, expanded: string -> string): World {
    var q0 := Arrived(r, w, q);
    var q1 := AfterRbac(r, w, AfterCustom(r, w, q0));
    var q2 := AfterSso(r, w, q1);
    w.(expanded := expanded,
       wafPasses := (x: Req) => w.wafPasses(q0), underLimit := (x: Req) => w.underLimit(q0),
       cached := (x: Req) => w.cached(q0),
       verify := (t: Target, x: Req) => w.verify(t, if t.Portal? then q2 else q1),
       authenticates := (accounts: seq<Account>, x: Req) => w.authenticates(accounts, q2),
       reshape := (change: Change, x: Req) => if change.CopySso? then q2 else told)
  }

  lemma {:induction false} ReshapedToOne(tags: seq<string>, w: World, q: Req, told: Req)
    requires forall name, x :: w.reshape(ByHandler(name), x) == told
    ensures Reshaped(tags, w, q) == if tags == [] then q else told
    decreases |tags|
  {
    if tags != [] {
      ReshapedToOne(tags[1..], w, told, told);
    }
  }

  /** The replayed custom handlers leave the request with the other headers. */
  lemma ToldAfterCustom(r: Route, w: World, q: Req, a: Option<string>, c: Option<string>, expanded: string -> string)
    ensures var told := Told(AfterCustom(r, w, Arrived(r, w, q)), a, c);
            var w' := Replayed(r, w, q, told, expanded);
            AfterCustom(r, w', Arrived(r, w', Told(q, a, c))) == told
  {
    var told := Told(AfterCustom(r, w, Arrived(r, w, q)), a, c);
    var w' := Replayed(r, w, q, told, expanded);
    if r.custom.Shaping? {
      ReshapedToOne(r.custom.handlers, w', Arrived(r, w', Told(q, a, c)), told);
    }
  }

  lemma ReplayedPerimeter(
    r: Route, w: World, q: Req, a: Option<string>, c: Option<string>, told: Req, e: string -> string)
    requires PerimeterAdmits(r, w, Arrived(r, w, q)) && !CacheAnswers(r, w, Arrived(r, w, q))
    requires a.Some? <==> q.authorization.Some?
    requires var w' := w.(expanded := e); BearerAdmits(r, w', Arrived(r, w', Told(q, a, c)))
    ensures var w' := Replayed(r, w, q, told, e);
            var q' := Arrived(r, w', Told(q, a, c));
            PerimeterAdmits(r, w', q') && !CacheAnswers(r, w', q')
  {
  }

  lemma ReplayedSso(r: Route, w: World, q: Req, a: Option<string>, c: Option<string>, expanded: string -> string)
    ensures var qc := AfterCustom(r, w, Arrived(r, w, q));
            var w', q1 := Replayed(r, w, q, Told(qc, a, c), expanded), AfterRbac(r, w, qc);
            var q1' := AfterRbac(r, w', Told(qc, a, c));
            var q2, q2' := AfterSso(r, w, q1), AfterSso(r, w', q1');
            && q1' == Told(q1, a, c) && q2'.path == q2.path && q2'.verb == q2.verb
            && (SsoGates(r, w', q1') <==> SsoGates(r, w, q1))
  {
  }

  lemma ReplayedIdentity(r: Route, w: World, q: Req, a: Option<string>, c: Option<string>, expanded: string -> string)
    requires IdentityAdmits(r, w, AfterCustom(r, w, Arrived(r, w, q)))
    requires NoUpgrade(r, Told(AfterCustom(r, w, Arrived(r, w, q)), a, c))
    ensures var told := Told(AfterCustom(r, w, Arrived(r, w, q)), a, c);
            IdentityAdmits(r, Replayed(r, w, q, told, expanded), told)
  {
    ReplayedSso(r, w, q, a, c, expanded);
  }

  /** The replay admits the request with the other headers, if the two gates on them do. */
  lemma ReplayedAdmits(r: Route, w: World, q: Req, a: Option<string>, c: Option<string>, expanded: string -> string)
    requires Admits(r, w, q) && (a.Some? <==> q.authorization.Some?)
    requires NoUpgrade(r, Told(AfterCustom(r, w, Arrived(r, w, q)), a, c))
    requires var w' := w.(expanded := expanded); BearerAdmits(r, w', Arrived(r, w', Told(q, a, c)))
    ensures var w' := Replayed(r, w, q, Told(AfterCustom(r, w, Arrived(r, w, q)), a, c), expanded);
            Admits(r, w', Told(q, a, c))
  {
    ToldAfterCustom(r, w, q, a, c, expanded);
    ReplayedPerimeter(r, w, q, a, c, Told(AfterCustom(r, w, Arrived(r, w, q)), a, c), expanded);
    ReplayedIdentity(r, w, q, a, c, expanded);
  }

  // ---------------------------------------------------------------- the upgrade option

  lemma WholeValueIsOption(v: string, name: string)
    requires EqualFold(v, name) && ',' !in v && TrimSpace(v) == v
    ensures OptionAt(v, 0, |v|, name)
  {
    assert v[0..|v|] == v;
  }

  lemma {:induction false} NotWithoutCapital(v: string)
    requires 'U' !in v
    ensures !Contains(v, "Upgrade")
    decreases |v|
  {
    if v != "" {
      assert v[0] != "Upgrade"[0];
      NotWithoutCapital(v[1..]);
    }
  }

  lemma LowerCaseAsksUnseen()
    ensures WantsUpgrade(Some("upgrade")) && !Contains("upgrade", "Upgrade")
  {
    var v := "upgrade";
    assert forall i :: 0 <= i < |v| ==> 'a' <= v[i] <= 'z';
    WholeValueIsOption(v, v);
    NotWithoutCapital(v);
  }

  ghost predicate UpgradeEnforced(r: Route) {
    forall w, q :: Reached(r, w, q) ==> UpgradeHolds(r, AfterCustom(r, w, Arrived(r, w, q)))
  }

  /** The world in which the custom handlers leave "upgrade" in small letters. */
  function LowerCase(r: Route, w: World, q: Req): World {
    Replayed(r, w, q, Told(AfterCustom(r, w, Arrived(r, w, q)), q.authorization, Some("upgrade")), w.expanded)
  }

  /** For every route that some request reaches: a declared ban on upgrades is never enforced, since
      the same request that asks for one in small letters reaches the backend. */
  lemma UpgradeEnforcedExactly(r: Route, w: World, q: Req)
    requires Reached(r, w, q)
    ensures UpgradeEnforced(r) <==> r.webSocket
    ensures !r.webSocket ==>
              var w', q' := LowerCase(r, w, q), q.(connection := Some("upgrade"));
              Reached(r, w', q') && !UpgradeHolds(r, AfterCustom(r, w', Arrived(r, w', q')))
  {
    if !r.webSocket {
      var w', q' := LowerCase(r, w, q), q.(connection := Some("upgrade"));
      assert q' == Told(q, q.authorization, Some("upgrade"));
      LowerCaseAsksUnseen();
      ReachesBackendAsEmitted(r, w, q);
      ReplayedAdmits(r, w, q, q.authorization, Some("upgrade"), w.expanded);
      AdmittedIsReached(r, w, q, w', q');
      ToldAfterCustom(r, w, q, q.authorization, Some("upgrade"), w.expanded);
    }
  }

  // ---------------------------------------------------------------- the bearer, enforced

  ghost predicate BearerEnforced(r: Route) {
    forall w, q :: Reached(r, w, q) ==> BearerHolds(r, Arrived(r, w, q))
  }

  /** What gets past a pattern that is more than its text. */
  function Imposter(r: Route): string
    requires BearerGap(r)
  {
    if '{' in r.proxySecret then "" else "Bearer " + r.proxySecret[..|r.proxySecret| - 1]
  }

  function Star(p: string): string {
    "*"
  }

  /** The same request with that bearer. */
  function Imposed(r: Route, w: World, q: Req): Req
    requires BearerGap(r)
  {
    Told(q, Some(Imposter(r)), AfterCustom(r, w, Arrived(r, w, q)).connection)
  }

  /** The replay in which a placeholder in the secret expands to a star. */
  function Loose(r: Route, w: World, q: Req): World
    requires BearerGap(r)
  {
    var qc := AfterCustom(r, w, Arrived(r, w, q));
    Replayed(r, w, q, Told(qc, Some(Imposter(r)), qc.connection), Star)
  }

  lemma ImposterPasses(r: Route, w: World, q: Req)
    requires BearerGap(r) && q.authorization == Some(Imposter(r)) && w.expanded == Star
    ensures BearerAdmits(r, w, q) && !BearerHolds(r, q)
  {
    var p := "Bearer " + r.proxySecret;
    if '{' in r.proxySecret {
      var i :| 0 <= i < |r.proxySecret| && r.proxySecret[i] == '{';
      assert p[7 + i] == '{';
    } else {
      assert '{' !in "Bearer ";
      assert p[0] == 'B' && p[|p| - 1] == '*';
      assert p[..|p| - 1] == Imposter(r);
    }
  }

  /** For every route that some request reaches: the declared bearer is asked for exactly when the
      secret has no brace and does not end in a star. */
  lemma BearerEnforcedExactly(r: Route, w: World, q: Req)
    requires Reached(r, w, q)
    ensures BearerEnforced(r) <==> !BearerGap(r)
    ensures BearerGap(r) ==> var w', q' := Loose(r, w, q), Imposed(r, w, q);
              Reached(r, w', q') && !BearerHolds(r, Arrived(r, w', q'))
  {
    if BearerGap(r) {
      var w', q' := Loose(r, w, q), Imposed(r, w, q);
      ReachesBackendAsEmitted(r, w, q);
      ImposterPasses(r, w.(expanded := Star), Arrived(r, w, q'));
      ReplayedAdmits(r, w, q, q'.authorization, q'.connection, Star);
      AdmittedIsReached(r, w, q, w', q');
    } else {
      forall w', q' | Reached(r, w', q') ensures BearerHolds(r, Arrived(r, w', q')) {
        ReachesBackendAsEmitted(r, w', q');
        BearerIsDeclared(r, w', Arrived(r, w', q'));
      }
    }
  }
}
