# Verified model of a Caddy proxy control plane

A Dafny model of the parts of this control plane whose correctness is hard to see from the code:
secret rotation across three durable stores, the compilation and ordering of proxy routes, TLS
connection policies, encrypted backup streams, the fleet generation fence, epoch-based revocation,
the SQLite dump and its splitter, placeholder screening, and the access-log pipeline.

`dafny verify dfyconfig.toml` checks the whole project. Nothing here executes the original program.

## How the model is built

- Code that changes things step by step is a class or a method with loops, proved to compute a
  specification function or to establish a stated property; the theorems are about those
  functions and states. Code made of expressions is functions and predicates.
- Crashes, failed writes, unheard commits, clocks and random bytes are parameters of a step. The
  results over whole runs quantify over every sequence of such steps.
- Cryptography is ideal: a sealed text opens only under its key (and associated data, section 2 of
  RFC 5116). IDNA conversion, address ranges, country lookup, path matching, verifier responses and
  request reshaping are arbitrary functions, about which nothing is assumed; only to exhibit matchers
  (`LiteralHosts.HidesNothingExactly` and the examples) IDNA conversion works label by label, as one
  that changes nothing does (`LiteralHosts.IdentityIsLabelByLabel`).
- The source says two things of a root-dotted host matcher: that it addresses the same host as the
  bare name (internal/caddyapi/routeorder.go:146-147), and that Caddy takes it literally
  (internal/caddyapi/routeorder.go:224-225). `HostMatch` and `RouteOrder` state what holds when root
  dots are read as absent; `LiteralHosts`, `LiteralOrder` and `NodeConfig` read matchers as stored.
- What a route record means (`RouteOutcome`) and what it declares (`RoutePolicy`) are stated on its
  fields, apart from what the compiler emits (`RouteCompiler`), and compared with it.

| file | part |
|---|---|
| `SecretRotation.dfy` | the rotation protocol over journal, database and state file |
| `HostMatch.dfy`, `Components.dfy`, `RouteOrder.dfy` | host overlap, union-find, emission order |
| `LiteralHosts.dfy`, `LiteralOrder.dfy` | the same for matchers as stored, root dots included |
| `RouteModel.dfy`, `HandlerTree.dfy`, `RouteCompiler.dfy` | the route record, the handler tree and its evaluator, the compiler |
| `RouteOutcome.dfy` | what a route record means, read off its fields, and that the compiled tree does it |
| `RoutePolicy.dfy`, `CacheScope.dfy` | the declared policy and when the tree enforces it; cache headers of the whole tree |
| `NodeConfig.dfy` | a node's route list: wildcard hosts, panel, tunnel and tenants |
| `ConnPolicies.dfy`, `NodePolicies.dfy` | TLS connection policies by server name (section 3 of RFC 6066), for any list and for the list a node emits |
| `ClientAuth.dfy` | client certificates from the handshake to the backend |
| `BackupStream.dfy` | the chunked authenticated backup stream |
| `FleetFence.dfy` | beacons, the fence and readiness of a generation |
| `AuthEpoch.dfy` | sessions and API keys against user epochs |
| `SqliteDump.dfy`, `TenantTemplate.dfy` | printer and splitter; scanner and neutraliser |
| `LogForwarder.dfy`, `AccessLogStore.dfy` | the shipping agent and the rollup store |

## Where the code falls short of its stated intent

Each of these has a failing input and a condition under which the promise holds; where the text says
"exactly", the condition is proved necessary and sufficient.

- Rotation: a transient read failure on the first resume probe makes an unlanded commit look landed
  when no row has to open. Safe exactly when some row must open or there is nothing to rotate
  (`SecretRotation.SafeExactlyWhenProbeDecides`).
- Rotation: the same misread commit lets a run report success with pending TOTP secrets and API key hashes
  still in place. Success means they are cleared exactly when some row must open or they were cleared
  before (`SecretRotation.SuccessClearsExactly`).
- Revocation: a deleted user's session revives when the database gives the id again, as SQLite rowids
  are (`AuthEpoch.ReusedIdRevives`). For every way of giving ids, revocation is durable exactly when no
  run gives one twice (`AuthEpoch.RevocationIsDurableExactlyWithoutIdReuse`).
- Fleet fence: a fresh replica's key can be gone when a withdrawal that was given up lands after the
  next publish. Fresh always means visible exactly when the grace is below the TTL and no command can
  land as late as the next publish (`FleetFence.VisibleExactlyWithMargin`); a tick that is due leaves no
  pause between the two, so it takes that none lands late (`FleetFence.FleetVisibleExactly`).
- Connection policies: of a host that requires client certificates and a PQ-only wildcard over it,
  the host gets its own options in the emitted order exactly when the wildcard route's path is no more
  specific (`NodePolicies.ShadowedExactlyByLongerPath`). In general it does exactly when the first
  opted-in matcher covering it wants the same (`NodePolicies.NodeHostGetsItsOptionsExactly`).
- Connection policies: of two CAs on one host the first by id is said to win
  (internal/caddyapi/config.go:643-645). The list is sorted for emission by then, and the CA of the
  best-ranked route wins (`NodePolicies.CaIsBestRanked`, `NodePolicies.CaIsNotById`). With different CAs
  the first by id wins exactly when it also ranks before the others
  (`NodePolicies.FirstByIdWinsExactly`).
- Client certificates: a route is reached only over connections asked for its CA exactly when SNI is
  strict, which a node sees to, and this CA is that of the first opted-in matcher over each of its hosts
  (`ClientAuth.CertAskedExactly`, `ClientAuth.NodeCertAskedExactly`).
- Host overlap: collapsing a root dot is said never to hide an overlap. For matchers as stored it does.
  A matcher hides none exactly when it has no root dot, or no room for one more label, and does not end
  in a star after a dot (`LiteralHosts.HidesNothingExactly`).
- Emission order: so routes on "a.*" and "a." keep their order whatever their gates
  (`LiteralOrder.RootDotIsShadowed`). The order is right for all paths and gates exactly when no hidden
  overlap splits two components (`LiteralOrder.InOrderExactly`); the check made when hosts are saved
  ensures that (`LiteralOrder.AcceptedOnWriteHidesNothing`).
- Emission order: of strictly nested paths the narrower ranks first exactly when the prefixes differ; a
  stripped and an unstripped route on one prefix tie (`RouteOrder.NarrowerPathRanksFirst`).
- Emission order: routes on the same paths tie exactly when they are not both stripped with different
  texts of one prefix; a slash at its end then decides (`RouteOrder.SamePathsTieExactly`).
- Role rules: enforced exactly when the panel's address is known; without it no check is emitted and
  the backend is served (`RoutePolicy.RolesEnforcedExactly`).
- Basic password: enforced exactly when the single user has a hash
  (`RoutePolicy.PasswordEnforcedExactly`).
- Rate limit: enforced exactly when the node has the module (`RoutePolicy.RateEnforcedExactly`).
- WebSocket gate: the upgrade option ignores case (section 7.6.1 of RFC 9110), the gate does not. It
  refuses a header exactly when one of its comma-separated parts has "Upgrade" in it, so it lets an
  upgrade pass exactly when some part is the option and none has that in it, and refuses other requests
  exactly the other way round (`RoutePolicy.UpgradeRefusedExactly`). On no route that requests reach is
  a ban on upgrades enforced (`RoutePolicy.UpgradeEnforcedExactly`).
- Clash probe: it agrees with the emission order except on lists that hold a blank host
  (`RouteOrder.ProbeAgreesExactly`).
- Log forwarder: a line of 8 MiB or more stops delivery. Every complete line is delivered exactly
  when each fits one read (`LogForwarder.DeliversExactlyWhenLinesFit`).

- Access-log store: a batch is accepted though nothing was written when there is no database. An accepted
  batch was written exactly when the database is there and the batch is not empty
  (`AccessLogStore.AnswerTells`).

## Model

| member | source | states |
|---|---|---|
| `SecretRotation.EnvelopeRoundTrip` | cmd/rotate-secret/main.go:353-377 | an opened envelope, re-sealed, opens to the same purpose and text under the new key and under no other |
| `SecretRotation.OpensUnderOneKey` | cmd/rotate-secret/main.go:353-364 | a stored value opens under at most one key |
| `SecretRotation.OnlySealedOpens` | cmd/rotate-secret/main.go:353-377 | whatever opens is exactly a text that sealing writes |
| `SecretRotation.RotateCellReseals` | cmd/rotate-secret/main.go:539-750 | a rotated cell keeps row, purpose and text; a cell the old key does not open is left alone |
| `SecretRotation.PassesExactlyTheLegible` | cmd/rotate-secret/main.go:539-750 | a pass gets through a store if and only if every selected value outside tolerant columns, and every present field, opens under its key |
| `SecretRotation.UnselectedStays` | cmd/rotate-secret/main.go:539-750 | over every sequence of runs, with any pairs and failures, values the queries leave out, empty ones and ones without the marker stay byte for byte |
| `SecretRotation.PreflightPlacesStores` | cmd/rotate-secret/main.go:158-211 | a passed preflight implies both stores intact, db_done only over a rotated database, and a file marked done only over a rotated file |
| `SecretRotation.RunKeeps` | cmd/rotate-secret/main.go:151-237 | one run, failing or crashing anywhere, keeps the protocol invariant; reported success leaves both stores rotated |
| `SecretRotation.EveryRunSequenceIsSafe` | cmd/rotate-secret/main.go:151-237 | the invariant after any number of same-pair runs with crashes anywhere: each store wholly old or new, a rotated file implies a rotated database, a journal whenever they differ |
| `SecretRotation.EachStoreIsUnderOneKey` | cmd/rotate-secret/main.go:422-468 | in every such state all mandatory rows open under one key, the file fields under one key, to their original text |
| `SecretRotation.NoSecretIsLost` | cmd/rotate-secret/main.go:539-750 | every row sealed under the old secret opens, under its store's key, to its original purpose and text |
| `SecretRotation.OneMoreRunFinishes` | cmd/rotate-secret/main.go:158-237 | from every unfinished state one undisturbed apply run finishes, removes the journal and leaves rotated rows byte for byte |
| `SecretRotation.FirstRunSucceedsExactly` | cmd/rotate-secret/main.go:87-95 | an undisturbed first run over an intact installation succeeds if and only if both secrets are given, differ, and the new one has 32 characters; else nothing is written |
| `SecretRotation.FinishedStaysFinished` | cmd/rotate-secret/main.go:158-237 | from the finished state a re-run changes no cell and no field |
| `SecretRotation.OthersWriteNothing` | cmd/rotate-secret/main.go:158-237 | dry runs, runs without a database, with an unreadable or corrupt journal, an unknown stage in it, or another pair than the journal names, write nothing |
| `SecretRotation.MisreadProbe` | cmd/rotate-secret/main.go:174-179 | the failing input: intent recorded, first probe unreadable, no mandatory row; a tolerant row is orphaned by a run that reports success, or the next undisturbed run fails |
| `SecretRotation.SafeExactlyWhenProbeDecides` | cmd/rotate-secret/main.go:158-237 | safety and resumability under arbitrary failures hold if and only if some row must open or nothing is to be rotated |
| `SecretRotation.CommitClears` | cmd/rotate-secret/main.go:710-745 | whatever a run does to the database, it leaves it unchanged or with no pending TOTP secret and no API key hash |
| `SecretRotation.EveryRunSequenceClears` | cmd/rotate-secret/main.go:710-745 | over every sequence of runs with crashes, a run that reports success leaves both cleared, when some row must open or no first probe was misread |
| `SecretRotation.MisreadProbeClearsNothing` | cmd/rotate-secret/main.go:174-179 | the failing input: without such a row a misread probe lets a run report success that cleared nothing |
| `SecretRotation.SuccessClearsExactly` | cmd/rotate-secret/main.go:710-745 | success implies cleared, over every run sequence, if and only if some row must open or both were cleared before |
| `SecretRotation.Installation.RotateDatabase` | cmd/rotate-secret/main.go:539-750 | one pass in one transaction: all cells re-sealed and the pending TOTP secrets and API key hashes cleared, or nothing at all when a row that must open does not |
| `SecretRotation.Installation.RotateStateFile` | cmd/rotate-secret/main.go:422-468 | the present fields re-sealed and the file replaced atomically, or left as it was |
| `SecretRotation.Installation.RunRotation` | cmd/rotate-secret/main.go:151-237 | the step-by-step run has exactly the effect of the function the theorems are about |
| `HostMatch.OverlapIsSymmetric` | internal/caddyapi/routeorder.go:161-173 | the overlap test is symmetric |
| `HostMatch.OverlapMissesNothing` | internal/caddyapi/routeorder.go:161-218 | root dots read as absent: for all matchers, two that accept a common host overlap |
| `HostMatch.OverlapIsExact` | internal/caddyapi/routeorder.go:161-218 | for matchers of valid shape the test is true if and only if a concrete host is accepted by both |
| `HostMatch.NormalisedIsValid` | internal/caddyapi/routeorder.go:141-155 | a valid matcher that normalising leaves stable has a normal form of valid shape |
| `LiteralHosts.TextHasThoseLabels` | internal/caddyapi/routeorder.go:223-227 | the text of a matcher with k root dots splits into its labels and k empty ones |
| `LiteralHosts.OverlapIsMissedExactly` | internal/caddyapi/routeorder.go:146-218 | as stored: a common host is accepted and the test says no, if and only if the labels and root dots are as many in all, the labels are not, and the longer list ends in stars where the other has its dots |
| `LiteralHosts.HidesNothingExactly` | internal/caddyapi/routeorder.go:146-218 | as stored: no overlap of a matcher with any other is missed, if and only if it has no root dot (or no room for one more label) and does not end in a star after a dot |
| `LiteralHosts.RootDotHidesOverlap` | internal/caddyapi/routeorder.go:146-150 | the shortest case: "a." and "a.*" both accept "a." and the test says no |
| `Components.UnionFind.Find` | internal/caddyapi/routeorder.go:36-42 | returns the root and, halving paths, keeps every root |
| `Components.UnionFind.Union` | internal/caddyapi/routeorder.go:43-48 | merges exactly the two classes and keeps every node connected to its root |
| `Components.RootsAreComponents` | internal/caddyapi/routeorder.go:30-84 | once touching nodes share roots, sharing a root is being connected |
| `RouteOrder.TouchingShareRoot` | internal/caddyapi/routeorder.go:50-84 | the three union loops leave any two colliding routes under one root |
| `RouteOrder.FindComponents` | internal/caddyapi/routeorder.go:30-90 | the union-find groups are exactly the connected components of the host-overlap relation |
| `RouteOrder.IndexHosts` | internal/caddyapi/routeorder.go:50-71 | the index lists every route under each of its normalised hosts and nothing else; catch-alls join everything |
| `RouteOrder.StableSort` | internal/caddyapi/routeorder.go:95-109 | the members of a group, all of them, by specificity, wildcard, deny rank and original order |
| `RouteOrder.PlaceGroup` | internal/caddyapi/routeorder.go:91-114 | a group fills its own slots, sorted, and no other slot changes |
| `RouteOrder.EmissionOrder` | internal/caddyapi/routeorder.go:21-116 | a permutation that moves routes only within their component, sorted there |
| `RouteOrder.EmissionIsUnique` | internal/caddyapi/routeorder.go:21-116 | that promise determines the order |
| `RouteOrder.LoneRouteKeepsSlot` | internal/caddyapi/routeorder.go:17-20 | a route that collides with no other keeps its slot |
| `RouteOrder.FirstMatchIsBest` | internal/caddyapi/routeorder.go:96-126 | for any request and any set of matching routes the first in emission order ranks before all others |
| `RouteOrder.CaddyFirstMatchIsBest` | internal/caddyapi/routeorder.go:96-126 | root dots read as absent: the same for Caddy's host matchers, whatever IDNA and placeholders do |
| `LiteralOrder.LiteralFirstMatchIsBest` | internal/caddyapi/routeorder.go:96-126 | as stored: the same for route lists in which no hidden overlap splits two components |
| `LiteralOrder.InOrderExactly` | internal/caddyapi/routeorder.go:21-126 | as stored: for given host lists, every choice of paths and gates is emitted in rank order wherever routes accept a common host, if and only if no hidden overlap splits two components |
| `LiteralOrder.RootDotIsShadowed` | internal/caddyapi/routeorder.go:21-126 | the failing input: routes on "a.*" and "a." are always emitted in this order and both accept "a.", however the second ranks |
| `LiteralOrder.AcceptedOnWriteHidesNothing` | internal/httpserver/handlers/admin_hosts_sanitize.go:186-203 | host lists that pass the check made when they are saved have no hidden overlap |
| `RouteOrder.NarrowerPathRanksFirst` | internal/caddyapi/routeorder.go:266-276 | of two routes whose accepted paths are strictly nested, stripped external prefixes included, the narrower is the more specific if and only if the prefixes differ |
| `RouteOrder.SamePathsTieExactly` | internal/caddyapi/routeorder.go:266-276 | two routes that accept the same paths are equally specific if and only if they are not both stripped with different texts |
| `RouteOrder.GuardComesFirst` | internal/caddyapi/routeorder.go:96-109 | within a component of an emitted list a narrower path comes first; on equal paths exact hosts before wildcards; then fail-closed before others and gated before open |
| `RouteOrder.ProbeAgreesExactly` | internal/caddyapi/routeorder.go:178-199 | the clash probe reports a pair if and only if the ordering sees a collision or a list holds a blank host |
| `RouteOrder.PatternsMeanPrefix` | internal/caddyapi/route.go:426-437 | the emitted path patterns accept exactly the paths under the prefix; of a prefix stripped for an external backend only the path itself and those below it |
| `RouteOrder.StableHostsAreNormal` | internal/caddyapi/routeorder.go:161-173 | hosts that normalising leaves stable are compared on their normal forms |
| `RouteOrder.SortRoutesForEmission` | internal/caddyapi/routeorder.go:129-136 | the routes in emission order |
| `HandlerTree.RunsInTurn` | internal/caddyapi/route.go:712-1201 | appending handlers to a chain runs them after it, when it lets the request go on |
| `RouteCompiler.GeoLeads` | internal/caddyapi/route.go:1894-1981 | the geo stage admits permitted countries and the allow list; without the module, by its fail-closed flag |
| `RouteCompiler.CidrLeads` | internal/caddyapi/route.go:1985-2000 | the block list stage stops exactly the listed addresses |
| `RouteCompiler.EarlyLeads` | internal/caddyapi/route.go:1645-1665 | block and redirect rules answer exactly the paths of emitted rules, with the status of the first |
| `RouteCompiler.CacheLeads` | internal/caddyapi/route.go:1292-1346 | the cache stage answers only hits of public, ungated, uncredentialled requests |
| `RouteCompiler.RbacLeads` | internal/caddyapi/route.go:2276-2346 | the role check stamps the certificate subject and passes exactly on a 2xx |
| `RouteCompiler.SsoLeads` | internal/caddyapi/route.go:952-1144 | single sign-on passes exactly ungated requests and 2xx responses; its own paths go to the provider |
| `RouteCompiler.PortalLeads` | internal/caddyapi/route.go:2148-2239 | the portal passes exactly 2xx responses and safe requests to public paths |
| `RouteCompiler.BackendRuns` | internal/caddyapi/route.go:1667-1755 | past the gates the request goes to the first location rule's target or the route's own backend |
| `RouteCompiler.WithAclRuns` | internal/caddyapi/route.go:1209-1252 | the access list lets the inner chain run only for admitted addresses |
| `RouteCompiler.WithHttpsRuns` | internal/caddyapi/route.go:1483-1511 | cleartext requests are redirected, all others handled by the inner chain |
| `RouteCompiler.ReachesBackendAsEmitted` | internal/caddyapi/route.go:420-1265 | for every route outside maintenance and every request for it, the compiled tree dials the tenant's backend if and only if the route serves and the emitted gates admit the request, and then the target the rules name |
| `RouteOutcome.CompiledMeansRecord` | internal/caddyapi/route.go:420-1265 | for every route and every request for it the compiled tree ends exactly as the record's fields say: the status it answers with, the backend it dials or the cache hit, and at which gate |
| `RouteOutcome.CleartextIsRefused` | internal/caddyapi/route.go:1483-1511 | a route that forces HTTPS or requires a client certificate answers every cleartext request itself, in maintenance or not: 308, or 503 when it is withheld |
| `RouteOutcome.OthersIgnoreCleartext` | internal/caddyapi/route.go:1483-1511 | on every other route a request ends alike with and without TLS |
| `RouteOutcome.BlockRuleHolds` | internal/caddyapi/route.go:1645-1665 | a block rule with a path is always enforced: requests for that path get neither to a backend nor to the cache |
| `RouteOutcome.CacheAnswersExactly` | internal/caddyapi/route.go:1292-1360 | the cache answers if and only if the route is served, not in maintenance, admits the connection, address and perimeter, may share its responses for this request, and has one |
| `RoutePolicy.ReachesBackendExactly` | internal/caddyapi/route.go:420-1265 | for every route whose declared gates are all emitted and every request for it: the backend its rules name is dialled if and only if the route serves, its declared policy apart from upgrades, read off its fields, admits the request, the cache does not answer it and no part of the Connection header has "Upgrade" in it unless upgrades are allowed; and that is the whole declared policy if and only if the header is spelled out |
| `RoutePolicy.RolesEnforcedExactly` | internal/caddyapi/route.go:2276-2280 | declared role rules are enforced if and only if the panel's address is known; else a certificate without any role reaches the backend |
| `RoutePolicy.PasswordEnforcedExactly` | internal/caddyapi/route.go:1153-1190 | a declared password is asked for if and only if the single user has a hash |
| `RoutePolicy.RateEnforcedExactly` | internal/caddyapi/route.go:841-870 | a declared rate limit is enforced if and only if the node has the module |
| `RoutePolicy.InSomePart` | internal/caddyapi/route.go:908-930 | a text without a comma is in a header if and only if it is in one of its parts |
| `RoutePolicy.UpgradeRefusedExactly` | internal/caddyapi/route.go:908-930 | for every header: refused if and only if some part has "Upgrade" in it; an upgrade missed, and another request refused, exactly when the two readings of the parts differ |
| `RoutePolicy.UpgradeEnforcedExactly` | internal/caddyapi/route.go:908-930 | for every route that some request reaches, the tree enforces the declared word on upgrades if and only if it allows them; else the same request asking in small letters reaches the backend |
| `RouteCompiler.RefusedDialsNothing` | internal/caddyapi/route.go:438-474 | quarantined and misconfigured routes answer 503 to everything |
| `RouteCompiler.RedirectNeverReaches` | internal/caddyapi/route.go:537-566 | a redirect route never dials the backend |
| `RouteCompiler.MaintenanceReachesExactly` | internal/caddyapi/route.go:477-536 | under maintenance exactly listed addresses reach the backend, not in cleartext when HTTPS is forced |
| `RouteCompiler.CacheAnswersOnlyPublic` | internal/caddyapi/route.go:1292-1360 | a cached answer implies a public route without any identity gate, no credentials, and an admitted connection |
| `CacheScope.CacheScopeIsExact` | internal/caddyapi/route.go:420-1346 | over the whole compiled route: exactly the scope the route declares is sent, public only by opt-in and never for a gated or restricted route or a request with credentials, no-store where it must not be kept, and nothing to refused requests and cache hits |
| `CacheScope.PersonalIsPrivate` | internal/caddyapi/route.go:1351-1360 | no response of a route on which anything depends on the caller is ever called public |
| `RoutePolicy.BearerIsExactly` | internal/caddyapi/route.go:812-837 | for a secret the replacer leaves alone, the gate asks for exactly the bearer if and only if the secret does not end in a star |
| `RoutePolicy.BearerEnforcedExactly` | internal/caddyapi/route.go:812-837 | for every route that some request reaches, the tree asks for exactly the declared bearer if and only if the secret has no brace and does not end in a star |
| `RoutePolicy.GeneratedBearerIsExact` | internal/httpserver/handlers/admin_hosts_actions.go:25-34 | for every generated secret the gate takes exactly that bearer |
| `RouteCompiler.ClaimedSubjectHasNoEffect` | internal/caddyapi/route.go:713-723 | a client-supplied subject header changes nothing a route does |
| `RouteCompiler.BuildEarlyRoutes` | internal/caddyapi/route.go:1645-1665 | the loop emits the answering rules in order |
| `RouteCompiler.BuildLocationSubroute` | internal/caddyapi/route.go:1667-1691 | the loop emits the proxying rules in order, then the fallback |
| `RouteCompiler.WrapAcl` | internal/caddyapi/route.go:1209-1252 | the access-list wrapper, deny before allow |
| `RouteCompiler.BuildRoute` | internal/caddyapi/route.go:420-1265 | the chain grown step by step is the tree the theorems are about, whose meaning `RouteOutcome.CompiledMeansRecord` reads off the record |
| `NodeConfig.WithWildcardHosts` | internal/caddyapi/config.go:204-222 | adds the zone wildcard to exactly the routes of a live zone without TLS options of their own |
| `NodeConfig.ZoneAddsExactly` | internal/caddyapi/config.go:204-222 | a route's hosts are its own, and the wildcard of its zone if and only if the zone has one and the route has no TLS options |
| `NodeConfig.BuildNodeRoutes` | internal/caddyapi/config.go:295-320 | the panel's route, the tunnel's, then the tenants' with their wildcard hosts, sorted for emission and compiled with the node's modules |
| `NodeConfig.FirstRouteDecides` | internal/caddyapi/config.go:295-320 | every request goes to the panel, else the tunnel, else the first tenant route for it, whose backend is reached if and only if it serves and its gates admit the request; without any nothing is dialled |
| `NodeConfig.FirstRouteEnforcesPolicy` | internal/caddyapi/config.go:295-320 | when that route's gates are all emitted, its backend is reached if and only if it serves, its declared policy apart from upgrades admits the request, the cache does not answer and no part of the Connection header has "Upgrade" in it unless allowed; with the exact condition for upgrades |
| `NodeConfig.FirstRouteIsBest` | internal/caddyapi/config.go:295-320 | as stored: no other tenant route for the request ranks before that first one, when no hidden overlap splits two components |
| `NodeConfig.ModulesDecide` | internal/caddyapi/config.go:295-320 | what the node's modules decide for a route: withheld without the firewall unless it fails open, nothing from the cache without its module, and what firewall, rate limiter or country rule stops dials nothing |
| `ConnPolicies.FirstCaIsFirst` | internal/caddyapi/config.go:655-691 | the merged CA is the first usable one in route order |
| `ConnPolicies.LookupOfEmitted` | internal/caddyapi/config.go:655-725 | every server name resolves to the merged options of the first opted-in host covering it, else to plain TLS |
| `ConnPolicies.ExactHostGetsItsOptions` | internal/caddyapi/config.go:640-645 | a host no wildcard covers gets the first usable CA and the OR of PQ-only flags |
| `ConnPolicies.HostIsAskedExactly` | internal/caddyapi/config.go:640-691 | on the routes' fields: a host no wildcard is over is asked for a certificate if and only if some route on it requires one of a readable CA, and then of the first one's; PQ-only if and only if some route on it is and the node has the curves |
| `ConnPolicies.EachHostIsListedOnce` | internal/caddyapi/config.go:692-717 | each opted-in host is in exactly one entry, others in none |
| `ConnPolicies.CatchAllIsLast` | internal/caddyapi/config.go:718-724 | the catch-all is last and only last, present exactly when some route opted a host in |
| `ConnPolicies.HostGetsItsOptionsExactly` | internal/caddyapi/config.go:655-725 | a host gets its own options if and only if the first opted-in matcher covering it wants the same |
| `ConnPolicies.EarlierWildcardShadows` | internal/caddyapi/config.go:655-725 | the failing family for a list in this order: an earlier PQ-only wildcard over a host that requires a client certificate |
| `ConnPolicies.WildcardShadowsClientAuth` | internal/caddyapi/config.go:655-725 | a concrete list of that family |
| `ConnPolicies.MergeRoutes` | internal/caddyapi/config.go:661-691 | the merge loop computes every host's options and the opt-in order |
| `ConnPolicies.BuildConnPolicies` | internal/caddyapi/config.go:655-725 | the emitted list, grouping neighbours with equal options, then the catch-all |
| `NodePolicies.BuildNodePolicies` | internal/caddyapi/config.go:295-424 | a node's policies are those of its routes with wildcard hosts, in emission order |
| `NodePolicies.CaIsBestRanked` | internal/caddyapi/config.go:640-645 | the CA of a host on a node is that of the best-ranked route on it with a usable one |
| `NodePolicies.CaIsNotById` | internal/caddyapi/config.go:643-645 | the failing family: of two routes on a host the one with the longer path gives the CA although the other comes first by id |
| `NodePolicies.CaIsByIdExactly` | internal/caddyapi/config.go:643-645 | the CA of a host is that of the first route by id if and only if the best-ranked route with a usable CA has the same |
| `NodePolicies.FirstByIdWinsExactly` | internal/caddyapi/config.go:643-645 | with different CAs the first by id wins if and only if it ranks before the others |
| `NodePolicies.ShadowedExactlyByLongerPath` | internal/caddyapi/config.go:295-424 | in emission order a host under a PQ-only wildcard gets its own options if and only if the wildcard route's path is no more specific |
| `NodePolicies.ShadowingExample` | internal/caddyapi/config.go:655-725 | routes on "*.z" and "a.z" are such a pair |
| `NodePolicies.NodeHostGetsItsOptionsExactly` | internal/caddyapi/config.go:655-725 | on the list a node emits, a host gets its own options if and only if the first opted-in matcher covering it wants the same |
| `NodePolicies.ZonesKeepOptions` | internal/caddyapi/config.go:209-219 | adding wildcard hosts changes no host's TLS options |
| `ClientAuth.HasClientAuth` | internal/caddyapi/config.go:727-736 | strict SNI is turned on if and only if some entry asks for a client certificate |
| `ClientAuth.StrictExactly` | internal/caddyapi/config.go:420-430 | strict SNI is on if and only if some route with a host requires certificates of a CA that can be read |
| `ClientAuth.CertAskedExactly` | internal/caddyapi/config.go:420-430 | a route takes requests only over connections asked for its CA if and only if SNI is strict and this CA is that of the first opted-in matcher over each of its hosts |
| `ClientAuth.NodeCertAskedExactly` | internal/caddyapi/config.go:420-430 | on a node: if and only if the CA comes first on each of its hosts |
| `ClientAuth.CertAskedByName` | internal/caddyapi/config.go:420-430 | the same for one-label wildcards, without further assumptions |
| `ClientAuth.ReachedOverItsCa` | internal/caddyapi/config.go:295-430 | then every request that reaches the backend of such a route came over TLS, on a connection asked for its CA |
| `BackupStream.ChunkAadIsInjective` | internal/backup/crypto.go:46-53 | the associated data determines chunk index and final flag |
| `BackupStream.BigEndianIsLengthCodec` | internal/backup/crypto.go:110-134 | the four-byte length reads back and is unique |
| `BackupStream.ChunkCount` | internal/backup/crypto.go:79-150 | floor(n / 1 MiB) + 1 chunks, all full but the last |
| `BackupStream.FramesFitReader` | internal/backup/crypto.go:157-157 | no frame exceeds 1 MiB and 16 bytes, which is within the reader's cap of 4 MiB and a 32-bit length, and its length reads back |
| `BackupStream.RoundTrip` | internal/backup/crypto.go:193-241 | decrypting the encoded stream gives the plaintext |
| `BackupStream.AcceptedFrameIsGenuine` | internal/backup/crypto.go:193-241 | a frame opened at position i is byte for byte the writer's i-th |
| `BackupStream.AcceptsExactlyTheWriter` | internal/backup/crypto.go:193-241 | any bytes at all are accepted if and only if they are the writer's whole stream; output before rejection is a prefix of the plaintext |
| `BackupStream.StreamDecryptV2` | internal/backup/crypto.go:193-241 | the reading loop computes the reader's function |
| `BackupStream.StreamDecrypt` | internal/backup/crypto.go:163-187 | dispatch on the key's 32 bytes and on the magic HPGBK2 or HPGBK1, each with two zero bytes; anything else is refused |
| `BackupStream.StreamEncryptWriter.FlushChunk` | internal/backup/crypto.go:110-134 | appends one frame under the next index, and nothing for an empty non-final flush |
| `BackupStream.StreamEncryptWriter.Write` | internal/backup/crypto.go:79-108 | however calls split the plaintext, the sink and buffer hold exactly what was written |
| `BackupStream.StreamEncryptWriter.Close` | internal/backup/crypto.go:136-150 | leaves the whole encoded stream, ended by a final chunk |
| `BackupStream.WriteCloseDecrypt` | internal/backup/crypto.go:79-241 | for every split across writes, closing and decrypting gives the plaintext |
| `FleetFence.EveryFenceIsJustified` | internal/auth/generation.go:150-254 | in every run with crashes, failures, wipes and commands that land late a fence follows a ready advertisement of a newer generation |
| `FleetFence.HighestIsNeverFenced` | internal/auth/generation.go:150-254 | no replica of the highest generation ever advertised is fenced |
| `FleetFence.FenceLatchesForever` | internal/auth/generation.go:92-103 | a fence never clears while the process lives |
| `FleetFence.OneGenerationServes` | internal/auth/generation.go:226-254 | replicas of different generations are never both ready against one store state |
| `FleetFence.SeenNewerNeverReady` | internal/auth/generation.go:245-254 | once a readiness check has seen a newer generation, no later check of that process is ready, whatever happens |
| `FleetFence.SilentIsUnready` | internal/auth/generation.go:21-32 | in every run a replica that has heard of no successful publish for more than 16 seconds is not ready |
| `FleetFence.SilentKeyIsGone` | internal/auth/generation.go:21-32 | after every run a key that is not written for 20 seconds is gone from the fleet |
| `FleetFence.EveryMarkIsCovered` | internal/auth/generation.go:150-216 | without wipes, and when no command lands as late as the next publish, a replica's freshness mark is covered by its own unexpired key |
| `FleetFence.NoMarginFails` | internal/auth/generation.go:21-32 | without a margin a fresh replica's key can be gone |
| `FleetFence.LateDeleteFails` | internal/auth/generation.go:197-216 | a withdrawal that was given up and lands after the next publish takes the key of a fresh replica |
| `FleetFence.VisibleExactlyWithMargin` | internal/auth/generation.go:21-32 | fresh implies visible in every run if and only if the grace is below the TTL and no command can land as late as the next publish |
| `FleetFence.FleetVisibleExactly` | internal/auth/generation.go:128-145 | with the fleet's own timing, which leaves no pause, if and only if no command lands late |
| `FleetFence.FreshServesUnlessNewer` | internal/auth/generation.go:226-254 | with both margins a fresh unfenced replica serves if and only if no newer generation is live |
| `FleetFence.KeyTextNamesGeneration` | internal/auth/generation.go:115-127 | a written key reads back as its generation |
| `FleetFence.KeyTextIsInjective` | internal/auth/generation.go:115-127 | different keys have different texts |
| `FleetFence.ScanFleet` | internal/auth/generation.go:282-315 | own presence and the highest generation over all pages; a failed page is an error |
| `FleetFence.ScanDecides` | internal/auth/generation.go:282-315 | scanning the texts of the live keys, in any pages, decides own presence and whether a newer generation is live |
| `FleetFence.FleetBeacon.ScanStore` | internal/auth/generation.go:282-315 | so a scan of the store answers both, or fails |
| `FleetFence.FleetBeacon.Publish` | internal/auth/generation.go:179-192 | the mark is the time before the write, set only on a heard success; a write given up may land later |
| `FleetFence.FleetBeacon.Withdraw` | internal/auth/generation.go:197-216 | the mark goes before the key; a delete given up may land later |
| `FleetFence.FleetBeacon.RefreshFence` | internal/auth/generation.go:171-175 | fences exactly on a successful scan that shows a newer generation |
| `FleetFence.FleetBeacon.RefreshBeat` | internal/auth/generation.go:150-175 | a refresh is exactly its protocol steps |
| `FleetFence.FleetBeacon.GenerationReady` | internal/auth/generation.go:226-254 | ready exactly when the scan works and the model's readiness holds, and then unfenced; afterwards fenced exactly when it was before or a fresh replica's scan shows its own key and a newer live one |
| `AuthEpoch.EveryRunIsSound` | internal/auth/epoch.go:118-148 | where ids are never given twice, the invariant over every interleaving of mints, bumps, deletions, purges and loads |
| `AuthEpoch.RevocationIsDurableExactlyWithoutIdReuse` | internal/auth/epoch.go:48-65 | for every way of giving ids: a claim minted before a bump or deletion is never accepted after it, if and only if no run gives an id twice |
| `AuthEpoch.ReuseRevives` | internal/auth/epoch.go:48-65 | from any run after which an id can be given again, one that accepts a stale claim |
| `AuthEpoch.DurableByDatabase` | internal/store/sqlite_transform.go:344-355 | durable with AUTO_INCREMENT ids, not with SQLite rowids |
| `AuthEpoch.ReusedIdRevives` | internal/store/sqlite_transform.go:344-355 | the failing run, an admin being there throughout: create, mint, delete with a failed purge, then a new user on the same id |
| `AuthEpoch.RevokeUserEndsAccess` | internal/auth/epoch.go:88-96 | right after a bump that landed, heard or not, nothing carrying the user is accepted, even if the purge deleted nothing; a lost bump changes nothing |
| `AuthEpoch.UnreadableDeniesAndKeeps` | internal/auth/session.go:259-305 | an unreadable epoch of the owner, or of the impersonator behind a current owner, and a failed or timed-out session read all deny and keep the session |
| `AuthEpoch.NewKeyIsAccepted` | internal/auth/apikey.go:103-190 | a key created for an active user is accepted with its secret after every run that neither bumps or deletes the user nor revokes or expires the key |
| `AuthEpoch.RevokedKeyIsRefused` | internal/auth/apikey.go:103-190 | a key that is revoked or expires is refused after every run that follows, until its id is given to another |
| `AuthEpoch.NewSessionIsAccepted` | internal/auth/session.go:259-305 | a session minted for a user, with an admin behind it, is accepted with the epochs both have |
| `AuthEpoch.AcceptsExactly` | internal/auth/session.go:259-305 | a session is accepted if and only if Redis gives it, its schema is version 2, and the owner's epoch and an impersonator's are readable and the stamped ones |
| `AuthEpoch.DestroysExactlyTheDenied` | internal/auth/session.go:259-305 | a session is destroyed if and only if Redis gives it and deletes it and its schema is old or a readable epoch denies it; nothing else changes |
| `AuthEpoch.SessionNamespace.DestroyForUserIn` | internal/auth/session.go:333-392 | only keys go that name the user as owner, portal user or impersonator, each counted once; with no error none listed is left |
| `AuthEpoch.Manager.CheckClaim` | internal/auth/epoch.go:118-127 | owner and impersonator verdicts combined |
| `AuthEpoch.Manager.LoadSession` | internal/auth/session.go:259-305 | the load path, branch by branch, with failing, timed-out and garbled reads |
| `AuthEpoch.Manager.VerifyApiKey` | internal/auth/apikey.go:103-190 | accepted if and only if the row is read, the key neither revoked nor expired, its owner there, active and at the stamped epoch, and the secret proven by the stored HMAC, or by the slow hash when there is none |
| `AuthEpoch.Manager.RevokeUser` | internal/auth/epoch.go:88-96 | the bump, then whatever part of the purge succeeds; a failed bump returns before the purge |
| `SqliteDump.DumpSplitsByRow` | internal/backup/dump_sqlite.go:91-221 | splitting a table's dump yields its inserts, one per row in order |
| `SqliteDump.CommentPasses` | internal/backup/dump_sqlite.go:204-211 | a comment outside quotes is read through to its newline, quotes and semicolons in it included |
| `SqliteDump.LiteralReadsBack` | internal/backup/dump_sqlite.go:145-176 | each literal reads back as what SQLite holds for its value, a boolean as 0 or 1 |
| `SqliteDump.StatementReadsBack` | internal/backup/dump_sqlite.go:112-143 | past its head a statement reads back as its row |
| `SqliteDump.InsertReadsBack` | internal/backup/dump_sqlite.go:112-143 | a whole statement reads back as its table, its columns in order and its row |
| `SqliteDump.WriteValue` | internal/backup/dump_sqlite.go:145-176 | appends the literal |
| `SqliteDump.DumpRow` | internal/backup/dump_sqlite.go:112-143 | one statement per row, commas between values |
| `SqliteDump.DumpRows` | internal/backup/dump_sqlite.go:91-143 | the dump of all rows, each an insert that reads back as table, columns and row (`SqliteDump.InsertReadsBack`) |
| `SqliteDump.SplitSQLStatements` | internal/backup/dump_sqlite.go:182-221 | the loop is the quote- and comment-aware splitting automaton |
| `SqliteDump.DumpThenSplit` | internal/backup/dump_sqlite.go:91-221 | dump and split give exactly one statement per row, each reading back as the table, the columns in order and the row |
| `TenantTemplate.KeepsExactlyTheAllowed` | internal/caddyapi/tenanttemplate.go:75-96 | exactly the allowed placeholders survive, in order |
| `TenantTemplate.PassingIsFixed` | internal/caddyapi/tenanttemplate.go:75-96 | a passing string is unchanged |
| `TenantTemplate.OnlyRequestNamesPass` | internal/caddyapi/tenanttemplate.go:8-69 | a text with one placeholder, wherever it stands and with or without a default, passes the screen if and only if its trimmed name is http.request. and something after it |
| `TenantTemplate.InsertsOnlyBackslashes` | internal/caddyapi/tenanttemplate.go:75-96 | the output differs only by inserted backslashes |
| `TenantTemplate.NeutralIsSafe` | internal/caddyapi/tenanttemplate.go:62-96 | all of these, the output passes the screen, and a second pass changes nothing |
| `TenantTemplate.ScanPlaceholderSpans` | internal/caddyapi/tenanttemplate.go:31-55 | the scan finds the spans the specification defines |
| `TenantTemplate.ScreenTenantTemplate` | internal/caddyapi/tenanttemplate.go:62-69 | passes if and only if every placeholder is allowed |
| `TenantTemplate.NeutralizeTenantTemplate` | internal/caddyapi/tenanttemplate.go:75-96 | the copying loop computes the specified output |
| `AccessLogStore.EveryRunIsExact` | internal/accesslog/store.go:80-142 | after any calls with failures and resends each rollup equals the aggregate of everything committed for its route in that hour, client and server errors apart |
| `AccessLogStore.UpsertKeepsExact` | internal/accesslog/store.go:63-68 | one upsert adds exactly one entry to its rollup |
| `AccessLogStore.ResendCountsOnce` | internal/accesslog/store.go:80-142 | a batch id in the ledger is a no-op and was counted once |
| `AccessLogStore.RememberedFor48Hours` | internal/accesslog/store.go:66-68 | whatever calls follow, a batch id stays in the ledger while no call comes more than 48 hours after it |
| `AccessLogStore.ResendIsDuplicate` | internal/accesslog/store.go:80-142 | a batch that was committed, heard or not, and is sent again within 48 hours is a duplicate and changes nothing |
| `AccessLogStore.ForgetsExactlyTheOld` | internal/accesslog/store.go:139-141 | a call forgets exactly the ids older than 48 hours if it names a batch, its commit is heard and cleaning works, else none |
| `AccessLogStore.AllOrNothing` | internal/accesslog/store.go:75-137 | a batch is written whole, or the store is unchanged; which one by what went wrong |
| `AccessLogStore.AnswerTells` | internal/accesslog/store.go:80-142 | what each answer implies about the store; accepted means written if and only if the database is there and the batch is not empty |
| `AccessLogStore.PruneKeepsNewest` | internal/accesslog/store.go:154-168 | every kept row of the route has a later time than every dropped one, or the same and a higher id |
| `AccessLogStore.PruneLeavesExactly` | internal/accesslog/store.go:154-168 | exactly the configured number of rows is left, or all if there are fewer |
| `AccessLogStore.AcceptedCallTrims` | internal/accesslog/store.go:80-168 | after an accepted call from any reachable store, each route of the batch whose pruning worked has exactly that many rows or all it had, the newest |
| `AccessLogStore.Store.InsertBatch` | internal/accesslog/store.go:80-142 | ledger, rows and rollups in one transaction, then best-effort cleaning |
| `LogForwarder.BatchIsWholeLines` | cmd/node-agent/main.go:1104-1183 | every posted batch is a non-empty run of whole lines |
| `LogForwarder.BatchIsLargest` | cmd/node-agent/main.go:1106-1175 | a batch ends at the last line end within 1 MiB, or within 8 MiB if the first has none, and there is none exactly when 8 MiB hold no line end |
| `LogForwarder.EveryRunNeverSkips` | cmd/node-agent/main.go:1104-1183 | over every run with failures and restarts, acknowledged batches cover the file up to the offset and the saved offset never passes it |
| `LogForwarder.RestartResumes` | cmd/node-agent/main.go:1187-1249 | after a restart the first turn goes on at the saved position when it is inside the file, else at 0, and saves exactly acknowledged positions |
| `LogForwarder.RunningGoesOn` | cmd/node-agent/main.go:1104-1183 | a running agent goes on where it stopped, whatever the sidecar holds, unless the file became shorter |
| `LogForwarder.EveryByteIsAckedOnce` | cmd/node-agent/main.go:1199-1211 | over every run in which acknowledged positions are saved, restarts included, no byte is acknowledged twice |
| `LogForwarder.StallsExactlyWithoutNewline` | cmd/node-agent/main.go:1104-1183 | a tick posts nothing if and only if no newline lies within one read |
| `LogForwarder.LongLineStallsForever` | cmd/node-agent/main.go:1104-1183 | a line of 8 MiB or more stalls delivery whatever is appended |
| `LogForwarder.DrainsExactlyWhenLinesFit` | cmd/node-agent/main.go:1104-1183 | draining reaches the last complete line if and only if each line fits one read |
| `LogForwarder.CalmTurnsDrain` | cmd/node-agent/main.go:1104-1183 | turns where everything works, as many as there are batches left, end where draining does |
| `LogForwarder.DeliversExactlyWhenLinesFit` | cmd/node-agent/main.go:1104-1183 | after any run, once the log rests and turns work, every complete line is delivered if and only if each one left fits one read |
| `LogForwarder.CutBatch` | cmd/node-agent/main.go:1154-1175 | the batch cut from one read is the one `LogForwarder.BatchIsLargest` describes |
| `LogForwarder.Forwarder.Poll` | cmd/node-agent/main.go:1104-1183 | one turn of the loop is the model's tick, which goes on from the saved or the running position as `LogForwarder.RestartResumes` and `LogForwarder.RunningGoesOn` say |

## Left out

- Real cryptography: sealing and opening are ideal, and chunks of different backups under one key are not told apart.
- SecretRotation: row counters and log output; the panel is stopped between runs.
- BackupStream: sink write errors, the legacy v1 reader, and streams of more than 2^64 chunks.
- SqliteDump.WriteValue: floats, whose decimal form is not modelled.
- SqliteDump: the schema part of a dump.
- Strings: case folding covers the ASCII letters, and lengths count characters instead of bytes.
- CacheScope: response headers that a route's custom handlers add.
- HostMatch.OverlapMissesNothing: reads root dots as absent; matchers as stored are in LiteralHosts, with the exact condition.
- RouteOrder.CaddyFirstMatchIsBest: reads root dots as absent; matchers as stored are in LiteralOrder, with the exact condition.
- LiteralOrder: hosts that normalising once leaves unstable, as a space before a root dot does.
- RouteCompiler: response bodies and headers other than cache scope, load balancing, health checks, transports and upstream request headers; they do not decide who reaches the backend.
- RouteCompiler: CIDR and country lists are given as already split, so a list text of separators only counts as empty.
- RouteModel: the custom handler sanitiser is represented by its verdict; accepted handlers reshape requests arbitrarily.
- Default single sign-on mode: it gates only page loads by design, and the policy predicate says just that.
- NodeConfig: which zones have a live certificate policy is given.
- RouteOrder.PatternsMeanPrefix: prefixes with pattern characters in them, and the case folding of path matching, are not covered.
- RouteOrder: sort.SliceStable is represented by an insertion sort with the same stable result.
- ConnPolicies: certificate parsing is a parameter.
- FleetFence: each scan is one atomic read of the store, and a refresh meets one instant.
- AuthEpoch: minting and key creation are value transitions with a history mark, not store commands.
- LogForwarder: log rotation and tail-only start.
- Log pipeline: end-to-end exactly-once delivery, since a resend may carry a longer body under another batch id.
- Access-log attribution, analytics queries, alerts, notifications, AI clients, DNS providers, firewall and tunnel commands: configuration data, I/O or thin wrappers.
