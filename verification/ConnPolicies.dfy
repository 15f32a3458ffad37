/**
  Per-host TLS connection policies (buildConnPolicies in internal/caddyapi/config.go): the TLS
  options of all routes on a host are merged, hosts with equal options share an entry, and Caddy
  takes the first entry that matches the server name (section 3 of RFC 6066).
 */
module ConnPolicies {
  import opened Wrappers
  import opened RouteModel

  /** The merged options of one host: a client-certificate CA ("" for none) and PQ-only. */
  datatype Options = Options(ca: string, pq: bool)

  const NONE := Options("", false)

  datatype Mode = RequireAndVerify | VerifyIfGiven

  datatype Policy = Policy(sni: seq<string>, options: Options, mode: Mode) | CatchAll

  // ---------------------------------------------------------------- what each route asks for

  /** usable says whether a PEM bundle yields a certificate. */
  datatype Env = Env(usable: string -> bool, pqAvailable: bool)

  function CaOf(r: Route, env: Env): string {
    if r.requireClientCert && env.usable(r.caPem) then r.caPem else ""
  }

  predicate PqOf(r: Route, env: Env) {
    r.tlsPqOnly && env.pqAvailable
  }

  predicate OptsIn(r: Route, env: Env) {
    CaOf(r, env) != "" || PqOf(r, env)
  }

  /** The first usable CA in route order among the routes on h. */
  function FirstCa(routes: seq<Route>, env: Env, h: string): string {
    if routes == [] then ""
    else
      var before := FirstCa(routes[..|routes| - 1], env, h);
      var r := routes[|routes| - 1];
      if before == "" && h in r.hosts then CaOf(r, env) else before
  }

  predicate AnyPq(routes: seq<Route>, env: Env, h: string) {
    exists i :: 0 <= i < |routes| && PqOf(routes[i], env) && h in routes[i].hosts
  }

  function Wanted(routes: seq<Route>, env: Env, h: string): Options {
    Options(FirstCa(routes, env, h), AnyPq(routes, env, h))
  }

  /** FirstCa really is the first: no earlier route on h has a usable CA. */
  lemma {:induction false} FirstCaIsFirst(routes: seq<Route>, env: Env, h: string)
    ensures FirstCa(routes, env, h) == "" <==>
            forall i :: 0 <= i < |routes| && h in routes[i].hosts ==> CaOf(routes[i], env) == ""
    ensures FirstCa(routes, env, h) != "" ==>
            exists i :: 0 <= i < |routes| && h in routes[i].hosts && FirstCa(routes, env, h) == CaOf(routes[i], env)
                        && forall j :: 0 <= j < i && h in routes[j].hosts ==> CaOf(routes[j], env) == ""
    decreases |routes|
  {
    if routes != [] {
      var front := routes[..|routes| - 1];
      FirstCaIsFirst(front, env, h);
      assert forall i :: 0 <= i < |front| ==> front[i] == routes[i];
    }
  }

  // ---------------------------------------------------------------- merging

  /** Hosts in the order the first route opted them in. */
  function AddHosts(order: seq<string>, hs: seq<string>): seq<string> {
    if hs == [] then order
    else
      var before := AddHosts(order, hs[..|hs| - 1]);
      if hs[|hs| - 1] in before then before else before + [hs[|hs| - 1]]
  }

  function HostOrder(routes: seq<Route>, env: Env): seq<string> {
    if routes == [] then []
    else
      var before := HostOrder(routes[..|routes| - 1], env);
      var r := routes[|routes| - 1];
      if OptsIn(r, env) then AddHosts(before, r.hosts) else before
  }

  predicate Distinct(hs: seq<string>) {
    forall i, j :: 0 <= i < j < |hs| ==> hs[i] != hs[j]
  }

  lemma {:induction false} AddHostsKeepsDistinct(order: seq<string>, hs: seq<string>)
    requires Distinct(order)
    ensures Distinct(AddHosts(order, hs))
    ensures forall h :: h in AddHosts(order, hs) <==> h in order || h in hs
    decreases |hs|
  {
    if hs != [] {
      AddHostsKeepsDistinct(order, hs[..|hs| - 1]);
      assert hs == hs[..|hs| - 1] + [hs[|hs| - 1]];
    }
  }

  /** The hosts listed are exactly those some opted-in route is on, each once. */
  lemma {:induction false} HostOrderListsOptedIn(routes: seq<Route>, env: Env)
    ensures Distinct(HostOrder(routes, env))
    ensures forall h :: h in HostOrder(routes, env) <==>
              exists i :: 0 <= i < |routes| && OptsIn(routes[i], env) && h in routes[i].hosts
    decreases |routes|
  {
    if routes != [] {
      var front, r := routes[..|routes| - 1], routes[|routes| - 1];
      HostOrderListsOptedIn(front, env);
      assert forall i :: 0 <= i < |front| ==> front[i] == routes[i];
      if OptsIn(r, env) {
        AddHostsKeepsDistinct(HostOrder(front, env), r.hosts);
      }
    }
  }

  /** A host no opted-in route is on wants nothing. */
  lemma OptedInWants(routes: seq<Route>, env: Env, h: string)
    ensures h in HostOrder(routes, env) <==> Wanted(routes, env, h) != NONE
  {
    HostOrderListsOptedIn(routes, env);
    FirstCaIsFirst(routes, env, h);
    if h in HostOrder(routes, env) {
      var i :| 0 <= i < |routes| && OptsIn(routes[i], env) && h in routes[i].hosts;
      assert CaOf(routes[i], env) != "" || PqOf(routes[i], env);
    }
  }

  // ---------------------------------------------------------------- grouping

  function Group(hs: seq<string>, wanted: string -> Options, mode: Mode): (ps: seq<Policy>)
    ensures hs != [] ==> ps != [] && ps[|ps| - 1].Policy?
    ensures forall k :: 0 <= k < |ps| ==> ps[k].Policy? && ps[k].sni != []
  {
    if hs == [] then []
    else
      var front, h := hs[..|hs| - 1], hs[|hs| - 1];
      var ps := Group(front, wanted, mode);
      if front != [] && wanted(h) == wanted(front[|front| - 1]) then
        ps[|ps| - 1 := ps[|ps| - 1].(sni := ps[|ps| - 1].sni + [h])]
      else ps + [Policy([h], wanted(h), mode)]
  }

  /** What buildConnPolicies emits. */
  function Emitted(routes: seq<Route>, env: Env, mode: Mode): seq<Policy> {
    var hs := HostOrder(routes, env);
    if hs == [] then [] else Group(hs, h => Wanted(routes, env, h), mode) + [CatchAll]
  }

  /** How many entries list h. */
  function Listed(ps: seq<Policy>, h: string): nat {
    if ps == [] then 0
    else
      var p := ps[|ps| - 1];
      Listed(ps[..|ps| - 1], h) + if p.Policy? && h in p.sni then 1 else 0
  }

  predicate EntryWants(p: Policy, wanted: string -> Options, mode: Mode) {
    p.Policy? && p.mode == mode && forall h :: h in p.sni ==> wanted(h) == p.options
  }

  /** Each host is in an entry with its own options. */
  lemma {:induction false} GroupKeepsOptions(hs: seq<string>, wanted: string -> Options, mode: Mode)
    ensures forall k :: 0 <= k < |Group(hs, wanted, mode)| ==> EntryWants(Group(hs, wanted, mode)[k], wanted, mode)
    ensures hs != [] ==> var ps := Group(hs, wanted, mode); ps[|ps| - 1].options == wanted(hs[|hs| - 1])
    decreases |hs|
  {
    if hs != [] {
      GroupKeepsOptions(hs[..|hs| - 1], wanted, mode);
    }
  }

  /** after is before with h in its last entry, or in an entry of its own at the end. */
  ghost predicate Extends(before: seq<Policy>, after: seq<Policy>, h: string, options: Options) {
    && after != []
    && after[|after| - 1].Policy? && after[|after| - 1].options == options
    && (|| (&& before != [] && before[|before| - 1].Policy? && before[|before| - 1].options == options
            && after[..|after| - 1] == before[..|before| - 1]
            && after[|after| - 1].sni == before[|before| - 1].sni + [h])
        || (after[..|after| - 1] == before && after[|after| - 1].sni == [h]))
  }

  lemma GroupExtends(hs: seq<string>, wanted: string -> Options, mode: Mode)
    requires hs != []
    ensures Extends(Group(hs[..|hs| - 1], wanted, mode), Group(hs, wanted, mode), hs[|hs| - 1], wanted(hs[|hs| - 1]))
  {
    var front, h := hs[..|hs| - 1], hs[|hs| - 1];
    var before, after := Group(front, wanted, mode), Group(hs, wanted, mode);
    GroupKeepsOptions(front, wanted, mode);
    if front != [] && wanted(h) == wanted(front[|front| - 1]) {
      assert after[..|after| - 1] == before[..|before| - 1];
    } else {
      assert after[..|after| - 1] == before;
    }
  }

  lemma ListedStep(before: seq<Policy>, after: seq<Policy>, last: string, options: Options, h: string)
    requires Extends(before, after, last, options)
    ensures Listed(before, h) == 0 || h != last ==>
              Listed(after, h) == Listed(before, h) + if h == last then 1 else 0
  {
  }

  /** Each distinct host is in exactly one entry. */
  lemma {:induction false} GroupListsOnce(hs: seq<string>, wanted: string -> Options, mode: Mode, h: string)
    requires Distinct(hs)
    ensures Listed(Group(hs, wanted, mode), h) == if h in hs then 1 else 0
    decreases |hs|
  {
    if hs != [] {
      var front, last := hs[..|hs| - 1], hs[|hs| - 1];
      GroupListsOnce(front, wanted, mode, h);
      GroupExtends(hs, wanted, mode);
      ListedStep(Group(front, wanted, mode), Group(hs, wanted, mode), last, wanted(last), h);
      assert h in hs <==> h in front || h == last;
    }
  }

  // ---------------------------------------------------------------- lookup

  predicate AnyCovers(covers: (string, string) -> bool, sni: seq<string>, name: string) {
    exists i :: 0 <= i < |sni| && covers(sni[i], name)
  }

  /** What one entry decides for a server name, if it matches. */
  function Decides(p: Policy, covers: (string, string) -> bool, name: string): Option<Options> {
    if p.CatchAll? then Some(NONE)
    else if AnyCovers(covers, p.sni, name) then Some(p.options)
    else None
  }

  /** Caddy's choice: the options of the first entry that matches the server name. */
  function Lookup(ps: seq<Policy>, covers: (string, string) -> bool, name: string): Option<Options> {
    if ps == [] then None
    else
      var before := Lookup(ps[..|ps| - 1], covers, name);
      if before.Some? then before else Decides(ps[|ps| - 1], covers, name)
  }

  /** The first host, in opt-in order, whose pattern covers the name. */
  function FirstCover(hs: seq<string>, covers: (string, string) -> bool, name: string): Option<string> {
    if hs == [] then None
    else
      var before := FirstCover(hs[..|hs| - 1], covers, name);
      if before.None? && covers(hs[|hs| - 1], name) then Some(hs[|hs| - 1]) else before
  }

  /** FirstCover finds a covering host with none before it, and finds one if there is one. */
  lemma {:induction false} FirstCoverIsFirst(hs: seq<string>, covers: (string, string) -> bool, name: string)
    ensures FirstCover(hs, covers, name).Some? <==> AnyCovers(covers, hs, name)
    ensures FirstCover(hs, covers, name).Some? ==>
              exists i :: 0 <= i < |hs| && hs[i] == FirstCover(hs, covers, name).value && covers(hs[i], name)
                          && forall j :: 0 <= j < i ==> !covers(hs[j], name)
    decreases |hs|
  {
    if hs != [] {
      var front := hs[..|hs| - 1];
      FirstCoverIsFirst(front, covers, name);
      assert forall i :: 0 <= i < |front| ==> front[i] == hs[i];
    }
  }

  lemma LookupStep(
    before: seq<Policy>, after: seq<Policy>, h: string, options: Options,
    covers: (string, string) -> bool, name: string)
    requires Extends(before, after, h, options)
    ensures Lookup(after, covers, name)
            == var found := Lookup(before, covers, name);
               if found.None? && covers(h, name) then Some(options) else found
  {
    if after[..|after| - 1] == before && after[|after| - 1].sni == [h] {
      GrownCovers([], h, covers, name);
      assert [] + [h] == [h];
    } else {
      GrownCovers(before[|before| - 1].sni, h, covers, name);
    }
  }

  lemma {:induction false} GroupLookup(
    hs: seq<string>, wanted: string -> Options, mode: Mode, covers: (string, string) -> bool, name: string)
    ensures var w := FirstCover(hs, covers, name);
            Lookup(Group(hs, wanted, mode), covers, name) == if w.Some? then Some(wanted(w.value)) else None
    decreases |hs|
  {
    if hs != [] {
      var front, h := hs[..|hs| - 1], hs[|hs| - 1];
      GroupLookup(front, wanted, mode, covers, name);
      GroupExtends(hs, wanted, mode);
      LookupStep(Group(front, wanted, mode), Group(hs, wanted, mode), h, wanted(h), covers, name);
    }
  }

  lemma GrownCovers(sni: seq<string>, h: string, covers: (string, string) -> bool, name: string)
    ensures AnyCovers(covers, sni + [h], name) <==> AnyCovers(covers, sni, name) || covers(h, name)
  {
    var grown := sni + [h];
    assert forall i :: 0 <= i < |sni| ==> grown[i] == sni[i];
    assert grown[|sni|] == h;
  }

  /** For every server name: the emitted list resolves it to the merged options of the first
      opted-in host whose pattern covers it, and to the plain catch-all when none does. */
  lemma LookupOfEmitted(routes: seq<Route>, env: Env, mode: Mode, covers: (string, string) -> bool, name: string)
    ensures var w := FirstCover(HostOrder(routes, env), covers, name);
            Emitted(routes, env, mode) != [] ==>
              Lookup(Emitted(routes, env, mode), covers, name)
              == Some(if w.Some? then Wanted(routes, env, w.value) else NONE)
  {
    var hs, wanted := HostOrder(routes, env), h => Wanted(routes, env, h);
    GroupLookup(hs, wanted, mode, covers, name);
    var ps := Group(hs, wanted, mode);
    assert (ps + [CatchAll])[..|ps|] == ps;
  }

  /** Each opted-in host is in exactly one entry and no other host is in any. */
  lemma EachHostIsListedOnce(routes: seq<Route>, env: Env, mode: Mode, h: string)
    ensures Listed(Emitted(routes, env, mode), h) == if Wanted(routes, env, h) != NONE then 1 else 0
  {
    var hs, wanted := HostOrder(routes, env), h => Wanted(routes, env, h);
    HostOrderListsOptedIn(routes, env);
    OptedInWants(routes, env, h);
    GroupListsOnce(hs, wanted, mode, h);
    var ps := Group(hs, wanted, mode);
    assert (ps + [CatchAll])[..|ps|] == ps;
  }

  /** The catch-all is last and only last, and present exactly when some route opted in. */
  lemma CatchAllIsLast(routes: seq<Route>, env: Env, mode: Mode)
    ensures forall k :: 0 <= k < |Emitted(routes, env, mode)| ==>
              (Emitted(routes, env, mode)[k].CatchAll? <==> k == |Emitted(routes, env, mode)| - 1)
    ensures Emitted(routes, env, mode) != [] <==>
              exists i :: 0 <= i < |routes| && OptsIn(routes[i], env) && routes[i].hosts != []
  {
    HostOrderListsOptedIn(routes, env);
    var hs := HostOrder(routes, env);
    if hs != [] {
      assert hs[0] in hs;
    }
    if i :| 0 <= i < |routes| && OptsIn(routes[i], env) && routes[i].hosts != [] {
      assert routes[i].hosts[0] in hs;
    }
  }

  /** A host gets its own options exactly when the first opted-in host covering it wants the same. */
  lemma HostGetsItsOptionsExactly(routes: seq<Route>, env: Env, mode: Mode, covers: (string, string) -> bool, h: string)
    requires h in HostOrder(routes, env) && covers(h, h)
    ensures var w := FirstCover(HostOrder(routes, env), covers, h);
            && w.Some?
            && (Lookup(Emitted(routes, env, mode), covers, h) == Some(Wanted(routes, env, h))
                <==> Wanted(routes, env, w.value) == Wanted(routes, env, h))
  {
    var hs := HostOrder(routes, env);
    FirstCoverIsFirst(hs, covers, h);
    var i :| 0 <= i < |hs| && hs[i] == h;
    assert covers(hs[i], h);
    LookupOfEmitted(routes, env, mode, covers, h);
  }

  /** Without wildcards over it, every host gets the first usable CA in route order and the OR of
      the PQ-only flags; a host that opted into nothing gets the catch-all. */
  lemma ExactHostGetsItsOptions(routes: seq<Route>, env: Env, mode: Mode, covers: (string, string) -> bool, h: string)
    requires covers(h, h) && forall x :: x in HostOrder(routes, env) && covers(x, h) ==> x == h
    requires Emitted(routes, env, mode) != []
    ensures Lookup(Emitted(routes, env, mode), covers, h) == Some(Wanted(routes, env, h))
  {
    LookupOfEmitted(routes, env, mode, covers, h);
    OptedInWants(routes, env, h);
    var hs := HostOrder(routes, env);
    FirstCoverIsFirst(hs, covers, h);
    if h in hs {
      var i :| 0 <= i < |hs| && hs[i] == h;
      assert covers(hs[i], h);
    }
  }

  /** The route is on the host and requires certificates of a CA that can be read. */
  predicate Requires(r: Route, env: Env, h: string) {
    h in r.hosts && r.requireClientCert && r.caPem != "" && env.usable(r.caPem)
  }

  lemma RequiresMeans(r: Route, env: Env, h: string)
    ensures Requires(r, env, h) <==> h in r.hosts && CaOf(r, env) != ""
    ensures Requires(r, env, h) ==> CaOf(r, env) == r.caPem
  {
  }

  lemma FirstRequiredWins(routes: seq<Route>, env: Env, h: string, i: nat)
    requires i < |routes| && Requires(routes[i], env, h)
    requires forall j :: 0 <= j < i ==> !Requires(routes[j], env, h)
    ensures FirstCa(routes, env, h) == routes[i].caPem
  {
    FirstCaIsFirst(routes, env, h);
    RequiresMeans(routes[i], env, h);
    var k :| 0 <= k < |routes| && h in routes[k].hosts && FirstCa(routes, env, h) == CaOf(routes[k], env)
             && forall j :: 0 <= j < k && h in routes[j].hosts ==> CaOf(routes[j], env) == "";
    RequiresMeans(routes[k], env, h);
  }

  /** On the routes' own fields: a connection under the name of a host that no wildcard is over is asked
      for a certificate exactly when some route on it requires one of a CA that can be read, and then of
      the first one's; and it is PQ-only exactly when some route on it is and the node has the curves. */
  lemma {:induction false} HostIsAskedExactly(
    routes: seq<Route>, env: Env, mode: Mode, covers: (string, string) -> bool, h: string)
    requires covers(h, h) && forall x :: x in HostOrder(routes, env) && covers(x, h) ==> x == h
    requires Emitted(routes, env, mode) != []
    ensures exists got ::
              Lookup(Emitted(routes, env, mode), covers, h) == Some(got) && AskedByFields(routes, env, h, got)
  {
    ExactHostGetsItsOptions(routes, env, mode, covers, h);
    WantedByFields(routes, env, h);
  }

  ghost predicate AskedByFields(routes: seq<Route>, env: Env, h: string, got: Options) {
    && (got.ca != "" <==> exists i :: 0 <= i < |routes| && Requires(routes[i], env, h))
    && (forall i: nat :: i < |routes| && Requires(routes[i], env, h)
                         && (forall j :: 0 <= j < i ==> !Requires(routes[j], env, h))
                         ==> got.ca == routes[i].caPem)
    && (got.pq <==> env.pqAvailable && exists i :: 0 <= i < |routes| && routes[i].tlsPqOnly && h in routes[i].hosts)
  }

  lemma {:induction false} WantedByFields(routes: seq<Route>, env: Env, h: string)
    ensures AskedByFields(routes, env, h, Wanted(routes, env, h))
  {
    FirstCaIsFirst(routes, env, h);
    forall i | 0 <= i < |routes|
      ensures Requires(routes[i], env, h) <==> h in routes[i].hosts && CaOf(routes[i], env) != ""
    {
      RequiresMeans(routes[i], env, h);
    }
    forall i: nat | i < |routes| && Requires(routes[i], env, h)
                    && (forall j :: 0 <= j < i ==> !Requires(routes[j], env, h))
      ensures FirstCa(routes, env, h) == routes[i].caPem
    {
      FirstRequiredWins(routes, env, h, i);
    }
  }

  /** One leading "*" label covers one label. */
  predicate WildcardCovers(p: string, name: string) {
    || p == name
    || (|p| >= 2 && p[0] == '*' && p[1] == '.' && |name| >= |p| && name[|name| - |p| + 1..] == p[1..]
        && forall i :: 0 <= i <= |name| - |p| ==> name[i] != '.')
  }

  /** The failing family: a PQ-only wildcard opted in before a host that requires a client
      certificate. The host's connections match the wildcard's entry, which asks for none. */
  lemma EarlierWildcardShadows(
    wild: Route, exact: Route, env: Env, mode: Mode, covers: (string, string) -> bool, w: string, h: string)
    requires wild.hosts == [w] && exact.hosts == [h] && w != h && covers(w, h)
    requires PqOf(wild, env) && CaOf(wild, env) == "" && CaOf(exact, env) != ""
    ensures Wanted([wild, exact], env, h).ca == CaOf(exact, env)
    ensures Lookup(Emitted([wild, exact], env, mode), covers, h) == Some(Options("", true))
  {
    TwoHosts(wild, exact, env, w, h);
    TwoWanted(wild, exact, env, w, h);
    LookupOfEmitted([wild, exact], env, mode, covers, h);
    FirstOfPair(covers, w, h, h);
  }

  lemma FirstOfPair(covers: (string, string) -> bool, x: string, y: string, name: string)
    requires covers(x, name)
    ensures FirstCover([x, y], covers, name) == Some(x)
  {
    assert [x, y][..1] == [x] && [x][..0] == [];
    assert FirstCover([x], covers, name) == Some(x);
  }

  lemma TwoWanted(wild: Route, exact: Route, env: Env, w: string, h: string)
    requires wild.hosts == [w] && exact.hosts == [h] && w != h
    requires PqOf(wild, env) && CaOf(wild, env) == "" && CaOf(exact, env) != ""
    ensures Wanted([wild, exact], env, w) == Options("", true)
    ensures Wanted([wild, exact], env, h).ca == CaOf(exact, env)
  {
    WantedGrows([], env, wild);
    WantedGrows([wild], env, exact);
    assert [] + [wild] == [wild] && [wild] + [exact] == [wild, exact];
    assert Wanted([], env, w) == NONE && Wanted([], env, h) == NONE;
    assert Wanted([wild], env, w) == Options("", true) && Wanted([wild], env, h) == NONE;
  }

  lemma TwoHosts(wild: Route, exact: Route, env: Env, w: string, h: string)
    requires wild.hosts == [w] && exact.hosts == [h] && w != h && OptsIn(wild, env) && OptsIn(exact, env)
    ensures HostOrder([wild, exact], env) == [w, h]
  {
    assert [wild, exact][..1] == [wild] && [wild][..0] == [];
    assert [w][..0] == [] && [h][..0] == [];
    assert AddHosts([], []) == [] && AddHosts([], [w]) == [w];
    assert HostOrder([], env) == [] && HostOrder([wild], env) == [w];
    assert AddHosts([w], [h]) == [w, h];
  }

  lemma WildcardShadowsClientAuth(wild: Route, exact: Route, env: Env, mode: Mode)
    requires wild.hosts == ["*.z"] && exact.hosts == ["a.z"]
    requires PqOf(wild, env) && CaOf(wild, env) == "" && CaOf(exact, env) != ""
    ensures Lookup(Emitted([wild, exact], env, mode), WildcardCovers, "a.z") == Some(Options("", true))
    ensures Some(Wanted([wild, exact], env, "a.z")) != Some(Options("", true))
  {
    assert "*.z"[0] != "a.z"[0];
    EarlierWildcardShadows(wild, exact, env, mode, WildcardCovers, "*.z", "a.z");
  }

  // ---------------------------------------------------------------- the program

  /** The merge loop: one map entry per host, and the hosts in first-seen order. */
  method MergeRoutes(routes: seq<Route>, env: Env) returns (hosts: seq<string>, merged: map<string, Options>)
    ensures hosts == HostOrder(routes, env)
    ensures forall h :: h in hosts <==> h in merged
    ensures forall h :: h in merged ==> merged[h] == Wanted(routes, env, h)
  {
    hosts, merged := [], map[];
    for i := 0 to |routes|
      invariant hosts == HostOrder(routes[..i], env)
      invariant forall h :: h in hosts <==> h in merged
      invariant forall h :: h in merged ==> merged[h] == Wanted(routes[..i], env, h)
    {
      var r := routes[i];
      assert routes[..i + 1][..i] == routes[..i] && routes[..i + 1][i] == r;
      ghost var before := routes[..i];
      forall h: string ensures h in hosts <==> Wanted(before, env, h) != NONE { OptedInWants(before, env, h); }
      WantedGrows(before, env, r);
      assert routes[..i + 1] == before + [r];
      if OptsIn(r, env) {
        hosts, merged := MergeHosts(hosts, merged, r.hosts, CaOf(r, env), PqOf(r, env));
      }
    }
    assert routes[..|routes|] == routes;
  }

  function Merge(cur: Options, ca: string, pq: bool): Options {
    Options(if cur.ca == "" then ca else cur.ca, cur.pq || pq)
  }

  /** What one more route does to the options of every host. */
  lemma WantedGrows(before: seq<Route>, env: Env, r: Route)
    ensures forall h: string ::
      Wanted(before + [r], env, h)
      == if h in r.hosts then Merge(Wanted(before, env, h), CaOf(r, env), PqOf(r, env)) else Wanted(before, env, h)
  {
    var after := before + [r];
    assert after[..|before|] == before && after[|before|] == r;
    forall h: string
      ensures Wanted(after, env, h)
              == if h in r.hosts then Merge(Wanted(before, env, h), CaOf(r, env), PqOf(r, env))
                 else Wanted(before, env, h)
    {
      assert AnyPq(before, env, h) ==> AnyPq(after, env, h) by {
        if i :| 0 <= i < |before| && PqOf(before[i], env) && h in before[i].hosts {
          assert after[i] == before[i];
        }
      }
      if h in r.hosts && PqOf(r, env) {
        assert AnyPq(after, env, h);
      }
    }
  }

  /** The inner loop over one route's hosts, which may repeat. */
  method MergeHosts(hosts0: seq<string>, merged0: map<string, Options>, hs: seq<string>, ca: string, pq: bool)
    returns (hosts: seq<string>, merged: map<string, Options>)
    requires forall h :: h in hosts0 <==> h in merged0
    ensures hosts == AddHosts(hosts0, hs)
    ensures forall h :: h in hosts <==> h in merged
    ensures forall h :: h in merged <==> h in merged0 || h in hs
    ensures forall h :: h in merged ==>
              merged[h] == var cur := if h in merged0 then merged0[h] else NONE;
                           if h in hs then Merge(cur, ca, pq) else cur
  {
    hosts, merged := hosts0, merged0;
    for j := 0 to |hs|
      invariant hosts == AddHosts(hosts0, hs[..j])
      invariant forall h :: h in hosts <==> h in merged
      invariant forall h :: h in merged <==> h in merged0 || h in hs[..j]
      invariant forall h :: h in merged ==>
                  merged[h] == var cur := if h in merged0 then merged0[h] else NONE;
                               if h in hs[..j] then Merge(cur, ca, pq) else cur
    {
      var h := hs[j];
      assert hs[..j + 1][..j] == hs[..j] && hs[..j + 1] == hs[..j] + [h];
      var cur := if h in merged then merged[h] else NONE;
      if h !in merged {
        hosts := hosts + [h];
      }
      if cur.ca == "" {
        cur := cur.(ca := ca);
      }
      cur := cur.(pq := cur.pq || pq);
      merged := merged[h := cur];
    }
    assert hs[..|hs|] == hs;
  }

  /** The loop over the merged hosts: neighbours with equal options share an entry. */
  method GroupHosts(hosts: seq<string>, merged: map<string, Options>, mode: Mode, ghost wanted: string -> Options)
    returns (out: seq<Policy>)
    requires forall h :: h in hosts ==> h in merged && merged[h] == wanted(h)
    ensures out == Group(hosts, wanted, mode)
  {
    out := [];
    for i := 0 to |hosts|
      invariant out == Group(hosts[..i], wanted, mode)
    {
      var p := merged[hosts[i]];
      assert hosts[..i + 1][..i] == hosts[..i];
      if i > 0 && p == merged[hosts[i - 1]] {
        var last := out[|out| - 1];
        out := out[|out| - 1 := last.(sni := last.sni + [hosts[i]])];
      } else {
        out := out + [Policy([hosts[i]], p, mode)];
      }
    }
    assert hosts[..|hosts|] == hosts;
  }

  /** buildConnPolicies */
  method BuildConnPolicies(routes: seq<Route>, env: Env, failOpen: bool) returns (out: seq<Policy>)
    ensures out == Emitted(routes, env, if failOpen then VerifyIfGiven else RequireAndVerify)
  {
    var mode := if failOpen then VerifyIfGiven else RequireAndVerify;
    var hosts, merged := MergeRoutes(routes, env);
    out := GroupHosts(hosts, merged, mode, h => Wanted(routes, env, h));
    if out != [] {
      out := out + [CatchAll];
    }
  }
}
