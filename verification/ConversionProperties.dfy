/** What the generated HTTPRoutes guarantee: a partition of the hosts, and unchanged dispatch. */
module ConversionProperties {
  import opened Api
  import opened Lists
  import opened Text
  import opened Ingresses
  import opened HostGroups

  // ------------------------------------------------------------- groups

  ghost predicate Ascending(xs: seq<string>) {
    forall i, j | 0 <= i < j < |xs| :: xs[i] != xs[j] && Le(xs[i], xs[j])
  }

  /** A group is a non-empty ascending list of hosts that all have its rules; no-host stands alone. */
  ghost predicate Sound(m: RuleMap, g: Group) {
    && g.hosts != [] && Ascending(g.hosts)
    && (forall h <- g.hosts :: h in m && m[h] == g.rules)
    && ("" in g.hosts ==> g.hosts == [""])
  }

  lemma SortedHosts(hosts: set<string>)
    ensures Ascending(SortSet(hosts)) && (forall h :: h in SortSet(hosts) <==> h in hosts)
    ensures hosts != {} <==> SortSet(hosts) != []
  {
    SortSetSorted(hosts);
    forall h ensures h in SortSet(hosts) <==> h in hosts { SortSetMembers(hosts, h); }
  }

  lemma SplitIsSound(m: RuleMap, hosts: set<string>, rules: seq<RouteRule>, g: Group)
    requires hosts != {} && (forall h <- hosts :: h in m && m[h] == rules) && g in SplitHosts(hosts, rules)
    ensures Sound(m, g) && g.rules == rules
  {
    SortedHosts(hosts);
    SortedHosts(hosts - {""});
    if "" in hosts && hosts == {""} { assert SortSet(hosts) == [""] + SortSet(hosts - {""}); }
    assert "" in hosts && hosts != {""} ==> hosts - {""} != {};
  }

  lemma SplitCovers(hosts: set<string>, rules: seq<RouteRule>, h: string)
    requires h in hosts
    ensures exists g <- SplitHosts(hosts, rules) :: h in g.hosts
  {
    SortedHosts(hosts);
    SortedHosts(hosts - {""});
    var gs := SplitHosts(hosts, rules);
    assert h in gs[if "" in hosts && hosts != {""} && h != "" then 1 else 0].hosts;
  }

  lemma GroupsAreSound(sig: Signature, m: RuleMap, g: Group)
    requires Injective(sig) && g in Groups(sig, m)
    ensures Sound(m, g)
  {
    var sigs := Signatures(sig, m, m.Keys);
    FlatMapMember(GroupsFor(sig, m), SortSet(sigs), g);
    var s :| s in SortSet(sigs) && g in GroupsFor(sig, m)(s);
    SortSetMembers(sigs, s);
    var h :| h in m && sig(m[h]) == s;
    GroupsForSignature(sig, m, s, m[h]);
    SplitIsSound(m, Sharing(sig, m, m.Keys, s), m[h], g);
  }

  lemma GroupsCover(sig: Signature, m: RuleMap, h: string)
    requires Injective(sig) && h in m
    ensures exists g <- Groups(sig, m) :: h in g.hosts
  {
    var sigs, s := Signatures(sig, m, m.Keys), sig(m[h]);
    SortSetMembers(sigs, s);
    GroupsForSignature(sig, m, s, m[h]);
    SplitCovers(Sharing(sig, m, m.Keys, s), m[h], h);
    var g :| g in GroupsFor(sig, m)(s) && h in g.hosts;
    FlatMapMember(GroupsFor(sig, m), SortSet(sigs), g);
  }

  /** What tells two groups apart. */
  ghost function GroupKey(sig: Signature): Group -> (string, bool) {
    (g: Group) => (sig(g.rules), "" in g.hosts)
  }

  lemma GroupsForAreDistinct(sig: Signature, m: RuleMap, s: string)
    requires Injective(sig) && s in Signatures(sig, m, m.Keys)
    ensures DistinctBy(GroupKey(sig), GroupsFor(sig, m)(s))
    ensures forall g <- GroupsFor(sig, m)(s) :: sig(g.rules) == s
  {
    var h :| h in m && sig(m[h]) == s;
    GroupsForSignature(sig, m, s, m[h]);
    SortedHosts(Sharing(sig, m, m.Keys, s) - {""});
  }

  lemma GroupsAreDistinct(sig: Signature, m: RuleMap)
    requires Injective(sig)
    ensures DistinctBy(GroupKey(sig), Groups(sig, m))
  {
    var sigs := Signatures(sig, m, m.Keys);
    var f, xs := GroupsFor(sig, m), SortSet(sigs);
    SortSetSorted(sigs);
    forall i | 0 <= i < |xs|
      ensures DistinctBy(GroupKey(sig), f(xs[i])) && forall g <- f(xs[i]) :: sig(g.rules) == xs[i]
    {
      SortSetMembers(sigs, xs[i]);
      GroupsForAreDistinct(sig, m, xs[i]);
    }
    FlatMapDistinct(f, GroupKey(sig), xs);
  }

  lemma HostIsInOneGroup(sig: Signature, m: RuleMap, i: nat, j: nat, h: string)
    requires Injective(sig) && i < |Groups(sig, m)| && j < |Groups(sig, m)|
    requires h in Groups(sig, m)[i].hosts && h in Groups(sig, m)[j].hosts
    ensures i == j
  {
    GroupsAreSound(sig, m, Groups(sig, m)[i]);
    GroupsAreSound(sig, m, Groups(sig, m)[j]);
    GroupsAreDistinct(sig, m);
    assert GroupKey(sig)(Groups(sig, m)[i]) == GroupKey(sig)(Groups(sig, m)[j]);
  }

  // ------------------------------------------------------------- routes

  /** A route without host names takes requests for no particular host. */
  predicate Serves(r: HttpRoute, h: string) {
    if h == "" then r.hostnames == [] else h in r.hostnames
  }

  lemma RouteServesGroup(sig: Signature, m: RuleMap, i: nat, name: string, default: Option<RouteRule>, h: string)
    requires Injective(sig) && i < |RoutesFrom(name, Groups(sig, m), default)| && m != map[]
    ensures var routes := RoutesFrom(name, Groups(sig, m), default);
            && |routes| == |Groups(sig, m)| && routes[i].rules == Groups(sig, m)[i].rules
            && (Serves(routes[i], h) <==> h in Groups(sig, m)[i].hosts)
            && Ascending(routes[i].hostnames) && "" !in routes[i].hostnames
  {
    var l :| l in m;
    GroupsCover(sig, m, l);
    GroupsAreSound(sig, m, Groups(sig, m)[i]);
  }

  lemma GroupServing(sig: Signature, m: RuleMap, h: string) returns (i: nat)
    requires Injective(sig) && h in m
    ensures i < |Groups(sig, m)| && h in Groups(sig, m)[i].hosts && Groups(sig, m)[i].rules == m[h]
  {
    GroupsCover(sig, m, h);
    var g :| g in Groups(sig, m) && h in g.hosts;
    i :| 0 <= i < |Groups(sig, m)| && Groups(sig, m)[i] == g;
    GroupsAreSound(sig, m, g);
  }

  /** Every listed host is served by exactly one route, with its own rules and the default rule last. */
  lemma HostsArePartitioned(sig: Signature, input: Input, ing: Ingress, h: string) returns (i: nat)
    requires Injective(sig) && h in ListedHosts(input, ing.rules)
    ensures var routes := Routes(sig, input, ing);
            && i < |routes| && Serves(routes[i], h) && routes[i].rules == FinalRules(input, ing, h)
            && forall j | 0 <= j < |routes| && Serves(routes[j], h) :: j == i
  {
    var m, d := FinalMap(input, ing), ConvertDefaultBackend(input, ing);
    i := GroupServing(sig, m, h);
    RouteServesGroup(sig, m, i, ing.name, d, h);
    forall j | 0 <= j < |Routes(sig, input, ing)| && Serves(Routes(sig, input, ing)[j], h) ensures j == i {
      RouteServesGroup(sig, m, j, ing.name, d, h);
      HostIsInOneGroup(sig, m, i, j, h);
    }
  }

  /** Routes invent no hosts, and never merge no-host with named ones. */
  lemma OnlyListedHostsAreServed(sig: Signature, input: Input, ing: Ingress, i: nat, h: string)
    requires Injective(sig) && ListedHosts(input, ing.rules) != {}
    requires i < |Routes(sig, input, ing)| && Serves(Routes(sig, input, ing)[i], h)
    ensures h in ListedHosts(input, ing.rules) && Routes(sig, input, ing)[i].rules == FinalRules(input, ing, h)
    ensures Ascending(Routes(sig, input, ing)[i].hostnames) && "" !in Routes(sig, input, ing)[i].hostnames
  {
    var m := FinalMap(input, ing);
    assert m.Keys == ListedHosts(input, ing.rules);
    RouteServesGroup(sig, m, i, ing.name, ConvertDefaultBackend(input, ing), h);
    GroupsAreSound(sig, m, Groups(sig, m)[i]);
  }

  lemma SameGroup(sig: Signature, m: RuleMap, i: nat, j: nat, h: string, l: string)
    requires Injective(sig) && i < |Groups(sig, m)| && j < |Groups(sig, m)|
    requires h in Groups(sig, m)[i].hosts && l in Groups(sig, m)[j].hosts && h != "" && l != ""
    requires h in m && l in m && m[h] == m[l]
    ensures i == j
  {
    GroupsAreSound(sig, m, Groups(sig, m)[i]);
    GroupsAreSound(sig, m, Groups(sig, m)[j]);
    GroupsAreDistinct(sig, m);
    assert GroupKey(sig)(Groups(sig, m)[i]) == GroupKey(sig)(Groups(sig, m)[j]);
  }

  /** Named hosts with equal rules share a route. */
  lemma EqualRulesShareARoute(sig: Signature, input: Input, ing: Ingress, h: string, l: string, i: nat)
    requires Injective(sig) && h in ListedHosts(input, ing.rules) && l in ListedHosts(input, ing.rules)
    requires h != "" && l != "" && FinalRules(input, ing, h) == FinalRules(input, ing, l)
    requires i < |Routes(sig, input, ing)| && Serves(Routes(sig, input, ing)[i], h)
    ensures Serves(Routes(sig, input, ing)[i], l)
  {
    var m, d := FinalMap(input, ing), ConvertDefaultBackend(input, ing);
    var j := GroupServing(sig, m, l);
    RouteServesGroup(sig, m, i, ing.name, d, h);
    RouteServesGroup(sig, m, i, ing.name, d, l);
    SameGroup(sig, m, i, j, h, l);
  }

  lemma NumberedNamesAreDistinct(ingress: string, i: nat, j: nat, total: nat)
    requires i < total && j < total && RouteName(ingress, i, total) == RouteName(ingress, j, total)
    ensures i == j
  {
    if total > 1 {
      var stem := ingress + "-";
      assert Itoa(i + 1) == (stem + Itoa(i + 1))[|stem|..] == (stem + Itoa(j + 1))[|stem|..] == Itoa(j + 1);
      ItoaInjective(i + 1, j + 1);
    }
  }

  /** No two routes of an Ingress have the same name. */
  lemma RouteNamesAreDistinct(sig: Signature, input: Input, ing: Ingress, i: nat, j: nat)
    requires i < |Routes(sig, input, ing)| && j < |Routes(sig, input, ing)|
    requires Routes(sig, input, ing)[i].name == Routes(sig, input, ing)[j].name
    ensures i == j
  {
    var groups := Groups(sig, FinalMap(input, ing));
    if groups != [] { NumberedNamesAreDistinct(ing.name, i, j, |groups|); }
  }

  /** A single route has the name of its Ingress, several are numbered from one. */
  lemma RoutesAreNamedAfterIngress(sig: Signature, input: Input, ing: Ingress, i: nat)
    requires i < |Routes(sig, input, ing)|
    ensures Routes(sig, input, ing)[i].name
            == if |Routes(sig, input, ing)| == 1 then ing.name else ing.name + "-" + Itoa(i + 1)
  {}

  /** An Ingress that lists no host gets one catch-all route for its default backend, if it has one. */
  lemma DefaultOnly(sig: Signature, input: Input, ing: Ingress)
    requires ListedHosts(input, ing.rules) == {}
    ensures Routes(sig, input, ing) == match ConvertDefaultBackend(input, ing)
                                       case Some(d) => [HttpRoute(ing.name, [], [d])]
                                       case None => []
  {
    var m := FinalMap(input, ing);
    assert m.Keys == {};
    assert Signatures(sig, m, m.Keys) == {};
    assert Groups(sig, m) == [];
  }

  // ------------------------------------------------------------- dispatch

  function OwnFrom(o: string): IngressRule -> seq<IngressPath> {
    (r: IngressRule) => if r.host == o && r.http.Some? then r.http.value else []
  }

  /** Reference: the paths the Ingress itself gives for host `o`. */
  function OwnPaths(rules: seq<IngressRule>, o: string): seq<IngressPath> { FlatMap(OwnFrom(o), rules) }

  function Rewritten(input: Input, o: string): string { TransformHostname(o, input.domainReplace, input.domainSuffix) }

  /** No rule for another host that is rewritten to the same one has a path. */
  predicate NoIntruder(input: Input, rules: seq<IngressRule>, o: string) {
    forall r <- rules | r.host != o && HostOf(input, r) == Rewritten(input, o) && r.http.Some? :: r.http.value == []
  }

  lemma {:induction false} RewrittenHasOwn(input: Input, rules: seq<IngressRule>, o: string)
    ensures |OwnPaths(rules, o)| <= |PathsOf(input, rules, Rewritten(input, o))|
    ensures NoIntruder(input, rules, o) ==> PathsOf(input, rules, Rewritten(input, o)) == OwnPaths(rules, o)
    ensures !NoIntruder(input, rules, o) ==> |OwnPaths(rules, o)| < |PathsOf(input, rules, Rewritten(input, o))|
  {
    if rules != [] {
      RewrittenHasOwn(input, rules[1..], o);
      assert forall r <- rules[1..] :: r in rules;
      assert forall r <- rules :: r == rules[0] || r in rules[1..];
    }
  }

  /** The route of a rewritten host has exactly the paths of `o` if and only if no other host intrudes. */
  lemma OwnPathsIff(input: Input, rules: seq<IngressRule>, o: string)
    ensures PathsOf(input, rules, Rewritten(input, o)) == OwnPaths(rules, o) <==> NoIntruder(input, rules, o)
  {
    RewrittenHasOwn(input, rules, o);
  }

  /** Whatever hosts are rewritten to `h`, its one route dispatches as an Ingress would that had all their paths. */
  lemma RouteDispatchesMergedPaths(sig: Signature, input: Input, ing: Ingress, h: string, request: string, i: nat)
    requires Injective(sig) && h in ListedHosts(input, ing.rules)
    requires i < |Routes(sig, input, ing)| && Serves(Routes(sig, input, ing)[i], h)
    requires (forall p <- PathsOf(input, ing.rules, h) :: Admissible(p)) && "/" <= request
    ensures var ps := PathsOf(input, ing.rules, h);
            SentTo(input, ing.namespace, IngressDispatch(ps, ing.defaultBackend, request),
                   RouteDispatch(Routes(sig, input, ing)[i].rules, request))
            <==> DefaultConverts(ing) || SomePathSelects(ps, request)
  {
    var k := HostsArePartitioned(sig, input, ing, h);
    RulesDispatchAlike(input, ing, PathsOf(input, ing.rules, h), request);
  }

  /**
   Conversion preserves dispatch: for every host `o` the Ingress lists and every request path, the one
   route that serves the rewritten host sends the request to the Service and port of the backend the Ingress
   selects for `o`, exactly unless that is a default backend that is no Service. Other hosts rewritten
   to the same one must not bring paths.
   */
  lemma DispatchIsPreserved(sig: Signature, input: Input, ing: Ingress, o: string, request: string, i: nat)
    requires Injective(sig) && Rewritten(input, o) in ListedHosts(input, ing.rules) && NoIntruder(input, ing.rules, o)
    requires i < |Routes(sig, input, ing)| && Serves(Routes(sig, input, ing)[i], Rewritten(input, o))
    requires (forall p <- OwnPaths(ing.rules, o) :: Admissible(p)) && "/" <= request
    ensures var ps := OwnPaths(ing.rules, o);
            SentTo(input, ing.namespace, IngressDispatch(ps, ing.defaultBackend, request),
                   RouteDispatch(Routes(sig, input, ing)[i].rules, request))
            <==> DefaultConverts(ing) || SomePathSelects(ps, request)
  {
    OwnPathsIff(input, ing.rules, o);
    RouteDispatchesMergedPaths(sig, input, ing, Rewritten(input, o), request, i);
  }

  /** An Ingress for hosts a.o and a.n, converted with domain o replaced by n. */
  function MergingInput(): Input { Input("o", "n", map[]) }

  function MergingIngress(): Ingress {
    var s1, s2 := ServiceBackend("s1", 80, ""), ServiceBackend("s2", 80, "");
    Ingress("ns", "ing", [IngressRule("a.o", Some([IngressPath("/", Some(Exact), s1)])),
                          IngressRule("a.n", Some([IngressPath("/", Some(Exact), s2)]))], None)
  }

  lemma MergingPaths()
    ensures var rules := MergingIngress().rules;
            && PathsOf(MergingInput(), rules, "a.n") == rules[0].http.value + rules[1].http.value
            && OwnPaths(rules, "a.n") == rules[1].http.value
            && "a.n" in ListedHosts(MergingInput(), rules) && Rewritten(MergingInput(), "a.n") == "a.n"
  {
    var rules := MergingIngress().rules;
    TransformRewritesTheDomain("a.o", "a.", "o", "n");
    assert "a.n"[0..] == "a.n" && "a.n"[1..] == ".n" && ".n"[1] != ".o"[1];
    assert "a.o"[2] != "a.n"[2];
    assert rules[1..][1..] == [];
    assert PathsFrom(MergingInput(), "a.n")(rules[0]) == rules[0].http.value;
    assert PathsFrom(MergingInput(), "a.n")(rules[1]) == rules[1].http.value;
    assert rules[1] in rules;
  }

  lemma FirstExactWins(ps: seq<IngressPath>, request: string)
    requires ps != [] && forall p <- ps :: p.path == request && p.pathType == Some(Exact)
    ensures IngressDispatch(ps, None, request) == Some(ps[0].backend)
  {
    PickIff(PathRanks(ps, request), 0);
  }

  /** Of exact paths for one request the first wins, whichever host it was written for. */
  lemma FirstExactIsServed(input: Input, ing: Ingress, ps: seq<IngressPath>, request: string)
    requires ing.defaultBackend == None && "/" <= request
    requires ps != [] && forall p <- ps :: p.path == request && p.pathType == Some(Exact)
    ensures SentTo(input, ing.namespace, Some(ps[0].backend),
                   RouteDispatch(ConvertPaths(input, ing.namespace, ps) + OptionSeq(ConvertDefaultBackend(input, ing)),
                                 request))
  {
    FirstExactWins(ps, request);
    RulesDispatchAlike(input, ing, ps, request);
  }

  /**
   There the Ingress sends host a.n to s2, and the rules of the route for a.n, which
   `HostsArePartitioned` identifies, send it to s1.
   */
  lemma RewrittenHostsMerge()
    ensures !NoIntruder(MergingInput(), MergingIngress().rules, "a.n")
    ensures IngressDispatch(OwnPaths(MergingIngress().rules, "a.n"), None, "/") == Some(ServiceBackend("s2", 80, ""))
    ensures RouteDispatch(FinalRules(MergingInput(), MergingIngress(), "a.n"), "/")
            == Some([BackendRef("s1", Some(80))])
  {
    MergingPaths();
    OwnPathsIff(MergingInput(), MergingIngress().rules, "a.n");
    FirstExactWins(OwnPaths(MergingIngress().rules, "a.n"), "/");
    FirstExactIsServed(MergingInput(), MergingIngress(), PathsOf(MergingInput(), MergingIngress().rules, "a.n"), "/");
    var sent := RouteDispatch(FinalRules(MergingInput(), MergingIngress(), "a.n"), "/");
    assert sent.value[0].port == Some(80);
    assert sent.value == [sent.value[0]];
  }

  /** Whatever injective signature is used, the route generated for a.n is the one that does so. */
  lemma MergedRouteMisdirects(sig: Signature) returns (i: nat)
    requires Injective(sig)
    ensures var routes := Routes(sig, MergingInput(), MergingIngress());
            && i < |routes| && Serves(routes[i], "a.n")
            && RouteDispatch(routes[i].rules, "/") == Some([BackendRef("s1", Some(80))])
  {
    MergingPaths();
    RewrittenHostsMerge();
    i := HostsArePartitioned(sig, MergingInput(), MergingIngress(), "a.n");
  }
}
