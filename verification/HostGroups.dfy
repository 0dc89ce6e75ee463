/** From an Ingress to HTTPRoutes: rules are collected per host, and hosts with equal rules share a route. */
module HostGroups {
  import opened Api
  import opened Lists
  import opened Text
  import opened Ingresses

  type RuleMap = map<string, seq<RouteRule>>

  /** A digest of a rule list; the converter uses SHA-256 of its JSON form. */
  type Signature = seq<RouteRule> -> string

  ghost predicate Injective(sig: Signature) { forall a, b :: sig(a) == sig(b) ==> a == b }

  datatype Group = Group(hosts: seq<string>, rules: seq<RouteRule>)

  datatype HttpRoute = HttpRoute(name: string, hostnames: seq<string>, rules: seq<RouteRule>)

  // ------------------------------------------------------------- rules per host

  function HostOf(input: Input, r: IngressRule): string {
    TransformHostname(r.host, input.domainReplace, input.domainSuffix)
  }

  function PathsFrom(input: Input, h: string): IngressRule -> seq<IngressPath> {
    (r: IngressRule) => if HostOf(input, r) == h && r.http.Some? then r.http.value else []
  }

  /** Every path the Ingress gives for host `h` after rewriting, in order. */
  function PathsOf(input: Input, rules: seq<IngressRule>, h: string): seq<IngressPath> {
    FlatMap(PathsFrom(input, h), rules)
  }

  /** A rule lists its host if it has a path for it, or names it without any HTTP part. */
  predicate ListsHost(input: Input, r: IngressRule, h: string) {
    HostOf(input, r) == h && match r.http { case Some(ps) => ps != [] case None => h != "" }
  }

  function ListedHosts(input: Input, rules: seq<IngressRule>): set<string> {
    set r | r in rules && ListsHost(input, r, HostOf(input, r)) :: HostOf(input, r)
  }

  ghost predicate Collected(input: Input, namespace: string, rules: seq<IngressRule>, m: RuleMap) {
    && m.Keys == ListedHosts(input, rules)
    && forall h <- m :: m[h] == ConvertPaths(input, namespace, PathsOf(input, rules, h))
  }

  /** Go's map access: nothing stored means no rules. */
  function RulesAt(m: RuleMap, h: string): seq<RouteRule> { if h in m then m[h] else [] }

  function AddPaths(input: Input, namespace: string, host: string, ps: seq<IngressPath>, m: RuleMap): RuleMap {
    if ps == [] then m else m[host := RulesAt(m, host) + ConvertPaths(input, namespace, ps)]
  }

  function AddRule(input: Input, namespace: string, r: IngressRule, m: RuleMap): RuleMap {
    var host := HostOf(input, r);
    match r.http
    case Some(ps) => AddPaths(input, namespace, host, ps, m)
    case None => if host != "" && host !in m then m[host := []] else m
  }

  lemma ConvertPathsConcat(input: Input, namespace: string, ps: seq<IngressPath>, qs: seq<IngressPath>)
    ensures ConvertPaths(input, namespace, ps + qs)
            == ConvertPaths(input, namespace, ps) + ConvertPaths(input, namespace, qs)
  {}

  lemma AddPathsStep(input: Input, namespace: string, host: string, ps: seq<IngressPath>, i: nat, m: RuleMap)
    requires i < |ps|
    ensures var r := AddPaths(input, namespace, host, ps[..i], m);
            AddPaths(input, namespace, host, ps[..i + 1], m)
              == r[host := RulesAt(r, host) + [ConvertPath(input, namespace, ps[i])]]
  {
    var rules, x := ConvertPaths(input, namespace, ps[..i]), ConvertPath(input, namespace, ps[i]);
    assert ConvertPaths(input, namespace, ps[..i + 1]) == rules + [x];
    assert RulesAt(m, host) + (rules + [x]) == (RulesAt(m, host) + rules) + [x];
    assert i == 0 ==> RulesAt(m, host) + rules == RulesAt(m, host);
  }

  method AppendPaths(input: Input, namespace: string, host: string, ps: seq<IngressPath>, m: RuleMap)
    returns (r: RuleMap)
    ensures r == AddPaths(input, namespace, host, ps, m)
  {
    r := m;
    for i := 0 to |ps|
      invariant r == AddPaths(input, namespace, host, ps[..i], m)
    {
      AddPathsStep(input, namespace, host, ps, i, m);
      r := r[host := RulesAt(r, host) + [ConvertPath(input, namespace, ps[i])]];
    }
    assert ps[..|ps|] == ps;
  }

  lemma UnlistedHasNoPaths(input: Input, rules: seq<IngressRule>, h: string)
    requires h !in ListedHosts(input, rules)
    ensures PathsOf(input, rules, h) == []
  {
    var f := PathsFrom(input, h);
    FlatMapEmpty(f, rules);
  }

  lemma ListedStep(input: Input, rules: seq<IngressRule>, i: nat, h: string)
    requires i < |rules|
    ensures h in ListedHosts(input, rules[..i + 1])
            <==> h in ListedHosts(input, rules[..i]) || ListsHost(input, rules[i], h)
  {
    assert rules[..i + 1] == rules[..i] + [rules[i]];
  }

  lemma CollectedStep(input: Input, namespace: string, rules: seq<IngressRule>, i: nat, m: RuleMap)
    requires i < |rules| && Collected(input, namespace, rules[..i], m)
    ensures Collected(input, namespace, rules[..i + 1], AddRule(input, namespace, rules[i], m))
  {
    var r, m' := rules[i], AddRule(input, namespace, rules[i], m);
    forall h ensures h in m'.Keys <==> h in ListedHosts(input, rules[..i + 1]) { ListedStep(input, rules, i, h); }
    forall h <- m' ensures m'[h] == ConvertPaths(input, namespace, PathsOf(input, rules[..i + 1], h)) {
      CollectedAt(input, namespace, rules, i, m, h);
    }
  }

  lemma AddRuleAt(input: Input, namespace: string, r: IngressRule, m: RuleMap, h: string)
    ensures RulesAt(AddRule(input, namespace, r, m), h)
         == RulesAt(m, h) + ConvertPaths(input, namespace, PathsFrom(input, h)(r))
  {
    assert ConvertPaths(input, namespace, []) == [];
  }

  lemma CollectedAt(input: Input, namespace: string, rules: seq<IngressRule>, i: nat, m: RuleMap, h: string)
    requires i < |rules| && Collected(input, namespace, rules[..i], m)
    ensures RulesAt(AddRule(input, namespace, rules[i], m), h)
            == ConvertPaths(input, namespace, PathsOf(input, rules[..i + 1], h))
  {
    var before := PathsOf(input, rules[..i], h);
    FlatMapStep(PathsFrom(input, h), rules, i);
    ConvertPathsConcat(input, namespace, before, PathsFrom(input, h)(rules[i]));
    AddRuleAt(input, namespace, rules[i], m, h);
    if h !in m {
      UnlistedHasNoPaths(input, rules[..i], h);
      assert ConvertPaths(input, namespace, []) == [];
    }
  }

  method CollectHostRules(input: Input, ing: Ingress) returns (m: RuleMap)
    ensures Collected(input, ing.namespace, ing.rules, m)
  {
    m := map[];
    for i := 0 to |ing.rules|
      invariant Collected(input, ing.namespace, ing.rules[..i], m)
    {
      CollectedStep(input, ing.namespace, ing.rules, i, m);
      var host := HostOf(input, ing.rules[i]);
      if ing.rules[i].http.None? {
        if host != "" && host !in m {
          m := m[host := []];
        }
      } else {
        m := AppendPaths(input, ing.namespace, host, ing.rules[i].http.value, m);
      }
    }
    assert ing.rules[..|ing.rules|] == ing.rules;
  }

  // ------------------------------------------------------------- hosts with equal rules

  function WithDefault(m: RuleMap, d: Option<RouteRule>): RuleMap {
    map h | h in m :: m[h] + OptionSeq(d)
  }

  function Signatures(sig: Signature, m: RuleMap, hosts: set<string>): set<string>
    requires hosts <= m.Keys
  {
    set h | h in hosts :: sig(m[h])
  }

  function Sharing(sig: Signature, m: RuleMap, hosts: set<string>, s: string): set<string>
    requires hosts <= m.Keys
  {
    set h | h in hosts && sig(m[h]) == s
  }

  /** The hosts of one signature, with the no-host entry kept apart from named hosts. */
  function SplitHosts(hosts: set<string>, rules: seq<RouteRule>): seq<Group> {
    if "" in hosts && hosts != {""} then [Group([""], rules), Group(SortSet(hosts - {""}), rules)]
    else [Group(SortSet(hosts), rules)]
  }

  ghost function GroupsFor(sig: Signature, m: RuleMap): string -> seq<Group> {
    (s: string) =>
      var hosts := Sharing(sig, m, m.Keys, s);
      if hosts == {} then [] else var h :| h in hosts; SplitHosts(hosts, m[h])
  }

  ghost function Groups(sig: Signature, m: RuleMap): seq<Group> {
    FlatMap(GroupsFor(sig, m), SortSet(Signatures(sig, m, m.Keys)))
  }

  lemma GroupsForSignature(sig: Signature, m: RuleMap, s: string, rules: seq<RouteRule>)
    requires Injective(sig) && sig(rules) == s && s in Signatures(sig, m, m.Keys)
    ensures Sharing(sig, m, m.Keys, s) != {}
    ensures GroupsFor(sig, m)(s) == SplitHosts(Sharing(sig, m, m.Keys, s), rules)
  {
    var h :| h in m && sig(m[h]) == s;
    assert h in Sharing(sig, m, m.Keys, s);
    forall h' <- Sharing(sig, m, m.Keys, s) ensures m[h'] == rules {}
  }

  /** The two Go maps keyed by signature, after the hosts in `done`. */
  ghost predicate Indexed(sig: Signature, m: RuleMap, done: set<string>, toHosts: map<string, set<string>>,
                          toRules: RuleMap) {
    && done <= m.Keys
    && toHosts.Keys == toRules.Keys == Signatures(sig, m, done)
    && forall s <- toHosts :: toHosts[s] == Sharing(sig, m, done, s) && sig(toRules[s]) == s
  }

  lemma SharingStep(sig: Signature, m: RuleMap, done: set<string>, h: string, t: string)
    requires done <= m.Keys && h in m
    ensures Sharing(sig, m, done + {h}, t) == Sharing(sig, m, done, t) + (if t == sig(m[h]) then {h} else {})
    ensures Sharing(sig, m, done, t) == {} <==> t !in Signatures(sig, m, done)
  {
    if t in Signatures(sig, m, done) {
      var x :| x in done && sig(m[x]) == t;
      assert x in Sharing(sig, m, done, t);
    }
  }

  lemma IndexedStep(sig: Signature, m: RuleMap, done: set<string>, toHosts: map<string, set<string>>, toRules: RuleMap,
                    h: string)
    requires Indexed(sig, m, done, toHosts, toRules) && h in m && h !in done
    ensures var s := sig(m[h]);
            Indexed(sig, m, done + {h}, toHosts[s := (if s in toHosts then toHosts[s] else {}) + {h}],
              toRules[s := m[h]])
  {
    var s := sig(m[h]);
    var toHosts' := toHosts[s := (if s in toHosts then toHosts[s] else {}) + {h}];
    assert Signatures(sig, m, done + {h}) == Signatures(sig, m, done) + {s};
    forall t <- toHosts' ensures toHosts'[t] == Sharing(sig, m, done + {h}, t) { SharingStep(sig, m, done, h, t); }
  }

  /** Hosts that do name something. */
  function Named(): string -> seq<string> { (h: string) => if h == "" then [] else [h] }

  lemma NamedIsAll(s: set<string>)
    requires "" !in s
    ensures FlatMap(Named(), SortSet(s)) == SortSet(s)
  {
    var hosts := SortSet(s);
    forall i | 0 <= i < |hosts| ensures Named()(hosts[i]) == [hosts[i]] { SortSetMembers(s, hosts[i]); }
    FlatMapSingletons(Named(), hosts, hosts);
  }

  lemma NamedOfSorted(s: set<string>)
    ensures FlatMap(Named(), SortSet(s)) == SortSet(s - {""})
  {
    NamedIsAll(s - {""});
    if "" in s {
      LeAntisymmetric("", Least(s));
      assert SortSet(s)[1..] == SortSet(s - {""});
    } else {
      assert s - {""} == s;
    }
  }

  method SeparateNoHost(sorted: seq<string>) returns (hasNoHost: bool, actual: seq<string>)
    ensures (hasNoHost <==> "" in sorted) && actual == FlatMap(Named(), sorted)
  {
    hasNoHost, actual := false, [];
    for i := 0 to |sorted|
      invariant actual == FlatMap(Named(), sorted[..i]) && (hasNoHost <==> "" in sorted[..i])
    {
      FlatMapStep(Named(), sorted, i);
      if sorted[i] == "" {
        hasNoHost := true;
      } else {
        actual := actual + [sorted[i]];
      }
    }
    assert sorted[..|sorted|] == sorted;
  }

  /** The sorted hosts of one signature become one group, or two if no-host is among others. */
  method MakeGroups(hosts: set<string>, rules: seq<RouteRule>) returns (groups: seq<Group>)
    ensures groups == SplitHosts(hosts, rules)
  {
    var sorted := SortSet(hosts);
    var hasNoHost, actual := SeparateNoHost(sorted);
    SortSetMembers(hosts, "");
    NamedOfSorted(hosts);
    assert actual == [] <==> hosts - {""} == {};
    assert "" in hosts ==> (hosts - {""} == {} <==> hosts == {""});
    if hasNoHost && |actual| > 0 {
      groups := [Group([""], rules), Group(actual, rules)];
    } else {
      groups := [Group(sorted, rules)];
    }
  }

  /** The hosts may come in any order, as from a Go map. */
  method IndexHosts(sig: Signature, hostRules: RuleMap, default: Option<RouteRule>)
    returns (toHosts: map<string, set<string>>, toRules: RuleMap)
    ensures Indexed(sig, WithDefault(hostRules, default), hostRules.Keys, toHosts, toRules)
  {
    ghost var m := WithDefault(hostRules, default);
    var rest := hostRules.Keys;
    toHosts, toRules := map[], map[];
    while rest != {}
      invariant rest <= hostRules.Keys && Indexed(sig, m, hostRules.Keys - rest, toHosts, toRules)
      decreases rest
    {
      var host :| host in rest;
      var rules := hostRules[host] + OptionSeq(default);
      var s := sig(rules);
      IndexedStep(sig, m, hostRules.Keys - rest, toHosts, toRules, host);
      assert hostRules.Keys - (rest - {host}) == (hostRules.Keys - rest) + {host};
      toHosts := toHosts[s := (if s in toHosts then toHosts[s] else {}) + {host}];
      toRules := toRules[s := rules];
      rest := rest - {host};
    }
    assert hostRules.Keys - {} == hostRules.Keys;
  }

  /** The groups made so far and those of the signatures still to come are all groups. */
  ghost predicate Remaining(sig: Signature, m: RuleMap, groups: seq<Group>, rest: set<string>) {
    groups + FlatMap(GroupsFor(sig, m), SortSet(rest)) == Groups(sig, m)
  }

  lemma RemainingEnds(sig: Signature, m: RuleMap, groups: seq<Group>)
    ensures Remaining(sig, m, [], Signatures(sig, m, m.Keys))
    ensures Remaining(sig, m, groups, {}) ==> groups == Groups(sig, m)
  {}

  lemma RemainingStep(sig: Signature, m: RuleMap, groups: seq<Group>, rest: set<string>,
                      toHosts: map<string, set<string>>, toRules: RuleMap)
    requires Injective(sig) && Indexed(sig, m, m.Keys, toHosts, toRules)
    requires Remaining(sig, m, groups, rest) && rest != {} && rest <= toHosts.Keys
    ensures var s := Least(rest);
            Remaining(sig, m, groups + SplitHosts(toHosts[s], toRules[s]), rest - {s})
  {
    var s := Least(rest);
    assert SortSet(rest)[1..] == SortSet(rest - {s});
    FlatMapMove(GroupsFor(sig, m), groups, SortSet(rest));
    GroupsForSignature(sig, m, s, toRules[s]);
  }

  method GroupHostsByRules(sig: Signature, hostRules: RuleMap, default: Option<RouteRule>) returns (groups: seq<Group>)
    requires Injective(sig)
    ensures groups == Groups(sig, WithDefault(hostRules, default))
  {
    ghost var m := WithDefault(hostRules, default);
    var toHosts, toRules := IndexHosts(sig, hostRules, default);
    assert m.Keys == hostRules.Keys;
    var rest := toHosts.Keys;
    groups := [];
    RemainingEnds(sig, m, groups);
    while rest != {}
      invariant rest <= toHosts.Keys && Remaining(sig, m, groups, rest)
      decreases rest
    {
      var s := Least(rest);
      var more := MakeGroups(toHosts[s], toRules[s]);
      RemainingStep(sig, m, groups, rest, toHosts, toRules);
      groups := groups + more;
      rest := rest - {s};
    }
    RemainingEnds(sig, m, groups);
  }

  // ------------------------------------------------------------- routes

  function RouteName(ingress: string, index: nat, total: nat): string {
    if total == 1 then ingress else ingress + "-" + Itoa(index + 1)
  }

  function Hostnames(hosts: seq<string>): seq<string> {
    if hosts != [] && hosts[0] != "" then hosts else []
  }

  function RoutesFrom(name: string, groups: seq<Group>, default: Option<RouteRule>): seq<HttpRoute> {
    if groups == [] && default.Some? then [HttpRoute(name, [], [default.value])]
    else seq(|groups|, i requires 0 <= i < |groups| =>
               HttpRoute(RouteName(name, i, |groups|), Hostnames(groups[i].hosts), groups[i].rules))
  }

  /** The rules of a listed host, the default rule last. */
  function FinalRules(input: Input, ing: Ingress, h: string): seq<RouteRule> {
    ConvertPaths(input, ing.namespace, PathsOf(input, ing.rules, h)) + OptionSeq(ConvertDefaultBackend(input, ing))
  }

  function FinalMap(input: Input, ing: Ingress): RuleMap {
    map h | h in ListedHosts(input, ing.rules) :: FinalRules(input, ing, h)
  }

  ghost function Routes(sig: Signature, input: Input, ing: Ingress): seq<HttpRoute> {
    RoutesFrom(ing.name, Groups(sig, FinalMap(input, ing)), ConvertDefaultBackend(input, ing))
  }

  method BuildRoutes(name: string, groups: seq<Group>, default: Option<RouteRule>) returns (routes: seq<HttpRoute>)
    ensures routes == RoutesFrom(name, groups, default)
  {
    routes := [];
    for i := 0 to |groups|
      invariant |routes| == i
      invariant forall k | 0 <= k < i ::
                routes[k] == HttpRoute(RouteName(name, k, |groups|), Hostnames(groups[k].hosts), groups[k].rules)
    {
      routes := routes + [HttpRoute(RouteName(name, i, |groups|), Hostnames(groups[i].hosts), groups[i].rules)];
    }
    if groups == [] && default.Some? {
      routes := [HttpRoute(name, [], [default.value])];
    }
  }

  lemma CollectedIsFinal(input: Input, ing: Ingress, hostRules: RuleMap)
    requires Collected(input, ing.namespace, ing.rules, hostRules)
    ensures WithDefault(hostRules, ConvertDefaultBackend(input, ing)) == FinalMap(input, ing)
  {}

  method ConvertToHttpRoutes(sig: Signature, input: Input, ing: Ingress) returns (routes: seq<HttpRoute>)
    requires Injective(sig)
    ensures routes == Routes(sig, input, ing)
  {
    var hostRules := CollectHostRules(input, ing);
    var default := ConvertDefaultBackend(input, ing);
    var groups := GroupHostsByRules(sig, hostRules, default);
    CollectedIsFinal(input, ing, hostRules);
    routes := BuildRoutes(ing.name, groups, default);
  }
}
