/**
 Conversion of one Ingress path, default backend and host name to Gateway API terms, and what requests they select.
 */
module Ingresses {
  import opened Api
  import opened Separated

  datatype PathType = Exact | Prefix | ImplementationSpecific

  datatype Backend =
    | ServiceBackend(name: string, portNumber: int, portName: string)
    | ResourceBackend(name: string)
    | NoBackend

  datatype IngressPath = IngressPath(path: string, pathType: Option<PathType>, backend: Backend)

  datatype IngressRule = IngressRule(host: string, http: Option<seq<IngressPath>>)

  datatype Ingress = Ingress(namespace: string, name: string, rules: seq<IngressRule>, defaultBackend: Option<Backend>)

  datatype NamedPort = NamedPort(name: string, port: int)

  /** What the converter is given besides the Ingress: domain rewriting, and Services by namespace and name. */
  datatype Input = Input(domainReplace: string, domainSuffix: string, services: map<(string, string), seq<NamedPort>>)

  datatype PathMatch = PathMatch(exact: bool, value: string)

  datatype BackendRef = BackendRef(name: string, port: Option<int>)

  datatype RouteRule = RouteRule(path: Option<PathMatch>, backends: seq<BackendRef>)

  // ------------------------------------------------------------- host names

  predicate HasSuffix(s: string, t: string) { |t| <= |s| && s[|s| - |t|..] == t }

  /** The part of `s` before the domain, which ends at a label boundary. */
  function BeforeDomain(s: string, domain: string): Option<string> {
    if s == domain then Some("")
    else if HasSuffix(s, "." + domain) then Some(s[..|s| - |domain|])
    else None
  }

  function TransformHostname(host: string, replace: string, suffix: string): string {
    if replace == "" || suffix == "" then host else
      var wildcard := if "*." <= host then "*." else "";
      match BeforeDomain(host[|wildcard|..], replace)
      case Some(p) => wildcard + p + suffix
      case None => host
  }

  /** Whole leading labels, each with its dot. */
  predicate LabelPrefix(p: string) { p == "" || p[|p| - 1] == '.' }

  lemma BeforeDomainIff(s: string, domain: string, p: string)
    ensures BeforeDomain(s, domain) == Some(p) <==> s == p + domain && LabelPrefix(p)
  {
    if s == p + domain && p != "" {
      assert |s| != |domain|;
      assert p == p[..|p| - 1] + [p[|p| - 1]];
      assert s[|s| - |domain| - 1..] == [p[|p| - 1]] + domain;
      assert s[..|p|] == p;
    }
    if s != domain && HasSuffix(s, "." + domain) {
      var q := s[..|s| - |domain|];
      var t := s[|s| - |domain| - 1..];
      assert t == "." + domain;
      assert q[|q| - 1] == t[0] && t[1..] == domain;
      assert s == q + domain;
    }
  }

  /**
   The domain at the end is rewritten, at a label boundary only. A domain to be replaced that
   itself starts with a wildcard is found only below a further label.
   */
  lemma TransformRewritesTheDomain(host: string, prefix: string, replace: string, suffix: string)
    requires replace != "" && suffix != "" && !("*." <= replace)
    requires host == prefix + replace && LabelPrefix(prefix)
    ensures TransformHostname(host, replace, suffix) == prefix + suffix
  {
    if "*." <= host {
      WildcardIsInPrefix(prefix, replace);
      BeforeDomainIff(host[2..], replace, prefix[2..]);
      assert TransformHostname(host, replace, suffix) == ("*." + prefix[2..]) + suffix;
    } else {
      BeforeDomainIff(host, replace, prefix);
      assert host[0..] == host;
      assert "" + prefix == prefix;
    }
  }

  lemma WildcardIsInPrefix(prefix: string, rest: string)
    requires "*." <= prefix + rest && LabelPrefix(prefix) && !("*." <= rest)
    ensures "*." <= prefix && (prefix + rest)[2..] == prefix[2..] + rest && LabelPrefix(prefix[2..])
    ensures "*." + prefix[2..] == prefix
  {
    var s := prefix + rest;
    assert s[0] == '*' && s[1] == '.';
    assert prefix == "" ==> s == rest;
    assert |prefix| == 1 ==> prefix[0] == s[0];
  }

  /** Any other host is left alone, and every host if there is nothing to replace or nothing to put in its place. */
  lemma TransformKeepsOthers(host: string, replace: string, suffix: string) returns (prefix: string)
    requires TransformHostname(host, replace, suffix) != host
    ensures replace != "" && suffix != "" && LabelPrefix(prefix) && host == prefix + replace
            && TransformHostname(host, replace, suffix) == prefix + suffix
  {
    var wildcard := if "*." <= host then "*." else "";
    var rest := host[|wildcard|..];
    var p := BeforeDomain(rest, replace).value;
    BeforeDomainIff(rest, replace, p);
    prefix := wildcard + p;
    Regroup(wildcard, p, replace, host);
  }

  lemma Regroup(w: string, p: string, domain: string, host: string)
    requires w <= host && host[|w|..] == p + domain && LabelPrefix(w) && LabelPrefix(p)
    ensures host == (w + p) + domain && LabelPrefix(w + p)
  {
    assert host == w + host[|w|..];
  }

  // ------------------------------------------------------------- backends

  function FindPortByName(ports: seq<NamedPort>, name: string): (r: Option<int>)
    ensures r.None? <==> forall p <- ports :: p.name != name
    ensures r.Some? ==> exists i :: 0 <= i < |ports| && ports[i].name == name && ports[i].port == r.value
                                    && forall j | 0 <= j < i :: ports[j].name != name
  {
    if ports == [] then None
    else if ports[0].name == name then Some(ports[0].port)
    else
      var r := FindPortByName(ports[1..], name);
      assert forall j | 0 < j < |ports| :: ports[j] == ports[1..][j - 1];
      r
  }

  function ResolvePort(input: Input, namespace: string, b: Backend): Option<int>
    requires b.ServiceBackend?
  {
    var key := (namespace, b.name);
    if b.portNumber != 0 then Some(b.portNumber)
    else if key !in input.services then None
    else if b.portName != "" then FindPortByName(input.services[key], b.portName)
    else if |input.services[key]| == 1 then Some(input.services[key][0].port)
    else None
  }

  /** Reference: `p` is the one port of the Service that the backend can mean. */
  ghost predicate Means(ports: seq<NamedPort>, b: Backend, p: int)
    requires b.ServiceBackend?
  {
    if b.portName == "" then |ports| == 1 && ports[0].port == p
    else exists i :: 0 <= i < |ports| && ports[i].name == b.portName && ports[i].port == p
                     && forall j | 0 <= j < i :: ports[j].name != b.portName
  }

  /**
   A number is taken as it is; otherwise the port is resolved if and only if the Service is known and has the one
   meant.
   */
  lemma PortIsTheOneMeant(input: Input, namespace: string, b: Backend, p: int)
    requires b.ServiceBackend?
    ensures ResolvePort(input, namespace, b) == Some(p) <==>
              if b.portNumber != 0 then p == b.portNumber
              else (namespace, b.name) in input.services && Means(input.services[(namespace, b.name)], b, p)
  {
    var key := (namespace, b.name);
    if b.portNumber == 0 && key in input.services && b.portName != "" {
      var ports, r := input.services[key], FindPortByName(input.services[key], b.portName);
      if r.Some? {
        var i :| 0 <= i < |ports| && ports[i].name == b.portName && ports[i].port == r.value
                 && forall j | 0 <= j < i :: ports[j].name != b.portName;
      }
      if Means(ports, b, p) {
        var i :| 0 <= i < |ports| && ports[i].name == b.portName && ports[i].port == p
                 && forall j | 0 <= j < i :: ports[j].name != b.portName;
        assert ports[i] in ports;
      }
    }
  }

  /** Resource backends are not converted. */
  function BackendRefs(input: Input, namespace: string, b: Backend): seq<BackendRef> {
    if b.ServiceBackend? then [BackendRef(b.name, ResolvePort(input, namespace, b))] else []
  }

  // ------------------------------------------------------------- paths

  function ConvertPathType(t: Option<PathType>): (exact: bool) { t == Some(Exact) }

  function ConvertPath(input: Input, namespace: string, p: IngressPath): RouteRule {
    RouteRule(if p.path == "" then None else Some(PathMatch(ConvertPathType(p.pathType), p.path)),
              BackendRefs(input, namespace, p.backend))
  }

  function ConvertDefaultBackend(input: Input, ing: Ingress): Option<RouteRule> {
    match ing.defaultBackend
    case Some(b) =>
      if b.ServiceBackend? then Some(RouteRule(Some(PathMatch(false, "/")), BackendRefs(input, ing.namespace, b)))
        else None
    case None => None
  }

  // ------------------------------------------------------------- precedence

  /** How specific a match is: exact before prefix, then the longer one. */
  datatype Rank = Rank(exact: bool, length: nat)

  predicate Beats(a: Rank, b: Rank) {
    if a.exact != b.exact then a.exact else a.length > b.length
  }

  /** `cs[i]` is the rank with which candidate `i` matches, if it does; the earliest of the best wins. */
  predicate IsBest(cs: seq<Option<Rank>>, i: nat) {
    && i < |cs| && cs[i].Some?
    && forall j | 0 <= j < |cs| && cs[j].Some? && j != i ::
         Beats(cs[i].value, cs[j].value) || (i < j && !Beats(cs[j].value, cs[i].value))
  }

  function Pick(cs: seq<Option<Rank>>): (r: Option<nat>)
    ensures r.None? ==> forall i | 0 <= i < |cs| :: cs[i].None?
    ensures r.Some? ==> IsBest(cs, r.value)
  {
    if cs == [] then None else
      var last := |cs| - 1;
      var r := Pick(cs[..last]);
      assert forall i | 0 <= i < last :: cs[i] == cs[..last][i];
      assert cs == cs[..last] + [cs[last]];
      if cs[last].Some? && (r.None? || Beats(cs[last].value, cs[..last][r.value].value)) then Some(last) else r
  }

  /** There is one best candidate, and it is the one picked. */
  lemma PickIff(cs: seq<Option<Rank>>, i: nat)
    ensures Pick(cs) == Some(i) <==> IsBest(cs, i)
  {
    assert IsBest(cs, i) ==> Pick(cs).Some?;
  }

  // ------------------------------------------------------------- what a request selects

  function Trimmed(p: string): string {
    if p != "" && p[|p| - 1] == '/' then p[..|p| - 1] else p
  }

  /** Kubernetes: a prefix path matches element by element, its trailing slash ignored; no path means all. */
  ghost predicate PathSelects(p: IngressPath, request: string) {
    if p.pathType == Some(Exact) then p.path == request
    else p.path == "" || Split('/', Trimmed(p.path)) <= Split('/', request)
  }

  ghost function PathRank(p: IngressPath, request: string): Option<Rank> {
    if PathSelects(p, request) then Some(Rank(p.pathType == Some(Exact), if p.path == "" then 1 else |p.path|))
      else None
  }

  /** Gateway API: a rule without a path match is a prefix match on "/". */
  function MatchOf(r: RouteRule): PathMatch {
    match r.path
    case Some(m) => m
    case None => PathMatch(false, "/")
  }

  /** A data plane tests a prefix on the text: equal, or continued by a slash. */
  predicate RuleSelects(m: PathMatch, request: string) {
    if m.exact then m.value == request
    else request == Trimmed(m.value) || Trimmed(m.value) + "/" <= request
  }

  function RuleRank(r: RouteRule, request: string): Option<Rank> {
    var m := MatchOf(r);
    if RuleSelects(m, request) then Some(Rank(m.exact, |m.value|)) else None
  }

  ghost function PathRanks(ps: seq<IngressPath>, request: string): seq<Option<Rank>> {
    seq(|ps|, i requires 0 <= i < |ps| => PathRank(ps[i], request))
  }

  function RuleRanks(rs: seq<RouteRule>, request: string): seq<Option<Rank>> {
    seq(|rs|, i requires 0 <= i < |rs| => RuleRank(rs[i], request))
  }

  /** Reference: the backend an Ingress controller sends a request for one host to. */
  ghost function IngressDispatch(ps: seq<IngressPath>, default: Option<Backend>, request: string): Option<Backend> {
    match Pick(PathRanks(ps, request))
    case Some(i) => Some(ps[i].backend)
    case None => default
  }

  /** Reference: the backends a Gateway sends a request to, given the rules of the route for its host. */
  function RouteDispatch(rs: seq<RouteRule>, request: string): Option<seq<BackendRef>> {
    match Pick(RuleRanks(rs, request))
    case Some(i) => Some(rs[i].backends)
    case None => None
  }

  /** The API server admits an empty path only with an implementation-specific or absent path type. */
  predicate Admissible(p: IngressPath) { p.path == "" ==> p.pathType != Some(Exact) }

  lemma PathKeepsRank(input: Input, namespace: string, p: IngressPath, request: string)
    requires Admissible(p) && "/" <= request
    ensures RuleRank(ConvertPath(input, namespace, p), request) == PathRank(p, request)
    ensures PathRank(p, request).Some? ==> PathRank(p, request).value.exact || PathRank(p, request).value.length >= 1
  {
    SplitPrefix('/', Trimmed(p.path), request);
    assert Trimmed("/") == "" && "" + "/" == "/";
  }

  /** A catch-all appended last wins exactly when nothing before it matches. */
  lemma CatchAllIsLast(cs: seq<Option<Rank>>)
    requires forall c <- cs | c.Some? :: c.value.exact || c.value.length >= 1
    ensures Pick(cs + [Some(Rank(false, 1))]) == match Pick(cs) case Some(i) => Some(i) case None => Some(|cs|)
  {
    var all := cs + [Some(Rank(false, 1))];
    assert all[..|all| - 1] == cs;
    assert Pick(cs).Some? ==> cs[Pick(cs).value] in cs;
  }

  function ConvertPaths(input: Input, namespace: string, ps: seq<IngressPath>): (rs: seq<RouteRule>)
  {
    seq(|ps|, i requires 0 <= i < |ps| => ConvertPath(input, namespace, ps[i]))
  }

  function OptionSeq<T>(o: Option<T>): seq<T> {
    match o
    case Some(x) => [x]
    case None => []
  }

  /** Reference: `ref` names the Service of `b`, with the port the Ingress gives or the one it can mean. */
  ghost predicate RefersTo(input: Input, namespace: string, b: Backend, ref: BackendRef)
    requires b.ServiceBackend?
  {
    && ref.name == b.name
    && forall p :: ref.port == Some(p) <==>
         if b.portNumber != 0 then p == b.portNumber
         else (namespace, b.name) in input.services && Means(input.services[(namespace, b.name)], b, p)
  }

  /** Reference: where a request has to go that the Ingress sends to `b`; other backends than Services get nobody. */
  ghost predicate SentTo(input: Input, namespace: string, b: Option<Backend>, sent: Option<seq<BackendRef>>) {
    match b
    case None => sent.None?
    case Some(b) =>
      sent.Some? &&
      if b.ServiceBackend? then |sent.value| == 1 && RefersTo(input, namespace, b, sent.value[0]) else sent.value == []
  }

  lemma RefsReferTo(input: Input, namespace: string, b: Backend)
    ensures SentTo(input, namespace, Some(b), Some(BackendRefs(input, namespace, b)))
  {
    if b.ServiceBackend? {
      forall p { PortIsTheOneMeant(input, namespace, b, p); }
    }
  }

  /** Only a Service can become a default rule. */
  predicate DefaultConverts(ing: Ingress) { ing.defaultBackend.Some? ==> ing.defaultBackend.value.ServiceBackend? }

  ghost predicate SomePathSelects(ps: seq<IngressPath>, request: string) { exists p <- ps :: PathSelects(p, request) }

  lemma SomePathIsPicked(ps: seq<IngressPath>, request: string)
    ensures SomePathSelects(ps, request) <==> Pick(PathRanks(ps, request)).Some?
  {
    var cs := PathRanks(ps, request);
    if SomePathSelects(ps, request) {
      var i :| 0 <= i < |ps| && PathSelects(ps[i], request);
      assert cs[i].Some?;
    }
    if Pick(cs).Some? { assert ps[Pick(cs).value] in ps; }
  }

  /** The converted paths followed by the default rule match the same requests with the same ranks. */
  lemma RulesKeepRanks(input: Input, ing: Ingress, ps: seq<IngressPath>, request: string)
    requires (forall p <- ps :: Admissible(p)) && "/" <= request
    ensures RuleRanks(ConvertPaths(input, ing.namespace, ps) + OptionSeq(ConvertDefaultBackend(input, ing)), request)
         == PathRanks(ps, request)
           + OptionSeq(if ConvertDefaultBackend(input, ing).Some? then Some(Some(Rank(false, 1))) else None)
    ensures forall c <- PathRanks(ps, request) | c.Some? :: c.value.exact || c.value.length >= 1
  {
    var rs, cs := ConvertPaths(input, ing.namespace, ps), PathRanks(ps, request);
    forall i | 0 <= i < |ps|
      ensures RuleRank(rs[i], request) == cs[i] && (cs[i].Some? ==> cs[i].value.exact || cs[i].value.length >= 1)
    {
      PathKeepsRank(input, ing.namespace, ps[i], request);
    }
    assert Trimmed("/") == "" && "" + "/" == "/";
  }

  /**
   Dispatch by converted paths and default rule: every request goes to the Service and port of the backend
   the Ingress selects, except that a default backend that is no Service is not reached at all.
   */
  lemma RulesDispatchAlike(input: Input, ing: Ingress, ps: seq<IngressPath>, request: string)
    requires (forall p <- ps :: Admissible(p)) && "/" <= request
    ensures var sent := RouteDispatch(ConvertPaths(input, ing.namespace, ps)
            + OptionSeq(ConvertDefaultBackend(input, ing)), request);
            && (SentTo(input, ing.namespace, IngressDispatch(ps, ing.defaultBackend, request), sent)
                <==> DefaultConverts(ing) || SomePathSelects(ps, request))
            && (!DefaultConverts(ing) && !SomePathSelects(ps, request) ==> sent == None)
  {
    var rs, cs := ConvertPaths(input, ing.namespace, ps), PathRanks(ps, request);
    RulesKeepRanks(input, ing, ps, request);
    SomePathIsPicked(ps, request);
    var b := IngressDispatch(ps, ing.defaultBackend, request);
    if b.Some? { RefsReferTo(input, ing.namespace, b.value); }
    match ConvertDefaultBackend(input, ing)
    case None =>
      assert cs + [] == cs;
      assert rs + [] == rs;
    case Some(d) => CatchAllIsLast(cs);
  }
}
