/** The Envoy snapshot of one tenant namespace: clusters, listeners and endpoint assignments. */
module Envoy {
  import opened Api
  import opened Keys
  import opened Lists
  import opened LoadBalancers
  import opened PersistedPorts
  import opened PortRequests
  import opened PortTable
  import opened Text

  /** What the snapshot reads besides its arguments: the Addresses objects, and `net.ParseIP` as a test. */
  datatype World = World(store: map<(string, string), seq<Address>>, isIp: string -> bool)

  datatype Discovery = EDS | STRICT_DNS

  datatype Upstream = Upstream(address: string, port: int)

  datatype Assignment = Assignment(cluster: string, upstreams: seq<Upstream>)

  datatype Cluster = Cluster(name: string, protocol: string, routeKind: string, proxyProtocol: bool, maglev: bool,
                             discovery: Discovery, inlined: Option<Assignment>)

  /** Every listener binds the wildcard address, so its socket is its port and protocol. */
  datatype Listener = Listener(name: string, cluster: string, port: int, protocol: string, http: bool, hashed: bool)

  datatype Resources = Resources(clusters: seq<Cluster>, listeners: seq<Listener>, endpoints: seq<Assignment>)

  /** One upstream port of one object: everything its listener, cluster and assignment are made from. */
  datatype Slot = Slot(name: string, ek: string, pk: string, protocol: string, fallback: int,
                       addresses: seq<Address>, upstreamPort: int,
                       routeKind: string, proxyProtocol: bool, sourceIp: bool, http: bool)

  // ------------------------------------------------------------- addresses

  function Literal(a: Address): string {
    if a.ip != "" then a.ip else a.hostname
  }

  /** `resolveEndpointLiteral` classifies by content, not by field; an empty address is no IP. */
  predicate IsIpLiteral(w: World, a: Address) {
    Literal(a) != "" && w.isIp(Literal(a))
  }

  function PickDiscovery(w: World, addresses: seq<Address>): Discovery {
    if forall a <- addresses :: IsIpLiteral(w, a) then EDS else STRICT_DNS
  }

  /** Endpoint discovery resolves no names: it is for IP addresses only, in whichever field they are. */
  method PickClusterDiscoveryType(w: World, addresses: seq<Address>) returns (d: Discovery)
    ensures d == PickDiscovery(w, addresses)
    ensures d == EDS <==> forall a <- addresses ::
              if a.ip != "" then w.isIp(a.ip) else a.hostname != "" && w.isIp(a.hostname)
  {
    for i := 0 to |addresses|
      invariant forall a <- addresses[..i] :: IsIpLiteral(w, a)
    {
      if !IsIpLiteral(w, addresses[i]) { return STRICT_DNS; }
    }
    return EDS;
  }

  predicate Resolves(w: World, namespace: string, e: Endpoints) {
    e.reference.Some? ==> (namespace, e.reference.value) in w.store
  }

  /** The addresses of an endpoint subset, read directly from the store. */
  function Addresses(w: World, namespace: string, e: Endpoints): seq<Address> {
    match e.reference
    case None => e.addresses
    case Some(r) => if (namespace, r) in w.store then w.store[(namespace, r)] else []
  }

  /** Reference: what a subset stands for, the addresses of the stored object it names, or its own. */
  ghost predicate Given(w: World, namespace: string, e: Endpoints, addresses: seq<Address>) {
    match e.reference
    case Some(r) => (namespace, r) in w.store && addresses == w.store[(namespace, r)]
    case None => addresses == e.addresses
  }

  // ------------------------------------------------------------- slots

  function LbSlot(lb: LoadBalancer, i: nat, addresses: seq<Address>, p: EndpointPort): Slot {
    Slot(LbResourceName(lb.namespace, lb.name, i, p.port, p.protocol),
         LbEndpointKey(lb.namespace, lb.name, i), PortKey(p.port, p.protocol), p.protocol, p.port,
         addresses, p.port, "", p.protocol == TCP && Get(lb.annotations, ANNOTATION_PROXY_PROTOCOL) == "v2",
         lb.sourceIpPersistence, false)
  }

  function LbPortSlotter(lb: LoadBalancer, i: nat, addresses: seq<Address>): EndpointPort -> seq<Slot> {
    p => [LbSlot(lb, i, addresses, p)]
  }

  function EndpointSlots(w: World, lb: LoadBalancer, i: nat): seq<Slot>
    requires i < |lb.endpoints|
  {
    FlatMap(LbPortSlotter(lb, i, Addresses(w, lb.namespace, lb.endpoints[i])), lb.endpoints[i].ports)
  }

  function EndpointSlotter(w: World, lb: LoadBalancer): nat -> seq<Slot> {
    (i: nat) => if i < |lb.endpoints| then EndpointSlots(w, lb, i) else []
  }

  function LbSlots(w: World, lb: LoadBalancer): seq<Slot> {
    Gather(EndpointSlotter(w, lb), |lb.endpoints|)
  }

  function LbSlotter(w: World): LoadBalancer -> seq<Slot> {
    lb => LbSlots(w, lb)
  }

  function RouteKind(route: Route): string {
    if route.source.Some? && route.source.value.kind != "" then route.source.value.kind
    else Get(route.labels, LABEL_ORIGIN_KIND)
  }

  predicate IsHttpRoute(kind: string) {
    kind == "HTTPRoute" || kind == "GRPCRoute" || kind == "Ingress"
  }

  /** An HTTP listener, unless an Ingress asks for TLS to its backend. */
  predicate UsesHttpListener(route: Route) {
    IsHttpRoute(RouteKind(route)) &&
    !(route.source.Some? && RouteKind(route) == "Ingress" && route.source.value.tlsBackend)
  }

  function OriginalRouteNamespace(route: Route): string {
    if route.source.Some? && route.source.value.namespace != "" then route.source.value.namespace
    else Get(route.labels, LABEL_ORIGIN_NAMESPACE)
  }

  function RouteSlot(route: Route, svc: Service, addresses: seq<Address>, p: ServicePort): Slot {
    Slot(RouteResourceName(route.namespace, svc.namespace, svc.name, OriginalRouteNamespace(route),
                           OriginalRouteName(route), p.port, p.protocol),
         SvcEndpointKey(route, svc), ServicePortKey(p), p.protocol, p.port, addresses, p.nodePort,
         if UsesHttpListener(route) then RouteKind(route) else "", false, false, UsesHttpListener(route))
  }

  function Resolver(w: World, namespace: string): Endpoints -> seq<Address> {
    e => Addresses(w, namespace, e)
  }

  function RouteAddresses(w: World, route: Route): seq<Address> {
    FlatMap(Resolver(w, route.namespace), route.endpoints)
  }

  function RoutePortSlotter(route: Route, svc: Service, addresses: seq<Address>): ServicePort -> seq<Slot> {
    p => [RouteSlot(route, svc, addresses, p)]
  }

  function ServiceSlotter(route: Route, addresses: seq<Address>): Service -> seq<Slot> {
    (svc: Service) => FlatMap(RoutePortSlotter(route, svc, addresses), svc.ports)
  }

  function RouteSlotter(w: World): Route -> seq<Slot> {
    (route: Route) =>
      if route.source.None? then []
      else FlatMap(ServiceSlotter(route, RouteAddresses(w, route)), route.source.value.services)
  }

  function Slots(w: World, lbs: seq<LoadBalancer>, routes: seq<Route>): seq<Slot> {
    FlatMap(LbSlotter(w), lbs) + FlatMap(RouteSlotter(w), routes)
  }

  // ------------------------------------------------------------- resources

  predicate Bindable(s: Slot) { s.protocol == TCP || s.protocol == UDP }

  /** Protocols other than TCP and UDP get a cluster but no listener. */
  function Listeners(t: Table, s: Slot): seq<Listener> {
    if Bindable(s)
    then [Listener(s.name, s.name, LookupOr(t, s.ek, s.pk, s.fallback), s.protocol, s.http && s.protocol == TCP,
      s.sourceIp)]
    else []
  }

  function UpstreamAt(port: int): Address -> seq<Upstream> {
    a => [Upstream(Literal(a), port)]
  }

  /** Reference: one upstream per address, in order, at `port`: the IP field if it is filled, else the host name. */
  ghost predicate Connects(us: seq<Upstream>, addresses: seq<Address>, port: int) {
    |us| == |addresses| &&
    forall i | 0 <= i < |us| ::
      us[i].port == port && us[i].address == if addresses[i].ip != "" then addresses[i].ip else addresses[i].hostname
  }

  function At(addresses: seq<Address>, port: int): (us: seq<Upstream>)
    ensures Connects(us, addresses, port)
  {
    ghost var all := seq(|addresses|, i requires 0 <= i < |addresses| => Upstream(Literal(addresses[i]), port));
    FlatMapSingletons(UpstreamAt(port), addresses, all);
    FlatMap(UpstreamAt(port), addresses)
  }

  function Upstreams(s: Slot): seq<Upstream> {
    At(s.addresses, s.upstreamPort)
  }

  function ClusterOf(w: World, s: Slot): Cluster {
    var discovery := PickDiscovery(w, s.addresses);
    Cluster(s.name, s.protocol, s.routeKind, s.proxyProtocol, s.sourceIp && Bindable(s), discovery,
            if discovery == EDS then None else Some(Assignment(s.name, Upstreams(s))))
  }

  function Assigned(w: World, s: Slot): seq<Assignment> {
    if PickDiscovery(w, s.addresses) == EDS then [Assignment(s.name, Upstreams(s))] else []
  }

  function Listening(t: Table): Slot -> seq<Listener> { s => Listeners(t, s) }

  function Clustering(w: World): Slot -> seq<Cluster> { s => [ClusterOf(w, s)] }

  function Assigning(w: World): Slot -> seq<Assignment> { s => Assigned(w, s) }

  function ResourcesOf(w: World, t: Table, slots: seq<Slot>): Resources {
    Resources(FlatMap(Clustering(w), slots), FlatMap(Listening(t), slots), FlatMap(Assigning(w), slots))
  }

  // ------------------------------------------------------------- sorting and deduplication

  const ClusterName: Cluster -> string := (c: Cluster) => c.name
  const ListenerName: Listener -> string := (l: Listener) => l.name
  const AssignmentName: Assignment -> string := (a: Assignment) => a.cluster

  /** The socket a listener binds. */
  const Socket: Listener -> (int, string) := (l: Listener) => (l.port, l.protocol)

  /** The listeners whose socket neither `seen` nor an earlier listener has. */
  function DedupFrom(ls: seq<Listener>, seen: set<(int, string)>): seq<Listener> {
    if ls == [] then []
    else if Socket(ls[0]) in seen then DedupFrom(ls[1..], seen)
    else [ls[0]] + DedupFrom(ls[1..], seen + {Socket(ls[0])})
  }

  function Dedup(ls: seq<Listener>): seq<Listener> { DedupFrom(ls, {}) }

  method DedupListenersByAddress(ls: seq<Listener>) returns (kept: seq<Listener>)
    ensures kept == Dedup(ls)
  {
    var seen: set<(int, string)> := {};
    kept := [];
    assert ls[0..] == ls;
    for i := 0 to |ls|
      invariant kept + DedupFrom(ls[i..], seen) == Dedup(ls)
    {
      assert ls[i..][0] == ls[i] && ls[i..][1..] == ls[i + 1..];
      if Socket(ls[i]) !in seen {
        seen := seen + {Socket(ls[i])};
        kept := kept + [ls[i]];
      }
    }
  }

  /** `s` is a snapshot of the slots: sorted by name in any order sorting may leave, sockets deduplicated. */
  ghost predicate SnapshotOf(w: World, t: Table, slots: seq<Slot>, s: Resources) {
    var r := ResourcesOf(w, t, slots);
    && SortedPermutation(ClusterName, r.clusters, s.clusters)
    && SortedPermutation(AssignmentName, r.endpoints, s.endpoints)
    && exists ls :: SortedPermutation(ListenerName, r.listeners, ls) && s.listeners == Dedup(ls)
  }

  // ------------------------------------------------------------- MapSnapshot

  type Cache = map<string, seq<Address>>

  /** The cache holds what the store holds, for the one namespace a snapshot covers. */
  ghost predicate Coherent(w: World, namespace: string, cache: Cache) {
    forall r | AddressCacheKey(namespace, r) in cache ::
      (namespace, r) in w.store && cache[AddressCacheKey(namespace, r)] == w.store[(namespace, r)]
  }

  /** Cache first, store second; a reference the store does not have is an error. */
  method ResolveAddresses(w: World, namespace: string, e: Endpoints, cache: Cache)
    returns (ok: bool, addresses: seq<Address>, cache': Cache)
    requires Coherent(w, namespace, cache)
    ensures Coherent(w, namespace, cache')
    ensures ok <==> Resolves(w, namespace, e)
    ensures ok ==> addresses == Addresses(w, namespace, e) && Given(w, namespace, e, addresses)
  {
    ok, addresses, cache' := true, e.addresses, cache;
    if e.reference.Some? {
      var r := e.reference.value;
      var key := AddressCacheKey(namespace, r);
      if key in cache {
        addresses := cache[key];
      } else if (namespace, r) in w.store {
        addresses := w.store[(namespace, r)];
        cache' := cache[key := addresses];
        forall q | AddressCacheKey(namespace, q) in cache'
          ensures (namespace, q) in w.store && cache'[AddressCacheKey(namespace, q)] == w.store[(namespace, q)]
        {
          if AddressCacheKey(namespace, q) == key { AddressCacheKeyInjective(namespace, q, r); }
        }
      } else {
        ok := false;
      }
    }
  }

  const NoResources := Resources([], [], [])

  /** Appending to the three lists. */
  function Join(r: Resources, q: Resources): Resources {
    Resources(r.clusters + q.clusters, r.listeners + q.listeners, r.endpoints + q.endpoints)
  }

  /** What one upstream port appends. */
  function SlotResources(w: World, t: Table, s: Slot): Resources {
    Resources([ClusterOf(w, s)], Listeners(t, s), Assigned(w, s))
  }

  lemma JoinSlots(w: World, t: Table, a: seq<Slot>, b: seq<Slot>)
    ensures ResourcesOf(w, t, a + b) == Join(ResourcesOf(w, t, a), ResourcesOf(w, t, b))
  {
    FlatMapConcat(Clustering(w), a, b);
    FlatMapConcat(Listening(t), a, b);
    FlatMapConcat(Assigning(w), a, b);
  }

  lemma OneSlot(w: World, t: Table, s: Slot)
    ensures ResourcesOf(w, t, [s]) == SlotResources(w, t, s)
  {
    FlatMapOne(Clustering(w), s);
    FlatMapOne(Listening(t), s);
    FlatMapOne(Assigning(w), s);
  }

  /** One more round of a loop that appends resources. */
  lemma JoinRound<T>(w: World, t: Table, f: T -> seq<Slot>, xs: seq<T>, j: nat)
    requires j < |xs|
    ensures ResourcesOf(w, t, FlatMap(f, xs[..j + 1]))
            == Join(ResourcesOf(w, t, FlatMap(f, xs[..j])), ResourcesOf(w, t, f(xs[j])))
  {
    FlatMapStep(f, xs, j);
    JoinSlots(w, t, FlatMap(f, xs[..j]), f(xs[j]));
  }

  method EndpointResources(w: World, t: Table, lb: LoadBalancer, i: nat, addresses: seq<Address>) returns (r: Resources)
    requires i < |lb.endpoints| && addresses == Addresses(w, lb.namespace, lb.endpoints[i])
    ensures r == ResourcesOf(w, t, EndpointSlots(w, lb, i))
  {
    var ports := lb.endpoints[i].ports;
    ghost var f := LbPortSlotter(lb, i, addresses);
    r := NoResources;
    for j := 0 to |ports|
      invariant r == ResourcesOf(w, t, FlatMap(f, ports[..j]))
    {
      var s := LbSlot(lb, i, addresses, ports[j]);
      OneSlot(w, t, s);
      JoinRound(w, t, f, ports, j);
      r := Join(r, SlotResources(w, t, s));
    }
    assert ports[..|ports|] == ports;
  }

  ghost predicate AllResolve(w: World, namespace: string, es: seq<Endpoints>) {
    forall e <- es :: Resolves(w, namespace, e)
  }

  /** A Route without a Kubernetes source is skipped, references and all. */
  ghost predicate RouteResolves(w: World, route: Route) {
    route.source.Some? ==> AllResolve(w, route.namespace, route.endpoints)
  }

  lemma ResolveOneMore(w: World, namespace: string, es: seq<Endpoints>, i: nat)
    requires i < |es| && AllResolve(w, namespace, es[..i])
    ensures Resolves(w, namespace, es[i]) ==> AllResolve(w, namespace, es[..i + 1])
    ensures !Resolves(w, namespace, es[i]) ==> !AllResolve(w, namespace, es)
  {
    assert es[..i + 1] == es[..i] + [es[i]] && es[i] in es;
  }

  method SubsetResources(w: World, t: Table, lb: LoadBalancer, i: nat, cache: Cache, r: Resources)
    returns (ok: bool, cache': Cache, r': Resources)
    requires i < |lb.endpoints| && Coherent(w, lb.namespace, cache)
    requires r == ResourcesOf(w, t, Gather(EndpointSlotter(w, lb), i))
    ensures ok <==> Resolves(w, lb.namespace, lb.endpoints[i])
    ensures Coherent(w, lb.namespace, cache')
    ensures ok ==> r' == ResourcesOf(w, t, Gather(EndpointSlotter(w, lb), i + 1))
  {
    var addresses;
    r' := r;
    ok, addresses, cache' := ResolveAddresses(w, lb.namespace, lb.endpoints[i], cache);
    if ok {
      var q := EndpointResources(w, t, lb, i, addresses);
      JoinSlots(w, t, Gather(EndpointSlotter(w, lb), i), EndpointSlots(w, lb, i));
      r' := Join(r, q);
    }
  }

  method LbResources(w: World, t: Table, lb: LoadBalancer, cache: Cache) returns (ok: bool, cache': Cache, r: Resources)
    requires Coherent(w, lb.namespace, cache)
    ensures ok <==> AllResolve(w, lb.namespace, lb.endpoints)
    ensures Coherent(w, lb.namespace, cache')
    ensures ok ==> r == ResourcesOf(w, t, LbSlots(w, lb))
  {
    ok, cache', r := true, cache, NoResources;
    for i := 0 to |lb.endpoints|
      invariant ok && Coherent(w, lb.namespace, cache') && AllResolve(w, lb.namespace, lb.endpoints[..i])
      invariant r == ResourcesOf(w, t, Gather(EndpointSlotter(w, lb), i))
    {
      ok, cache', r := SubsetResources(w, t, lb, i, cache', r);
      ResolveOneMore(w, lb.namespace, lb.endpoints, i);
      if !ok { return; }
    }
    assert lb.endpoints[..|lb.endpoints|] == lb.endpoints;
  }

  method ResolveRouteAddresses(w: World, route: Route, cache: Cache)
    returns (ok: bool, addresses: seq<Address>, cache': Cache)
    requires Coherent(w, route.namespace, cache)
    ensures Coherent(w, route.namespace, cache')
    ensures ok <==> AllResolve(w, route.namespace, route.endpoints)
    ensures ok ==> addresses == RouteAddresses(w, route)
  {
    ok, addresses, cache' := true, [], cache;
    ghost var f := Resolver(w, route.namespace);
    for i := 0 to |route.endpoints|
      invariant ok && Coherent(w, route.namespace, cache') && AllResolve(w, route.namespace, route.endpoints[..i])
      invariant addresses == FlatMap(f, route.endpoints[..i])
    {
      var more;
      ok, more, cache' := ResolveAddresses(w, route.namespace, route.endpoints[i], cache');
      ResolveOneMore(w, route.namespace, route.endpoints, i);
      if !ok { return; }
      FlatMapStep(f, route.endpoints, i);
      addresses := addresses + more;
    }
    assert route.endpoints[..|route.endpoints|] == route.endpoints;
  }

  method ServiceResources(w: World, t: Table, route: Route, svc: Service, addresses: seq<Address>)
    returns (r: Resources)
    ensures r == ResourcesOf(w, t, ServiceSlotter(route, addresses)(svc))
  {
    ghost var f := RoutePortSlotter(route, svc, addresses);
    var ports := svc.ports;
    r := NoResources;
    for j := 0 to |ports|
      invariant r == ResourcesOf(w, t, FlatMap(f, ports[..j]))
    {
      var s := RouteSlot(route, svc, addresses, ports[j]);
      OneSlot(w, t, s);
      JoinRound(w, t, f, ports, j);
      r := Join(r, SlotResources(w, t, s));
    }
    assert ports[..|ports|] == ports;
  }

  method RouteResources(w: World, t: Table, route: Route, cache: Cache) returns (ok: bool, cache': Cache, r: Resources)
    requires Coherent(w, route.namespace, cache)
    ensures ok <==> RouteResolves(w, route)
    ensures ok ==> Coherent(w, route.namespace, cache') && r == ResourcesOf(w, t, RouteSlotter(w)(route))
  {
    ok, cache', r := true, cache, NoResources;
    if route.source.None? { return; }
    var addresses;
    ok, addresses, cache' := ResolveRouteAddresses(w, route, cache);
    if !ok { return; }
    var svcs := route.source.value.services;
    ghost var f := ServiceSlotter(route, addresses);
    for i := 0 to |svcs|
      invariant r == ResourcesOf(w, t, FlatMap(f, svcs[..i]))
    {
      var q := ServiceResources(w, t, route, svcs[i], addresses);
      JoinRound(w, t, f, svcs, i);
      r := Join(r, q);
    }
    assert svcs[..|svcs|] == svcs;
  }

  /** Every address reference a snapshot needs exists. */
  ghost predicate Resolvable(w: World, lbs: seq<LoadBalancer>, routes: seq<Route>) {
    && (forall lb <- lbs :: AllResolve(w, lb.namespace, lb.endpoints))
    && (forall route <- routes :: RouteResolves(w, route))
  }

  ghost predicate InNamespace(namespace: string, lbs: seq<LoadBalancer>, routes: seq<Route>) {
    (forall lb <- lbs :: lb.namespace == namespace) && (forall route <- routes :: route.namespace == namespace)
  }

  lemma LbsOneMore(w: World, lbs: seq<LoadBalancer>, i: nat)
    requires i < |lbs| && Resolvable(w, lbs[..i], [])
    ensures Resolvable(w, lbs[..i + 1], []) <==> AllResolve(w, lbs[i].namespace, lbs[i].endpoints)
    ensures Resolvable(w, lbs, []) ==> AllResolve(w, lbs[i].namespace, lbs[i].endpoints)
  {
    assert lbs[..i + 1] == lbs[..i] + [lbs[i]] && lbs[i] in lbs;
  }

  lemma RoutesOneMore(w: World, routes: seq<Route>, i: nat)
    requires i < |routes| && Resolvable(w, [], routes[..i])
    ensures Resolvable(w, [], routes[..i + 1]) <==> RouteResolves(w, routes[i])
    ensures Resolvable(w, [], routes) ==> RouteResolves(w, routes[i])
  {
    assert routes[..i + 1] == routes[..i] + [routes[i]] && routes[i] in routes;
  }

  method CollectLbs(w: World, t: Table, namespace: string, lbs: seq<LoadBalancer>)
    returns (ok: bool, cache: Cache, r: Resources)
    requires InNamespace(namespace, lbs, [])
    ensures ok <==> Resolvable(w, lbs, [])
    ensures ok ==> Coherent(w, namespace, cache) && r == ResourcesOf(w, t, FlatMap(LbSlotter(w), lbs))
  {
    ok, cache, r := true, map[], NoResources;
    for i := 0 to |lbs|
      invariant ok && Coherent(w, namespace, cache) && Resolvable(w, lbs[..i], [])
      invariant r == ResourcesOf(w, t, FlatMap(LbSlotter(w), lbs[..i]))
    {
      LbsOneMore(w, lbs, i);
      assert lbs[i].namespace == namespace;
      var q;
      ok, cache, q := LbResources(w, t, lbs[i], cache);
      if !ok { return; }
      JoinRound(w, t, LbSlotter(w), lbs, i);
      r := Join(r, q);
    }
    assert lbs[..|lbs|] == lbs;
  }

  method CollectRoutes(w: World, t: Table, namespace: string, routes: seq<Route>, cache: Cache)
    returns (ok: bool, r: Resources)
    requires InNamespace(namespace, [], routes) && Coherent(w, namespace, cache)
    ensures ok <==> Resolvable(w, [], routes)
    ensures ok ==> r == ResourcesOf(w, t, FlatMap(RouteSlotter(w), routes))
  {
    var cached := cache;
    ok, r := true, NoResources;
    for i := 0 to |routes|
      invariant ok && Coherent(w, namespace, cached) && Resolvable(w, [], routes[..i])
      invariant r == ResourcesOf(w, t, FlatMap(RouteSlotter(w), routes[..i]))
    {
      RoutesOneMore(w, routes, i);
      assert routes[i].namespace == namespace;
      var q;
      ok, cached, q := RouteResources(w, t, routes[i], cached);
      if !ok { return; }
      JoinRound(w, t, RouteSlotter(w), routes, i);
      r := Join(r, q);
    }
    assert routes[..|routes|] == routes;
  }

  /** Fails exactly when an address reference is missing; otherwise builds a snapshot of the slots. */
  method MapSnapshot(w: World, t: Table, namespace: string, lbs: seq<LoadBalancer>, routes: seq<Route>)
    returns (result: Option<Resources>)
    requires InNamespace(namespace, lbs, routes)
    ensures result.Some? <==> Resolvable(w, lbs, routes)
    ensures result.Some? ==> SnapshotOf(w, t, Slots(w, lbs, routes), result.value)
  {
    var ok, cache, r := CollectLbs(w, t, namespace, lbs);
    if !ok { return None; }
    var q;
    ok, q := CollectRoutes(w, t, namespace, routes, cache);
    if !ok { return None; }
    JoinSlots(w, t, FlatMap(LbSlotter(w), lbs), FlatMap(RouteSlotter(w), routes));
    r := Join(r, q);
    var ls := SortBy(ListenerName, r.listeners);
    var kept := DedupListenersByAddress(ls);
    result := Some(Resources(SortBy(ClusterName, r.clusters), kept, SortBy(AssignmentName, r.endpoints)));
  }
}
