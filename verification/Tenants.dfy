/**
 The load balancers and routes of one tenant. From what Kubernetes admits, and from backends with distinct
 endpoint keys and resource stems, it follows that no two of their ports contend for a name or a table
 entry, so one allocation delivers everything.
 */
module Tenants {
  import opened Api
  import opened Delivery
  import opened Envoy
  import opened Keys
  import opened Lists
  import opened LoadBalancers
  import opened PersistedPorts
  import opened PortRequests
  import opened PortTable
  import opened RouteServices
  import opened SnapshotProperties
  import opened Text

  // ------------------------------------------------------------- mirrored Services

  /** What Kubernetes guarantees of a tenant's NodePort Services. */
  ghost predicate Admitted(svc: Service) {
    && (forall i, j | 0 <= i < j < |svc.ports| :: MappedName(svc.ports[i]) != MappedName(svc.ports[j]))
    && (forall i, j | 0 <= i < j < |svc.ports| ::
          svc.ports[i].nodePort != svc.ports[j].nodePort || svc.ports[i].protocol != svc.ports[j].protocol)
    && (forall p <- svc.ports :: p.nodePort >= 0 && (p.protocol == TCP || p.protocol == UDP))
  }

  /** The load balancers of a tenant: each mapped from an admitted Service, no two from one UID. */
  ghost predicate Mirrors(lbs: seq<LoadBalancer>, svcs: seq<Service>, tenant: string) {
    && |lbs| == |svcs|
    && (forall i | 0 <= i < |lbs| :: Admitted(svcs[i]) && MirrorOf(lbs[i], svcs[i], tenant))
    && (forall i, j | 0 <= i < j < |svcs| :: svcs[i].uid != svcs[j].uid)
  }

  ghost predicate MirrorOf(lb: LoadBalancer, svc: Service, tenant: string) {
    exists addresses, reference :: lb.(status := []) == Mapped(svc, addresses, reference, tenant)
  }

  lemma MirrorSlot(w: World, lb: LoadBalancer, svc: Service, tenant: string, s: Slot) returns (j: nat)
    requires MirrorOf(lb, svc, tenant) && Admitted(svc) && s in LbSlots(w, lb)
    ensures lb.namespace == tenant && lb.name == svc.uid && lb.endpoints != []
    ensures j < |svc.ports| && s == LbSlot(lb, 0, Addresses(w, tenant, lb.endpoints[0]), NodePort(svc.ports[j]))
    ensures svc.ports[j].nodePort >= 0 && '-' !in svc.ports[j].protocol && Bindable(s)
  {
    var addresses, reference :| lb.(status := []) == Mapped(svc, addresses, reference, tenant);
    var i, p := LbSlotFrom(w, lb, s);
    j :| 0 <= j < |svc.ports| && NodePort(svc.ports[j]) == p;
    assert svc.ports[j] in svc.ports;
  }

  /** Slots of one tenant that agree in name or entry come from one load balancer and one port. */
  lemma SlotsSeparate(x: Slot, y: Slot, lb: LoadBalancer, lb': LoadBalancer, a: seq<Address>, a': seq<Address>,
                      p: EndpointPort, q: EndpointPort)
    requires x == LbSlot(lb, 0, a, p) && y == LbSlot(lb', 0, a', q) && lb.namespace == lb'.namespace
    requires p.port >= 0 && q.port >= 0 && '-' !in p.protocol && '-' !in q.protocol
    requires SlotName(x) == SlotName(y) || EntryOf(x) == EntryOf(y)
    ensures lb.name == lb'.name && p.port == q.port && p.protocol == q.protocol
  {
    if x.name == y.name {
      LbResourceNameInjective(x.ek, p.port, p.protocol, y.ek, q.port, q.protocol);
    } else {
      PortKeyInjective(p.port, p.protocol, q.port, q.protocol);
    }
    LbEndpointKeyInjective(lb.namespace, lb.name, 0, lb'.namespace, lb'.name, 0);
  }

  ghost predicate Apart(x: Slot, y: Slot) {
    SlotName(x) != SlotName(y) && EntryOf(x) != EntryOf(y)
  }

  lemma PortsApart(w: World, lb: LoadBalancer, svc: Service, tenant: string, i: nat, j: nat)
    requires MirrorOf(lb, svc, tenant) && Admitted(svc) && i < j < |svc.ports|
    ensures var a := Addresses(w, lb.namespace, lb.endpoints[0]);
            Apart(LbSlot(lb, 0, a, NodePort(svc.ports[i])), LbSlot(lb, 0, a, NodePort(svc.ports[j])))
  {
    var a := Addresses(w, lb.namespace, lb.endpoints[0]);
    var x, y := LbSlot(lb, 0, a, NodePort(svc.ports[i])), LbSlot(lb, 0, a, NodePort(svc.ports[j]));
    assert svc.ports[i] in svc.ports && svc.ports[j] in svc.ports;
    if !Apart(x, y) { SlotsSeparate(x, y, lb, lb, a, a, NodePort(svc.ports[i]), NodePort(svc.ports[j])); }
  }

  lemma MirrorSlotsList(w: World, lb: LoadBalancer, svc: Service, tenant: string)
    requires MirrorOf(lb, svc, tenant)
    ensures |LbSlots(w, lb)| == |svc.ports|
    ensures forall j | 0 <= j < |svc.ports| ::
              LbSlots(w, lb)[j] == LbSlot(lb, 0, Addresses(w, lb.namespace, lb.endpoints[0]), NodePort(svc.ports[j]))
  {
    var addresses, reference :| lb.(status := []) == Mapped(svc, addresses, reference, tenant);
    GatherOne(EndpointSlotter(w, lb));
    var a, ports := Addresses(w, lb.namespace, lb.endpoints[0]), lb.endpoints[0].ports;
    var slots := seq(|ports|, j requires 0 <= j < |ports| => LbSlot(lb, 0, a, ports[j]));
    FlatMapSingletons(LbPortSlotter(lb, 0, a), ports, slots);
  }

  lemma MirrorSlotsDistinct(w: World, lb: LoadBalancer, svc: Service, tenant: string)
    requires MirrorOf(lb, svc, tenant) && Admitted(svc)
    ensures DistinctBy(SlotName, LbSlots(w, lb)) && DistinctBy(EntryOf, LbSlots(w, lb))
  {
    MirrorSlotsList(w, lb, svc, tenant);
    forall i, j | 0 <= i < j < |svc.ports| ensures Apart(LbSlots(w, lb)[i], LbSlots(w, lb)[j]) {
      PortsApart(w, lb, svc, tenant, i, j);
    }
  }

  lemma MirrorsApart(w: World, lbs: seq<LoadBalancer>, svcs: seq<Service>, tenant: string, i: nat, j: nat, x: Slot,
                     y: Slot)
    requires Mirrors(lbs, svcs, tenant) && i < j < |lbs| && x in LbSlots(w, lbs[i]) && y in LbSlots(w, lbs[j])
    ensures Apart(x, y)
  {
    var m := MirrorSlot(w, lbs[i], svcs[i], tenant, x);
    var n := MirrorSlot(w, lbs[j], svcs[j], tenant, y);
    var p, q := svcs[i].ports[m], svcs[j].ports[n];
    if !Apart(x, y) {
      SlotsSeparate(x, y, lbs[i], lbs[j], Addresses(w, tenant, lbs[i].endpoints[0]),
                    Addresses(w, tenant, lbs[j].endpoints[0]), NodePort(p), NodePort(q));
    }
  }

  lemma MirrorsAreBindable(w: World, lbs: seq<LoadBalancer>, svcs: seq<Service>, tenant: string, s: Slot)
    requires Mirrors(lbs, svcs, tenant) && s in FlatMap(LbSlotter(w), lbs)
    ensures Bindable(s)
  {
    FlatMapMember(LbSlotter(w), lbs, s);
    var lb :| lb in lbs && s in LbSlotter(w)(lb);
    var i :| 0 <= i < |lbs| && lbs[i] == lb;
    var j := MirrorSlot(w, lb, svcs[i], tenant, s);
  }

  lemma MirrorNamesDistinct(w: World, lbs: seq<LoadBalancer>, svcs: seq<Service>, tenant: string)
    requires Mirrors(lbs, svcs, tenant)
    ensures DistinctBy(SlotName, FlatMap(LbSlotter(w), lbs))
  {
    var f := LbSlotter(w);
    forall i | 0 <= i < |lbs| ensures DistinctBy(SlotName, f(lbs[i])) {
      MirrorSlotsDistinct(w, lbs[i], svcs[i], tenant);
    }
    forall i, j | 0 <= i < j < |lbs| ensures forall x <- f(lbs[i]), y <- f(lbs[j]) :: SlotName(x) != SlotName(y) {
      forall x <- f(lbs[i]), y <- f(lbs[j]) ensures SlotName(x) != SlotName(y) {
        MirrorsApart(w, lbs, svcs, tenant, i, j, x, y);
      }
    }
    FlatMapDistinct(f, SlotName, lbs);
  }

  lemma MirrorEntriesDistinct(w: World, lbs: seq<LoadBalancer>, svcs: seq<Service>, tenant: string)
    requires Mirrors(lbs, svcs, tenant)
    ensures DistinctBy(EntryOf, FlatMap(LbSlotter(w), lbs))
  {
    var f := LbSlotter(w);
    forall i | 0 <= i < |lbs| ensures DistinctBy(EntryOf, f(lbs[i])) {
      MirrorSlotsDistinct(w, lbs[i], svcs[i], tenant);
    }
    forall i, j | 0 <= i < j < |lbs| ensures forall x <- f(lbs[i]), y <- f(lbs[j]) :: EntryOf(x) != EntryOf(y) {
      forall x <- f(lbs[i]), y <- f(lbs[j]) ensures EntryOf(x) != EntryOf(y) {
        MirrorsApart(w, lbs, svcs, tenant, i, j, x, y);
      }
    }
    FlatMapDistinct(f, EntryOf, lbs);
  }

  lemma MirrorsAllBound(w: World, lbs: seq<LoadBalancer>, svcs: seq<Service>, tenant: string)
    requires Mirrors(lbs, svcs, tenant)
    ensures BoundSlots(FlatMap(LbSlotter(w), lbs)) == FlatMap(LbSlotter(w), lbs)
  {
    var slots := FlatMap(LbSlotter(w), lbs);
    forall i | 0 <= i < |slots| ensures OnlyBindable(slots[i]) == [slots[i]] {
      MirrorsAreBindable(w, lbs, svcs, tenant, slots[i]);
    }
    FlatMapSingletons(OnlyBindable, slots, slots);
  }

  lemma MirrorAsks(lb: LoadBalancer, svc: Service, tenant: string)
    requires MirrorOf(lb, svc, tenant)
    ensures |lb.endpoints| == 1 && LbRequests(lb) == [EndpointRequest(lb, 0)]
    ensures EndpointRequest(lb, 0).ek == LbEndpointKey(tenant, svc.uid, 0)
  {
    var addresses, reference :| lb.(status := []) == Mapped(svc, addresses, reference, tenant);
    GatherOne(EndpointRequester(lb));
  }

  lemma {:induction false} MirrorRequest(lbs: seq<LoadBalancer>, svcs: seq<Service>, tenant: string, r: Request)
    returns (i: nat)
    requires Mirrors(lbs, svcs, tenant) && r in FlatMap(LbRequests, lbs)
    ensures i < |lbs| && r.ek == LbEndpointKey(tenant, svcs[i].uid, 0) && lbs[i].endpoints != []
            && r == EndpointRequest(lbs[i], 0)
  {
    i := FlatMapIndex(LbRequests, lbs, r);
    MirrorAsks(lbs[i], svcs[i], tenant);
  }

  lemma {:induction false} OneRequestPerMirror(lbs: seq<LoadBalancer>, svcs: seq<Service>, tenant: string, r: Request,
                                               q: Request)
    requires Mirrors(lbs, svcs, tenant) && r in FlatMap(LbRequests, lbs) && q in FlatMap(LbRequests, lbs)
    requires r.ek == q.ek
    ensures r == q
  {
    var i := MirrorRequest(lbs, svcs, tenant, r);
    var j := MirrorRequest(lbs, svcs, tenant, q);
    LbEndpointKeyInjective(tenant, svcs[i].uid, 0, tenant, svcs[j].uid, 0);
    assert i == j;
  }

  lemma MirrorsAreCompatible(lbs: seq<LoadBalancer>, svcs: seq<Service>, tenant: string)
    requires Mirrors(lbs, svcs, tenant)
    ensures Compatible(FlatMap(LbRequests, lbs))
  {
    forall r <- FlatMap(LbRequests, lbs), q <- FlatMap(LbRequests, lbs) | r.ek == q.ek ensures r == q {
      OneRequestPerMirror(lbs, svcs, tenant, r, q);
    }
  }

  // ------------------------------------------------------------- backends of routes

  datatype Backend = Backend(route: Route, svc: Service)

  function BackendsOf(route: Route): seq<Backend> {
    match route.source
    case None => []
    case Some(source) =>
      seq(|source.services|, i requires 0 <= i < |source.services| => Backend(route, source.services[i]))
  }

  function Backends(routes: seq<Route>): seq<Backend> { FlatMap(BackendsOf, routes) }

  function BackendKey(b: Backend): string { SvcEndpointKey(b.route, b.svc) }

  /** The resource names of a backend's ports begin with this. */
  function BackendStem(b: Backend): string {
    "tenant-" + b.route.namespace + "-route-" + b.svc.namespace + "-" + b.svc.name + "-"
      + OriginalRouteNamespace(b.route)
    + "-" + OriginalRouteName(b.route)
  }

  function BackendSlots(w: World): Backend -> seq<Slot> {
    (b: Backend) => FlatMap(RoutePortSlotter(b.route, b.svc, RouteAddresses(w, b.route)), b.svc.ports)
  }

  function BackendRequests(): Backend -> seq<Request> {
    (b: Backend) => [ServiceRequest(b.route, b.svc)]
  }

  lemma {:induction false} RegroupBackends<U>(f: Service -> seq<U>, g: Backend -> seq<U>, route: Route,
                                              svcs: seq<Service>, bs: seq<Backend>)
    requires |bs| == |svcs| && forall i | 0 <= i < |svcs| :: bs[i] == Backend(route, svcs[i])
    requires forall svc :: f(svc) == g(Backend(route, svc))
    ensures FlatMap(f, svcs) == FlatMap(g, bs)
  {
    if svcs != [] { RegroupBackends(f, g, route, svcs[1..], bs[1..]); }
  }

  lemma {:induction false} RouteSlotsAreBackendSlots(w: World, routes: seq<Route>)
    ensures FlatMap(RouteSlotter(w), routes) == FlatMap(BackendSlots(w), Backends(routes))
  {
    if routes != [] {
      var route := routes[0];
      RouteSlotsAreBackendSlots(w, routes[1..]);
      FlatMapConcat(BackendSlots(w), BackendsOf(route), Backends(routes[1..]));
      if route.source.Some? {
        RegroupBackends(ServiceSlotter(route, RouteAddresses(w, route)), BackendSlots(w), route,
                        route.source.value.services, BackendsOf(route));
      }
    }
  }

  lemma {:induction false} RouteRequestsAreBackendRequests(routes: seq<Route>)
    ensures FlatMap(RouteRequests, routes) == FlatMap(BackendRequests(), Backends(routes))
  {
    if routes != [] {
      var route := routes[0];
      RouteRequestsAreBackendRequests(routes[1..]);
      FlatMapConcat(BackendRequests(), BackendsOf(route), Backends(routes[1..]));
      if route.source.Some? {
        RegroupBackends(ServiceRequester(route), BackendRequests(), route, route.source.value.services,
          BackendsOf(route));
      }
    }
  }

  /** What Kubernetes guarantees of a backend Service. */
  ghost predicate AdmittedBackend(b: Backend) {
    && (forall p <- b.svc.ports :: p.port >= 0 && (p.protocol == TCP || p.protocol == UDP))
    && (forall i, j | 0 <= i < j < |b.svc.ports| ::
          b.svc.ports[i].port != b.svc.ports[j].port || b.svc.ports[i].protocol != b.svc.ports[j].protocol)
  }

  /** The routes of a tenant: admitted backends, no two of which share an endpoint key or a resource stem. */
  ghost predicate AdmittedRoutes(routes: seq<Route>, tenant: string) {
    var bs := Backends(routes);
    && (forall b <- bs :: b.route.namespace == tenant && AdmittedBackend(b))
    && (forall i, j | 0 <= i < j < |bs| ::
          BackendKey(bs[i]) != BackendKey(bs[j]) && BackendStem(bs[i]) != BackendStem(bs[j]))
  }

  lemma BackendSlotsList(w: World, b: Backend)
    ensures |BackendSlots(w)(b)| == |b.svc.ports|
    ensures forall j | 0 <= j < |b.svc.ports| ::
              BackendSlots(w)(b)[j] == RouteSlot(b.route, b.svc, RouteAddresses(w, b.route), b.svc.ports[j])
  {
    var a, ports := RouteAddresses(w, b.route), b.svc.ports;
    var slots := seq(|ports|, j requires 0 <= j < |ports| => RouteSlot(b.route, b.svc, a, ports[j]));
    FlatMapSingletons(RoutePortSlotter(b.route, b.svc, a), ports, slots);
  }

  lemma BackendSlot(w: World, b: Backend, s: Slot) returns (p: ServicePort)
    requires AdmittedBackend(b) && s in BackendSlots(w)(b)
    ensures p in b.svc.ports && s == RouteSlot(b.route, b.svc, RouteAddresses(w, b.route), p)
    ensures p.port >= 0 && '-' !in p.protocol && Bindable(s)
  {
    BackendSlotsList(w, b);
    var j :| 0 <= j < |b.svc.ports| && BackendSlots(w)(b)[j] == s;
    p := b.svc.ports[j];
  }

  /** Ports of backends with different keys and stems, or different ports of one, are apart. */
  lemma BackendPortsApart(b: Backend, c: Backend, a: seq<Address>, a': seq<Address>, p: ServicePort, q: ServicePort)
    requires p.port >= 0 && q.port >= 0 && '-' !in p.protocol && '-' !in q.protocol
    requires (BackendKey(b) != BackendKey(c) && BackendStem(b) != BackendStem(c)) || p.port != q.port
             || p.protocol != q.protocol
    ensures Apart(RouteSlot(b.route, b.svc, a, p), RouteSlot(c.route, c.svc, a', q))
  {
    var x, y := RouteSlot(b.route, b.svc, a, p), RouteSlot(c.route, c.svc, a', q);
    assert x.name == BackendStem(b) + "-port-" + PortKey(p.port, p.protocol);
    assert y.name == BackendStem(c) + "-port-" + PortKey(q.port, q.protocol);
    if x.name == y.name {
      LbResourceNameInjective(BackendStem(b), p.port, p.protocol, BackendStem(c), q.port, q.protocol);
    }
    if x.pk == y.pk { PortKeyInjective(p.port, p.protocol, q.port, q.protocol); }
  }

  lemma PortsOfBackendApart(w: World, b: Backend, i: nat, j: nat)
    requires AdmittedBackend(b) && i < j < |b.svc.ports|
    ensures var a := RouteAddresses(w, b.route);
            Apart(RouteSlot(b.route, b.svc, a, b.svc.ports[i]), RouteSlot(b.route, b.svc, a, b.svc.ports[j]))
  {
    var a := RouteAddresses(w, b.route);
    assert b.svc.ports[i] in b.svc.ports && b.svc.ports[j] in b.svc.ports;
    BackendPortsApart(b, b, a, a, b.svc.ports[i], b.svc.ports[j]);
  }

  lemma BackendSlotsDistinct(w: World, b: Backend)
    requires AdmittedBackend(b)
    ensures DistinctBy(SlotName, BackendSlots(w)(b)) && DistinctBy(EntryOf, BackendSlots(w)(b))
  {
    BackendSlotsList(w, b);
    forall i, j | 0 <= i < j < |b.svc.ports| ensures Apart(BackendSlots(w)(b)[i], BackendSlots(w)(b)[j]) {
      PortsOfBackendApart(w, b, i, j);
    }
  }

  lemma BackendsApart(w: World, b: Backend, c: Backend, x: Slot, y: Slot)
    requires AdmittedBackend(b) && AdmittedBackend(c) && BackendKey(b) != BackendKey(c)
             && BackendStem(b) != BackendStem(c)
    requires x in BackendSlots(w)(b) && y in BackendSlots(w)(c)
    ensures Apart(x, y)
  {
    var p := BackendSlot(w, b, x);
    var q := BackendSlot(w, c, y);
    BackendPortsApart(b, c, RouteAddresses(w, b.route), RouteAddresses(w, c.route), p, q);
  }

  lemma BackendsApartAt(w: World, routes: seq<Route>, tenant: string, i: nat, j: nat, x: Slot, y: Slot)
    requires AdmittedRoutes(routes, tenant) && i < j < |Backends(routes)|
    requires x in BackendSlots(w)(Backends(routes)[i]) && y in BackendSlots(w)(Backends(routes)[j])
    ensures Apart(x, y)
  {
    var bs := Backends(routes);
    assert bs[i] in bs && bs[j] in bs;
    BackendsApart(w, bs[i], bs[j], x, y);
  }

  lemma BackendDistinctAt(w: World, routes: seq<Route>, tenant: string, i: nat)
    requires AdmittedRoutes(routes, tenant) && i < |Backends(routes)|
    ensures DistinctBy(SlotName, BackendSlots(w)(Backends(routes)[i]))
            && DistinctBy(EntryOf, BackendSlots(w)(Backends(routes)[i]))
  {
    assert Backends(routes)[i] in Backends(routes);
    BackendSlotsDistinct(w, Backends(routes)[i]);
  }

  lemma RouteNamesDistinct(w: World, routes: seq<Route>, tenant: string)
    requires AdmittedRoutes(routes, tenant)
    ensures DistinctBy(SlotName, FlatMap(RouteSlotter(w), routes))
  {
    var f, bs := BackendSlots(w), Backends(routes);
    RouteSlotsAreBackendSlots(w, routes);
    forall i | 0 <= i < |bs| ensures DistinctBy(SlotName, f(bs[i])) { BackendDistinctAt(w, routes, tenant, i); }
    forall i, j | 0 <= i < j < |bs| ensures forall x <- f(bs[i]), y <- f(bs[j]) :: SlotName(x) != SlotName(y) {
      forall x <- f(bs[i]), y <- f(bs[j]) ensures SlotName(x) != SlotName(y) {
        BackendsApartAt(w, routes, tenant, i, j, x, y);
      }
    }
    FlatMapDistinct(f, SlotName, bs);
  }

  lemma RouteEntriesDistinct(w: World, routes: seq<Route>, tenant: string)
    requires AdmittedRoutes(routes, tenant)
    ensures DistinctBy(EntryOf, FlatMap(RouteSlotter(w), routes))
  {
    var f, bs := BackendSlots(w), Backends(routes);
    RouteSlotsAreBackendSlots(w, routes);
    forall i | 0 <= i < |bs| ensures DistinctBy(EntryOf, f(bs[i])) { BackendDistinctAt(w, routes, tenant, i); }
    forall i, j | 0 <= i < j < |bs| ensures forall x <- f(bs[i]), y <- f(bs[j]) :: EntryOf(x) != EntryOf(y) {
      forall x <- f(bs[i]), y <- f(bs[j]) ensures EntryOf(x) != EntryOf(y) {
        BackendsApartAt(w, routes, tenant, i, j, x, y);
      }
    }
    FlatMapDistinct(f, EntryOf, bs);
  }

  lemma RouteSlotOfTenant(w: World, routes: seq<Route>, tenant: string, s: Slot) returns (b: Backend, p: ServicePort)
    requires AdmittedRoutes(routes, tenant) && s in FlatMap(RouteSlotter(w), routes)
    ensures b in Backends(routes) && b.route.namespace == tenant && Bindable(s)
    ensures s == RouteSlot(b.route, b.svc, RouteAddresses(w, b.route), p)
  {
    RouteSlotsAreBackendSlots(w, routes);
    FlatMapMember(BackendSlots(w), Backends(routes), s);
    b :| b in Backends(routes) && s in BackendSlots(w)(b);
    p := BackendSlot(w, b, s);
  }

  lemma RequestOfBackend(routes: seq<Route>, r: Request) returns (i: nat)
    requires r in FlatMap(RouteRequests, routes)
    ensures i < |Backends(routes)| && r == ServiceRequest(Backends(routes)[i].route, Backends(routes)[i].svc)
    ensures r.ek == BackendKey(Backends(routes)[i])
  {
    var bs := Backends(routes);
    RouteRequestsAreBackendRequests(routes);
    FlatMapMember(BackendRequests(), bs, r);
    var b :| b in bs && r in BackendRequests()(b);
    i :| 0 <= i < |bs| && bs[i] == b;
  }

  lemma RoutesAreCompatible(routes: seq<Route>, tenant: string)
    requires AdmittedRoutes(routes, tenant)
    ensures Compatible(FlatMap(RouteRequests, routes))
  {
    forall r <- FlatMap(RouteRequests, routes), q <- FlatMap(RouteRequests, routes) | r.ek == q.ek ensures r == q {
      var i := RequestOfBackend(routes, r);
      var j := RequestOfBackend(routes, q);
      assert i == j;
    }
  }

  // ------------------------------------------------------------- load balancers beside routes

  /** The namespace is no repetition of "tenant". */
  predicate Distinguished(ns: string) { !(ns + "-" <= "tenant-" + ns + "-") }

  lemma PrefixesNest(a: string, b: string, s: string)
    requires a <= s && b <= s && |a| <= |b|
    ensures a <= b
  {
    assert a == s[..|a|] && b == s[..|b|];
  }

  lemma TenantPrefixes(ns: string, x: string, y: string)
    requires Distinguished(ns) && ns + "-" <= x && "tenant-" + ns + "-" <= y
    ensures x != y
  {
    if x == y { PrefixesNest(ns + "-", "tenant-" + ns + "-", x); }
  }

  lemma LbPrefix(ns: string, name: string, i: nat, rest: string)
    ensures ns + "-" <= LbEndpointKey(ns, name, i) + rest
  {
    var s := LbEndpointKey(ns, name, i) + rest;
    assert s == (ns + "-") + (name + "-ep-" + Decimal(i) + rest);
  }

  lemma RoutePrefix(ns: string, sns: string, svc: string, route: string, rest: string)
    ensures "tenant-" + ns + "-" <= RouteEndpointKey(ns, sns, svc, route) + rest
  {
    var s := RouteEndpointKey(ns, sns, svc, route) + rest;
    assert s == ("tenant-" + ns + "-") + ("route-" + sns + "-" + svc + "-" + route + rest);
  }

  /** In a distinguished namespace load balancers and routes never meet. */
  lemma KeysApart(ns: string, name: string, i: nat, sns: string, svc: string, route: string)
    requires Distinguished(ns)
    ensures LbEndpointKey(ns, name, i) != RouteEndpointKey(ns, sns, svc, route)
  {
    LbPrefix(ns, name, i, "");
    RoutePrefix(ns, sns, svc, route, "");
    assert LbEndpointKey(ns, name, i) + "" == LbEndpointKey(ns, name, i);
    assert RouteEndpointKey(ns, sns, svc, route) + "" == RouteEndpointKey(ns, sns, svc, route);
    TenantPrefixes(ns, LbEndpointKey(ns, name, i), RouteEndpointKey(ns, sns, svc, route));
  }

  /** In any other they can. */
  lemma KeysMeet(ns: string) returns (name: string, sns: string, svc: string, route: string)
    requires !Distinguished(ns)
    ensures LbEndpointKey(ns, name, 0) == RouteEndpointKey(ns, sns, svc, route)
  {
    sns, svc, route := "s", "s", "r-ep-0";
    var z := ("tenant-" + ns + "-")[|ns| + 1..];
    assert "tenant-" + ns + "-" == (ns + "-") + z;
    name := z + "route-" + sns + "-" + svc + "-r";
    assert Decimal(0) == "0";
    assert RouteEndpointKey(ns, sns, svc, route)
           == ("tenant-" + ns + "-") + ("route-" + sns + "-" + svc + "-r" + "-ep-" + "0");
  }

  /** The tenant's objects as Kubernetes admits them; routes ask for a distinguished namespace. */
  ghost predicate Tenant(lbs: seq<LoadBalancer>, svcs: seq<Service>, routes: seq<Route>, tenant: string) {
    Mirrors(lbs, svcs, tenant) && AdmittedRoutes(routes, tenant) && (routes != [] ==> Distinguished(tenant))
  }

  lemma LbAndRouteSlotsApart(w: World, lbs: seq<LoadBalancer>, svcs: seq<Service>, routes: seq<Route>, tenant: string,
                             x: Slot, y: Slot)
    requires Tenant(lbs, svcs, routes, tenant) && x in FlatMap(LbSlotter(w), lbs)
             && y in FlatMap(RouteSlotter(w), routes)
    ensures Apart(x, y)
  {
    FlatMapMember(LbSlotter(w), lbs, x);
    var lb :| lb in lbs && x in LbSlotter(w)(lb);
    var i :| 0 <= i < |lbs| && lbs[i] == lb;
    var j := MirrorSlot(w, lb, svcs[i], tenant, x);
    var b, p := RouteSlotOfTenant(w, routes, tenant, y);
    SlotKeysApart(tenant, lb, Addresses(w, tenant, lb.endpoints[0]), NodePort(svcs[i].ports[j]), b,
      RouteAddresses(w, b.route), p);
  }

  lemma SlotKeysApart(tenant: string, lb: LoadBalancer, a: seq<Address>, p: EndpointPort, b: Backend, a': seq<Address>,
                      q: ServicePort)
    requires Distinguished(tenant) && lb.namespace == tenant && b.route.namespace == tenant
    ensures Apart(LbSlot(lb, 0, a, p), RouteSlot(b.route, b.svc, a', q))
  {
    var x, y := LbSlot(lb, 0, a, p), RouteSlot(b.route, b.svc, a', q);
    KeysApart(tenant, lb.name, 0, b.svc.namespace, b.svc.name, OriginalRouteName(b.route));
    LbPrefix(tenant, lb.name, 0, "-port-" + PortKey(p.port, p.protocol));
    assert x.name == LbEndpointKey(tenant, lb.name, 0) + ("-port-" + PortKey(p.port, p.protocol));
    NamePrefix(b, q);
    TenantPrefixes(tenant, x.name, y.name);
  }

  lemma NamePrefix(b: Backend, q: ServicePort)
    ensures "tenant-" + b.route.namespace + "-" <= RouteResourceName(b.route.namespace, b.svc.namespace, b.svc.name,
              OriginalRouteNamespace(b.route), OriginalRouteName(b.route), q.port, q.protocol)
  {
    var ns := b.route.namespace;
    var rest := "-" + OriginalRouteName(b.route) + "-port-" + PortKey(q.port, q.protocol);
    RoutePrefix(ns, b.svc.namespace, b.svc.name, OriginalRouteNamespace(b.route), rest);
    assert RouteResourceName(ns, b.svc.namespace, b.svc.name, OriginalRouteNamespace(b.route),
           OriginalRouteName(b.route), q.port, q.protocol)
        == RouteEndpointKey(ns, b.svc.namespace, b.svc.name, OriginalRouteNamespace(b.route)) + rest;
  }

  lemma RoutesAllBound(w: World, routes: seq<Route>, tenant: string)
    requires AdmittedRoutes(routes, tenant)
    ensures BoundSlots(FlatMap(RouteSlotter(w), routes)) == FlatMap(RouteSlotter(w), routes)
  {
    var slots := FlatMap(RouteSlotter(w), routes);
    forall i | 0 <= i < |slots| ensures OnlyBindable(slots[i]) == [slots[i]] {
      var b, p := RouteSlotOfTenant(w, routes, tenant, slots[i]);
    }
    FlatMapSingletons(OnlyBindable, slots, slots);
  }

  lemma TenantNamesDistinct(w: World, lbs: seq<LoadBalancer>, svcs: seq<Service>, routes: seq<Route>, tenant: string)
    requires Tenant(lbs, svcs, routes, tenant)
    ensures DistinctBy(SlotName, Slots(w, lbs, routes))
  {
    var xs, ys := FlatMap(LbSlotter(w), lbs), FlatMap(RouteSlotter(w), routes);
    MirrorNamesDistinct(w, lbs, svcs, tenant);
    RouteNamesDistinct(w, routes, tenant);
    forall x <- xs, y <- ys ensures SlotName(x) != SlotName(y) {
      LbAndRouteSlotsApart(w, lbs, svcs, routes, tenant, x, y);
    }
    ConcatDistinct(SlotName, xs, ys);
  }

  lemma TenantAllBound(w: World, lbs: seq<LoadBalancer>, svcs: seq<Service>, routes: seq<Route>, tenant: string)
    requires Tenant(lbs, svcs, routes, tenant)
    ensures BoundSlots(Slots(w, lbs, routes)) == Slots(w, lbs, routes)
  {
    FlatMapConcat(OnlyBindable, FlatMap(LbSlotter(w), lbs), FlatMap(RouteSlotter(w), routes));
    MirrorsAllBound(w, lbs, svcs, tenant);
    RoutesAllBound(w, routes, tenant);
  }

  lemma TenantEntriesDistinct(w: World, lbs: seq<LoadBalancer>, svcs: seq<Service>, routes: seq<Route>, tenant: string)
    requires Tenant(lbs, svcs, routes, tenant)
    ensures DistinctBy(EntryOf, BoundSlots(Slots(w, lbs, routes)))
  {
    var xs, ys := FlatMap(LbSlotter(w), lbs), FlatMap(RouteSlotter(w), routes);
    MirrorEntriesDistinct(w, lbs, svcs, tenant);
    RouteEntriesDistinct(w, routes, tenant);
    forall x <- xs, y <- ys ensures EntryOf(x) != EntryOf(y) {
      LbAndRouteSlotsApart(w, lbs, svcs, routes, tenant, x, y);
    }
    ConcatDistinct(EntryOf, xs, ys);
    TenantAllBound(w, lbs, svcs, routes, tenant);
  }

  lemma TenantIsCompatible(lbs: seq<LoadBalancer>, svcs: seq<Service>, routes: seq<Route>, tenant: string)
    requires Tenant(lbs, svcs, routes, tenant)
    ensures Compatible(AllRequests(lbs, routes))
  {
    MirrorsAreCompatible(lbs, svcs, tenant);
    RoutesAreCompatible(routes, tenant);
    forall r <- FlatMap(LbRequests, lbs), q <- FlatMap(RouteRequests, routes) ensures r.ek != q.ek {
      var i := MirrorRequest(lbs, svcs, tenant, r);
      var j := RequestOfBackend(routes, q);
      var b := Backends(routes)[j];
      assert b in Backends(routes);
      KeysApart(tenant, svcs[i].uid, 0, b.svc.namespace, b.svc.name, OriginalRouteName(b.route));
    }
  }

  /** One allocation for a tenant's objects, from any duplicate-free table, leaves everything delivery needs. */
  lemma TenantSettles(w: World, t: Table, t': Table, lbs: seq<LoadBalancer>, svcs: seq<Service>, routes: seq<Route>,
                      tenant: string)
    requires Tenant(lbs, svcs, routes, tenant) && PortsDistinct(t) && AllocatedAll(t, AllRequests(lbs, routes), t')
    ensures Settled(w, t', lbs, routes)
  {
    TenantNamesDistinct(w, lbs, svcs, routes, tenant);
    TenantEntriesDistinct(w, lbs, svcs, routes, tenant);
    TenantIsCompatible(lbs, svcs, routes, tenant);
    BatchServesIff(t, AllRequests(lbs, routes), t');
    BatchKeepsInvariants(t, AllRequests(lbs, routes), t');
  }

  // ------------------------------------------------------------- delivery

  /** Reference: one upstream at `port` for every address the subsets stand for, in order. */
  ghost predicate Reaches(w: World, namespace: string, es: seq<Endpoints>, port: int, us: seq<Upstream>) {
    exists parts ::
      && |parts| == |es| && (forall i | 0 <= i < |es| :: Given(w, namespace, es[i], parts[i]))
      && Connects(us, Flatten(parts), port)
  }

  lemma ResolvedReaches(w: World, namespace: string, es: seq<Endpoints>, port: int)
    requires AllResolve(w, namespace, es)
    ensures Reaches(w, namespace, es, port, At(FlatMap(Resolver(w, namespace), es), port))
  {
    var parts := seq(|es|, i requires 0 <= i < |es| => Addresses(w, namespace, es[i]));
    FlatMapIsFlatten(Resolver(w, namespace), es, parts);
    forall i | 0 <= i < |es| ensures Given(w, namespace, es[i], parts[i]) { assert Resolves(w, namespace, es[i]); }
  }

  lemma MirrorReaches(w: World, lbs: seq<LoadBalancer>, routes: seq<Route>, lb: LoadBalancer, port: int)
    requires Resolvable(w, lbs, routes) && lb in lbs && |lb.endpoints| == 1
    ensures Reaches(w, lb.namespace, lb.endpoints, port, At(Addresses(w, lb.namespace, lb.endpoints[0]), port))
  {
    ResolvedReaches(w, lb.namespace, lb.endpoints, port);
    assert lb.endpoints == [lb.endpoints[0]];
    FlatMapOne(Resolver(w, lb.namespace), lb.endpoints[0]);
  }

  /** What a Service asks of the listener and cluster of one of its ports. */
  ghost predicate AsAsked(svc: Service, protocol: string, l: Listener, c: Cluster) {
    && !l.http && c.protocol == protocol
    && (l.hashed <==> svc.sourceIpAffinity) && (c.maglev <==> svc.sourceIpAffinity)
    && (c.proxyProtocol <==> protocol == "TCP" && Get(svc.annotations, "kubelb.k8c.io/proxy-protocol") == "v2")
  }

  /** No two ports of a Service share number and protocol. */
  ghost predicate NumbersDistinct(svc: Service) { DistinctBy(NumberOf, svc.ports) }

  const NumberOf: ServicePort -> (int, string) := (p: ServicePort) => (p.port, p.protocol)

  lemma MirrorIsPaired(lb: LoadBalancer, svc: Service, tenant: string)
    requires MirrorOf(lb, svc, tenant) && Admitted(svc)
    ensures Paired(lb) && MirrorsPorts(svc, lb) && lb.namespace == tenant
  {
    var addresses, reference :| lb.(status := []) == Mapped(svc, addresses, reference, tenant);
    MappedIsPaired(svc, addresses, reference, tenant);
    MappedMirrorsPorts(svc, addresses, reference, tenant);
  }

  lemma MirrorAsksLayer4(lb: LoadBalancer, svc: Service, tenant: string, protocol: string, l: Listener, c: Cluster)
    requires MirrorOf(lb, svc, tenant) && Layer4(lb, protocol, l, c)
    ensures AsAsked(svc, protocol, l, c)
  {
    var addresses, reference :| lb.(status := []) == Mapped(svc, addresses, reference, tenant);
    assert |LAST_APPLIED_CONFIG| != |ANNOTATION_PROXY_PROTOCOL|;
  }

  /** Port `j` of a Service appears among the generated ports, once if its number and protocol do. */
  lemma GeneratedForPort(lb: LoadBalancer, svc: Service, existing: seq<ServicePort>, t: Table, ports: seq<ServicePort>,
                         j: nat) returns (k: nat)
    requires MirrorsPorts(svc, lb) && Created(lb, existing, t, ports) && j < |svc.ports|
    ensures |ports| == |svc.ports| && k < |ports| && ports[k] == DesiredPort(lb, existing, t, j)
    ensures NumbersDistinct(svc) ==>
              forall m | 0 <= m < |ports| && NumberOf(ports[m]) == NumberOf(svc.ports[j]) :: m == k
  {
    var desired := DesiredPorts(lb, existing, t);
    assert |ports| == |multiset(ports)| == |multiset(desired)|;
    assert desired[j] in desired;
    PermutationMember(desired, ports, desired[j]);
    k :| 0 <= k < |ports| && ports[k] == desired[j];
    if NumbersDistinct(svc) {
      assert forall i | 0 <= i < |desired| :: NumberOf(desired[i]) == NumberOf(svc.ports[i]);
      DistinctPermutes(NumberOf, desired, ports);
    }
  }

  /**
   Port `j` of the `i`-th Service: exactly one port of the Service generated for it has its number and
   protocol, and what enters there reaches the node port, on every address of the tenant's nodes.
   */
  lemma MirroredServiceDelivered(w: World, t: Table, t': Table, lbs: seq<LoadBalancer>, svcs: seq<Service>,
                                 routes: seq<Route>, tenant: string, s: Resources, existing: seq<ServicePort>,
                                 ports: seq<ServicePort>, i: nat, j: nat)
    returns (k: nat, l: Listener, c: Cluster, us: seq<Upstream>)
    requires Tenant(lbs, svcs, routes, tenant) && PortsDistinct(t) && AllocatedAll(t, AllRequests(lbs, routes), t')
    requires SnapshotOf(w, t', Slots(w, lbs, routes), s) && Resolvable(w, lbs, routes)
    requires i < |svcs| && j < |svcs[i].ports| && Created(lbs[i], existing, t', ports)
    ensures |ports| == |svcs[i].ports| && k < |ports|
    ensures ports[k].port == svcs[i].ports[j].port && ports[k].protocol == svcs[i].ports[j].protocol
    ensures NumbersDistinct(svcs[i]) ==>
              forall m | 0 <= m < |ports| && NumberOf(ports[m]) == NumberOf(svcs[i].ports[j]) :: m == k
    ensures Delivers(w, s, ports[k].targetPort, ports[k].protocol, l, c, us)
    ensures Reaches(w, tenant, lbs[i].endpoints, svcs[i].ports[j].nodePort, us)
    ensures AsAsked(svcs[i], ports[k].protocol, l, c)
  {
    var lb, svc := lbs[i], svcs[i];
    MirrorIsPaired(lb, svc, tenant);
    assert svc.ports[j] in svc.ports;
    TenantSettles(w, t, t', lbs, svcs, routes, tenant);
    l, c := LoadBalancerDelivered(w, t', lbs, routes, s, lb, existing, j);
    us := At(Addresses(w, lb.namespace, lb.endpoints[0]), lb.endpoints[0].ports[j].port);
    MirrorReaches(w, lbs, routes, lb, svc.ports[j].nodePort);
    MirrorAsksLayer4(lb, svc, tenant, svc.ports[j].protocol, l, c);
    k := GeneratedForPort(lb, svc, existing, t', ports, j);
  }

  lemma BackendOfTenant(w: World, lbs: seq<LoadBalancer>, routes: seq<Route>, tenant: string, b: Backend)
    requires AdmittedRoutes(routes, tenant) && Resolvable(w, lbs, routes) && b in Backends(routes)
    ensures b.route in routes && b.route.source.Some? && b.svc in b.route.source.value.services
    ensures b.route.namespace == tenant && AllResolve(w, tenant, b.route.endpoints)
  {
    FlatMapMember(BackendsOf, routes, b);
    assert RouteResolves(w, b.route);
  }

  /**
   Port `j` of a backend: the Service generated for it has a port of that number and protocol, and what enters there
   reaches the backend's node port, on every address of the route.
   */
  lemma RoutedServiceDelivered(w: World, t: Table, t': Table, lbs: seq<LoadBalancer>, svcs: seq<Service>,
                               routes: seq<Route>, tenant: string, s: Resources, b: Backend, j: nat, kind: string,
                               g: Settings, generated: Service)
    returns (l: Listener, c: Cluster, us: seq<Upstream>)
    requires Tenant(lbs, svcs, routes, tenant) && PortsDistinct(t) && AllocatedAll(t, AllRequests(lbs, routes), t')
    requires SnapshotOf(w, t', Slots(w, lbs, routes), s) && Resolvable(w, lbs, routes)
    requires b in Backends(routes) && j < |b.svc.ports| && IsOfKind(b.route, kind)
    requires generated == Generated(g, b.svc, tenant, tenant, OriginalRouteName(b.route), t')
    ensures KeepsPorts(b.svc, generated)
    ensures Delivers(w, s, generated.ports[j].targetPort, generated.ports[j].protocol, l, c, us)
    ensures Reaches(w, tenant, b.route.endpoints, b.svc.ports[j].nodePort, us)
    ensures b.route.source.Some? && Layer7(b.route.source.value, kind, b.svc.ports[j].protocol, l, c)
  {
    var p := b.svc.ports[j];
    assert AdmittedBackend(b) && p in b.svc.ports;
    BackendOfTenant(w, lbs, routes, tenant, b);
    TenantSettles(w, t, t', lbs, svcs, routes, tenant);
    l, c := BackendDelivered(w, t', lbs, routes, s, b.route, b.svc, p, kind);
    us := At(RouteAddresses(w, b.route), p.nodePort);
    ResolvedReaches(w, b.route.namespace, b.route.endpoints, p.nodePort);
    GeneratedKeepsPorts(g, b.svc, tenant, tenant, OriginalRouteName(b.route), t');
  }

  // ------------------------------------------------------------- an example

  lemma MappedIsAMirror(svc: Service, addresses: seq<Address>, tenant: string)
    requires Admitted(svc)
    ensures Mirrors([Mapped(svc, addresses, None, tenant)], [svc], tenant)
  {
    var lb := Mapped(svc, addresses, None, tenant);
    assert lb.(status := []) == lb;
    assert MirrorOf(lb, svc, tenant);
  }

  function Web(): Service {
    Service("a", "web", "1", map[], map[], "LoadBalancer", "", false, map[],
            [ServicePort("http", 80, TCP, 8080, 30001)])
  }

  function WebRoute(): Route {
    Route("tenant-t", "r", map[], Some(RouteSource("r", "a", "HTTPRoute", false, [Web()])), [], map[])
  }

  /** What is asked of a tenant can be had: a Service, and a route to it. */
  lemma ATenant()
    ensures Tenant([Mapped(Web(), [], None, "tenant-t")], [Web()], [WebRoute()], "tenant-t")
  {
    assert TCP != UDP;
    MappedIsAMirror(Web(), [], "tenant-t");
    assert Backends([WebRoute()]) == [Backend(WebRoute(), Web())] by { FlatMapOne(BackendsOf, WebRoute()); }
    var x, y := "tenant-t" + "-", "tenant-" + "tenant-t" + "-";
    assert x[8] == '-' && y[8] == 'e';
  }
}
