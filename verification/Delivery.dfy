/**
 End to end: what enters a generated Service port reaches the node port it stands for,
 because the Service generator and the snapshot read one duplicate-free table.
 */
module Delivery {
  import opened Api
  import opened Envoy
  import opened Keys
  import opened Lists
  import opened LoadBalancers
  import opened PersistedPorts
  import opened PortRequests
  import opened PortTable
  import opened RouteServices
  import opened SnapshotProperties
  import opened Text

  /** The table entry a slot's listener is bound by. */
  const EntryOf: Slot -> (string, string) := (s: Slot) => (s.ek, s.pk)

  const OnlyBindable: Slot -> seq<Slot> := (s: Slot) => if Bindable(s) then [s] else []

  /** The slots that get a listener. */
  function BoundSlots(slots: seq<Slot>): seq<Slot> { FlatMap(OnlyBindable, slots) }

  /** A slot's port key is made from its protocol. */
  ghost predicate WellKeyed(s: Slot) {
    exists port :: s.pk == PortKey(port, s.protocol)
  }

  ghost predicate Ready(t: Table, slots: seq<Slot>) {
    PortsDistinct(t) && forall s <- slots :: WellKeyed(s) && (Bindable(s) ==> Has(t, s.ek, s.pk))
  }

  /** With allocated, distinct ports two slots share a socket exactly when they share a table entry. */
  lemma SocketsSeparateEntries(t: Table, x: Slot, y: Slot)
    requires Ready(t, [x, y]) && Bindable(x) && Bindable(y)
    ensures Socket(Listeners(t, x)[0]) == Socket(Listeners(t, y)[0]) <==> EntryOf(x) == EntryOf(y)
  {
    assert x in [x, y] && y in [x, y];
    var m :| x.pk == PortKey(m, x.protocol);
    var n :| y.pk == PortKey(n, y.protocol);
    if x.pk == y.pk { PortKeyInjective(m, x.protocol, n, y.protocol); }
  }

  lemma {:induction false} ListenersAreBoundSlots(t: Table, slots: seq<Slot>)
    ensures |FlatMap(Listening(t), slots)| == |BoundSlots(slots)|
    ensures forall i | 0 <= i < |BoundSlots(slots)| ::
              Bindable(BoundSlots(slots)[i]) && BoundSlots(slots)[i] in slots &&
              Listeners(t, BoundSlots(slots)[i]) == [FlatMap(Listening(t), slots)[i]]
  {
    if slots != [] {
      ListenersAreBoundSlots(t, slots[1..]);
    }
  }

  lemma SocketsDistinctIff(t: Table, slots: seq<Slot>)
    requires Ready(t, slots)
    ensures DistinctBy(Socket, FlatMap(Listening(t), slots)) <==> DistinctBy(EntryOf, BoundSlots(slots))
  {
    var ls, bs := FlatMap(Listening(t), slots), BoundSlots(slots);
    ListenersAreBoundSlots(t, slots);
    forall i, j | 0 <= i < j < |bs| ensures Socket(ls[i]) == Socket(ls[j]) <==> EntryOf(bs[i]) == EntryOf(bs[j]) {
      SocketsSeparateEntries(t, bs[i], bs[j]);
    }
  }

  /** With allocated, distinct ports a snapshot drops no listener exactly when no two slots share a table entry. */
  lemma NothingDroppedIff(w: World, t: Table, slots: seq<Slot>, s: Resources)
    requires SnapshotOf(w, t, slots, s) && Ready(t, slots)
    ensures multiset(s.listeners) == multiset(FlatMap(Listening(t), slots)) <==> DistinctBy(EntryOf, BoundSlots(slots))
  {
    var all := FlatMap(Listening(t), slots);
    var ls :| SortedPermutation(ListenerName, all, ls) && s.listeners == Dedup(ls);
    SocketsDistinctIff(t, slots);
    DedupIdentityIff(ls);
    if DistinctBy(EntryOf, BoundSlots(slots)) {
      DistinctPermutes(Socket, all, ls);
    }
    if multiset(s.listeners) == multiset(all) {
      DedupFromDistinct(ls, {});
      DistinctPermutes(Socket, s.listeners, all);
    }
  }

  /** Reference: the object a route was made from, by its source, else by its labels, else by its own name. */
  ghost predicate MadeFrom(route: Route, namespace: string, name: string) {
    && (if route.source.Some? && route.source.value.name != "" then name == route.source.value.name
        else if Get(route.labels, "kubelb.k8c.io/origin-name") != ""
          then name == Get(route.labels, "kubelb.k8c.io/origin-name")
        else name == route.name)
    && (if route.source.Some? && route.source.value.namespace != "" then namespace == route.source.value.namespace
        else namespace == Get(route.labels, "kubelb.k8c.io/origin-ns"))
  }

  /**
   Routes of one name that share a backend share its table entry; their resource names agree
   exactly when they also share the origin namespace.
   */
  lemma SameNamedRoutesShareAnEntry(r: Route, r': Route, svc: Service, a: seq<Address>, a': seq<Address>,
                                    p: ServicePort, ns: string, ns': string, name: string)
    requires r.namespace == r'.namespace && MadeFrom(r, ns, name) && MadeFrom(r', ns', name)
    ensures EntryOf(RouteSlot(r, svc, a, p)) == EntryOf(RouteSlot(r', svc, a', p))
    ensures SlotName(RouteSlot(r, svc, a, p)) == SlotName(RouteSlot(r', svc, a', p)) <==> ns == ns'
  {
    if OriginalRouteNamespace(r) != OriginalRouteNamespace(r') {
      RouteKeysDisagree(r.namespace, svc.namespace, svc.name, OriginalRouteNamespace(r), OriginalRouteNamespace(r'),
                        OriginalRouteName(r), p.port, p.protocol);
    }
  }

  /** So from two origin namespaces at most one of their listeners for a port is in a snapshot; the other is dropped. */
  lemma SameNamedRoutesDropAListener(w: World, t: Table, slots: seq<Slot>, s: Resources,
                                     r: Route, r': Route, svc: Service, a: seq<Address>, a': seq<Address>,
                                     p: ServicePort, ns: string, ns': string, name: string)
    requires SnapshotOf(w, t, slots, s)
    requires r.namespace == r'.namespace && MadeFrom(r, ns, name) && MadeFrom(r', ns', name) && ns != ns'
    requires p.protocol == TCP || p.protocol == UDP
    requires RouteSlot(r, svc, a, p) in slots && RouteSlot(r', svc, a', p) in slots
    ensures var l, l' := Listeners(t, RouteSlot(r, svc, a, p))[0], Listeners(t, RouteSlot(r', svc, a', p))[0];
            && l in FlatMap(Listening(t), slots) && l' in FlatMap(Listening(t), slots)
            && (l !in s.listeners || l' !in s.listeners)
    ensures Ready(t, slots) ==> !DistinctBy(EntryOf, BoundSlots(slots))
  {
    var x, y := RouteSlot(r, svc, a, p), RouteSlot(r', svc, a', p);
    var l, l' := Listeners(t, x)[0], Listeners(t, y)[0];
    SameNamedRoutesShareAnEntry(r, r', svc, a, a', p, ns, ns', name);
    assert l in Listening(t)(x) && l' in Listening(t)(y);
    FlatMapMember(Listening(t), slots, l);
    FlatMapMember(Listening(t), slots, l');
    SocketsAreBoundOnce(w, t, slots, s);
    assert l.name != l'.name && Socket(l) == Socket(l');
    if Ready(t, slots) {
      NothingDroppedIff(w, t, slots, s);
      var dropped := if l in s.listeners then l' else l;
      assert dropped in multiset(FlatMap(Listening(t), slots)) && dropped !in multiset(s.listeners);
    }
  }

  // ------------------------------------------------------------- Services and listeners

  /** Layer 4: allocated or not, the target port of a generated Service port is where the listener of that port is. */
  lemma LoadBalancerTargetsListener(lb: LoadBalancer, existing: seq<ServicePort>, t: Table, a: seq<Address>, i: nat)
    requires Paired(lb) && i < |lb.ports| && (lb.ports[i].protocol == TCP || lb.ports[i].protocol == UDP)
    ensures DesiredPort(lb, existing, t, i).targetPort
            == Listeners(t, LbSlot(lb, 0, a, lb.endpoints[0].ports[i]))[0].port
  {
    PairedUpstream(lb, i);
  }

  /**
   Layer 7: without an allocation the listener falls back to the service port, the generated Service to the
   node port, so they meet exactly when the port is allocated or the two coincide.
   */
  lemma ServiceTargetsListenerIff(route: Route, svc: Service, a: seq<Address>, p: ServicePort, t: Table)
    requires p.protocol == TCP || p.protocol == UDP
    ensures var ek := SvcEndpointKey(route, svc);
            GeneratedPort(p, t, ek).targetPort == Listeners(t, RouteSlot(route, svc, a, p))[0].port
            <==> Has(t, ek, ServicePortKey(p)) || p.port == p.nodePort
  {}

  // ------------------------------------------------------------- delivery

  /** The one assignment behind cluster `c`: inlined for DNS clusters, by name otherwise. */
  ghost predicate LeadsTo(s: Resources, c: Cluster, us: seq<Upstream>) {
    if c.discovery == EDS
    then Assignment(c.name, us) in s.endpoints && forall a <- s.endpoints | a.cluster == c.name :: a.upstreams == us
    else c.inlined == Some(Assignment(c.name, us))
  }

  /**
   Only listener `l` is bound to the socket, its cluster `c` is unambiguous and leads to exactly `us`, by endpoint
   discovery if and only if all of them are IP addresses.
   */
  ghost predicate Delivers(w: World, s: Resources, port: int, protocol: string, l: Listener, c: Cluster,
                           us: seq<Upstream>) {
    && l in s.listeners && l.port == port && l.protocol == protocol
    && (forall k <- s.listeners | k.port == port && k.protocol == protocol :: k == l)
    && c in s.clusters && c.name == l.cluster
    && (forall d <- s.clusters | d.name == l.cluster :: d == c)
    && LeadsTo(s, c, us)
    && (c.discovery == EDS <==> forall u <- us :: u.address != "" && w.isIp(u.address))
  }

  lemma ListenerKept(w: World, t: Table, slots: seq<Slot>, s: Resources, x: Slot)
    requires SnapshotOf(w, t, slots, s) && Ready(t, slots) && DistinctBy(EntryOf, BoundSlots(slots))
    requires x in slots && Bindable(x)
    ensures Listeners(t, x)[0] in s.listeners
    ensures forall k <- s.listeners | k.port == t[x.ek][x.pk] && k.protocol == x.protocol :: k == Listeners(t, x)[0]
  {
    var l := Listeners(t, x)[0];
    assert l in Listening(t)(x);
    FlatMapMember(Listening(t), slots, l);
    NothingDroppedIff(w, t, slots, s);
    PermutationMember(FlatMap(Listening(t), slots), s.listeners, l);
    SocketsAreBoundOnce(w, t, slots, s);
    assert forall k <- s.listeners | k.port == l.port && k.protocol == l.protocol :: Socket(k) == Socket(l);
  }

  lemma DiscoveryByAddress(w: World, x: Slot)
    ensures ClusterOf(w, x).discovery == EDS <==> forall u <- Upstreams(x) :: u.address != "" && w.isIp(u.address)
  {
    var us := Upstreams(x);
    if forall u <- us :: u.address != "" && w.isIp(u.address) {
      forall i | 0 <= i < |x.addresses| ensures IsIpLiteral(w, x.addresses[i]) { assert us[i] in us; }
    }
    if ClusterOf(w, x).discovery == EDS {
      forall i | 0 <= i < |us| ensures us[i].address != "" && w.isIp(us[i].address) {
        assert x.addresses[i] in x.addresses;
      }
    }
  }

  lemma ClusterLeads(w: World, t: Table, slots: seq<Slot>, s: Resources, x: Slot)
    requires SnapshotOf(w, t, slots, s) && DistinctBy(SlotName, slots) && x in slots
    ensures ClusterOf(w, x) in s.clusters
    ensures forall d <- s.clusters | d.name == x.name :: d == ClusterOf(w, x)
    ensures LeadsTo(s, ClusterOf(w, x), Upstreams(x))
  {
    var c := ClusterOf(w, x);
    ClusterFrom(w, t, slots, s, c);
    SnapshotNamesDistinct(w, t, slots, s);
    if c.discovery == EDS {
      var a := Assignment(x.name, Upstreams(x));
      assert a in Assigned(w, x);
      AssignmentFrom(w, t, slots, s, a);
    }
  }

  /** Every slot with a listener is delivered to its own upstreams. */
  lemma SlotDelivered(w: World, t: Table, slots: seq<Slot>, s: Resources, x: Slot)
    requires SnapshotOf(w, t, slots, s) && Ready(t, slots)
    requires DistinctBy(SlotName, slots) && DistinctBy(EntryOf, BoundSlots(slots))
    requires x in slots && Bindable(x)
    ensures Delivers(w, s, t[x.ek][x.pk], x.protocol, Listeners(t, x)[0], ClusterOf(w, x), Upstreams(x))
  {
    ListenerKept(w, t, slots, s, x);
    ClusterLeads(w, t, slots, s, x);
    DiscoveryByAddress(w, x);
  }

  // ------------------------------------------------------------- where slots come from

  lemma LbSlotFrom(w: World, lb: LoadBalancer, s: Slot) returns (i: nat, p: EndpointPort)
    requires s in LbSlots(w, lb)
    ensures i < |lb.endpoints| && p in lb.endpoints[i].ports
    ensures s == LbSlot(lb, i, Addresses(w, lb.namespace, lb.endpoints[i]), p)
  {
    GatherMember(EndpointSlotter(w, lb), |lb.endpoints|, s);
    i :| 0 <= i < |lb.endpoints| && s in EndpointSlotter(w, lb)(i);
    var f := LbPortSlotter(lb, i, Addresses(w, lb.namespace, lb.endpoints[i]));
    FlatMapMember(f, lb.endpoints[i].ports, s);
    p :| p in lb.endpoints[i].ports && s in f(p);
  }

  lemma LbSlotIn(w: World, lbs: seq<LoadBalancer>, routes: seq<Route>, lb: LoadBalancer, i: nat, p: EndpointPort)
    requires lb in lbs && i < |lb.endpoints| && p in lb.endpoints[i].ports
    ensures LbSlot(lb, i, Addresses(w, lb.namespace, lb.endpoints[i]), p) in Slots(w, lbs, routes)
  {
    var s := LbSlot(lb, i, Addresses(w, lb.namespace, lb.endpoints[i]), p);
    var f := LbPortSlotter(lb, i, Addresses(w, lb.namespace, lb.endpoints[i]));
    assert s in f(p);
    FlatMapMember(f, lb.endpoints[i].ports, s);
    assert s in EndpointSlotter(w, lb)(i);
    GatherMember(EndpointSlotter(w, lb), |lb.endpoints|, s);
    assert s in LbSlotter(w)(lb);
    FlatMapMember(LbSlotter(w), lbs, s);
  }

  lemma RouteSlotFrom(w: World, route: Route, s: Slot) returns (svc: Service, p: ServicePort)
    requires s in RouteSlotter(w)(route)
    ensures route.source.Some? && svc in route.source.value.services && p in svc.ports
    ensures s == RouteSlot(route, svc, RouteAddresses(w, route), p)
  {
    var f := ServiceSlotter(route, RouteAddresses(w, route));
    FlatMapMember(f, route.source.value.services, s);
    svc :| svc in route.source.value.services && s in f(svc);
    var g := RoutePortSlotter(route, svc, RouteAddresses(w, route));
    FlatMapMember(g, svc.ports, s);
    p :| p in svc.ports && s in g(p);
  }

  lemma RouteSlotIn(w: World, lbs: seq<LoadBalancer>, routes: seq<Route>, route: Route, svc: Service, p: ServicePort)
    requires route in routes && route.source.Some? && svc in route.source.value.services && p in svc.ports
    ensures RouteSlot(route, svc, RouteAddresses(w, route), p) in Slots(w, lbs, routes)
  {
    var s := RouteSlot(route, svc, RouteAddresses(w, route), p);
    var f, g := ServiceSlotter(route, RouteAddresses(w, route)), RoutePortSlotter(route, svc, RouteAddresses(w, route));
    assert s in g(p);
    FlatMapMember(g, svc.ports, s);
    assert s in f(svc);
    FlatMapMember(f, route.source.value.services, s);
    assert s in RouteSlotter(w)(route);
    FlatMapMember(RouteSlotter(w), routes, s);
  }

  // ------------------------------------------------------------- served requests make slots ready

  lemma LbSlotServed(w: World, t: Table, lbs: seq<LoadBalancer>, routes: seq<Route>, lb: LoadBalancer, s: Slot)
    requires Served(t, AllRequests(lbs, routes)) && lb in lbs && s in LbSlotter(w)(lb)
    ensures WellKeyed(s) && Has(t, s.ek, s.pk)
  {
    var i, p := LbSlotFrom(w, lb, s);
    var r := EndpointRequest(lb, i);
    assert r in EndpointRequester(lb)(i);
    GatherMember(EndpointRequester(lb), |lb.endpoints|, r);
    FlatMapMember(LbRequests, lbs, r);
    assert r in AllRequests(lbs, routes);
    var j :| 0 <= j < |lb.endpoints[i].ports| && lb.endpoints[i].ports[j] == p;
    assert r.keys[j] == s.pk;
    assert s.pk in Elems(r.keys);
  }

  lemma RouteSlotServed(w: World, t: Table, lbs: seq<LoadBalancer>, routes: seq<Route>, route: Route, s: Slot)
    requires Served(t, AllRequests(lbs, routes)) && route in routes && s in RouteSlotter(w)(route)
    ensures WellKeyed(s) && Has(t, s.ek, s.pk)
  {
    var svc, p := RouteSlotFrom(w, route, s);
    var r := ServiceRequest(route, svc);
    assert r in ServiceRequester(route)(svc);
    FlatMapMember(ServiceRequester(route), route.source.value.services, r);
    FlatMapMember(RouteRequests, routes, r);
    assert r in AllRequests(lbs, routes);
    var j :| 0 <= j < |svc.ports| && svc.ports[j] == p;
    assert r.keys[j] == s.pk;
    assert s.pk in Elems(r.keys);
  }

  lemma LbSlotAsked(w: World, lbs: seq<LoadBalancer>, lb: LoadBalancer, s: Slot) returns (r: Request)
    requires lb in lbs && s in LbSlots(w, lb)
    ensures r in FlatMap(LbRequests, lbs) && r.ek == s.ek
  {
    var i, p := LbSlotFrom(w, lb, s);
    r := EndpointRequest(lb, i);
    assert r in EndpointRequester(lb)(i);
    GatherMember(EndpointRequester(lb), |lb.endpoints|, r);
    FlatMapMember(LbRequests, lbs, r);
  }

  lemma RouteSlotAsked(w: World, routes: seq<Route>, route: Route, s: Slot) returns (r: Request)
    requires route in routes && s in RouteSlotter(w)(route)
    ensures r in FlatMap(RouteRequests, routes) && r.ek == s.ek
  {
    var svc, p := RouteSlotFrom(w, route, s);
    r := ServiceRequest(route, svc);
    assert r in ServiceRequester(route)(svc);
    FlatMapMember(ServiceRequester(route), route.source.value.services, r);
    FlatMapMember(RouteRequests, routes, r);
  }

  /** Every slot looks its port up under an endpoint key that is asked for. */
  lemma SlotIsAskedFor(w: World, lbs: seq<LoadBalancer>, routes: seq<Route>, s: Slot) returns (r: Request)
    requires s in Slots(w, lbs, routes)
    ensures r in AllRequests(lbs, routes) && r.ek == s.ek
  {
    if s in FlatMap(LbSlotter(w), lbs) {
      var n := FlatMapIndex(LbSlotter(w), lbs, s);
      r := LbSlotAsked(w, lbs, lbs[n], s);
    } else {
      var n := FlatMapIndex(RouteSlotter(w), routes, s);
      r := RouteSlotAsked(w, routes, routes[n], s);
    }
  }

  lemma ServedSlotsAreReady(w: World, t: Table, lbs: seq<LoadBalancer>, routes: seq<Route>)
    requires PortsDistinct(t) && Served(t, AllRequests(lbs, routes))
    ensures Ready(t, Slots(w, lbs, routes))
  {
    forall s <- Slots(w, lbs, routes) ensures WellKeyed(s) && Has(t, s.ek, s.pk) {
      FlatMapMember(LbSlotter(w), lbs, s);
      FlatMapMember(RouteSlotter(w), routes, s);
      if lb :| lb in lbs && s in LbSlotter(w)(lb) {
        LbSlotServed(w, t, lbs, routes, lb, s);
      } else {
        var route :| route in routes && s in RouteSlotter(w)(route);
        RouteSlotServed(w, t, lbs, routes, route, s);
      }
    }
  }

  /** All requests served from a duplicate-free table, no two slots sharing a name or an entry. */
  ghost predicate Settled(w: World, t: Table, lbs: seq<LoadBalancer>, routes: seq<Route>) {
    && PortsDistinct(t) && Served(t, AllRequests(lbs, routes))
    && DistinctBy(SlotName, Slots(w, lbs, routes))
    && DistinctBy(EntryOf, BoundSlots(Slots(w, lbs, routes)))
  }

  /** What the load balancer asks of the listener and cluster of one of its ports. */
  ghost predicate Layer4(lb: LoadBalancer, protocol: string, l: Listener, c: Cluster) {
    && !l.http && c.routeKind == "" && c.protocol == protocol
    && (l.hashed <==> lb.sourceIpPersistence) && (c.maglev <==> lb.sourceIpPersistence)
    && (c.proxyProtocol <==> protocol == "TCP" && Get(lb.annotations, "kubelb.k8c.io/proxy-protocol") == "v2")
  }

  lemma LbSlotAsks(t: Table, w: World, lb: LoadBalancer, a: seq<Address>, p: EndpointPort)
    requires p.protocol == TCP || p.protocol == UDP
    ensures Layer4(lb, p.protocol, Listeners(t, LbSlot(lb, 0, a, p))[0], ClusterOf(w, LbSlot(lb, 0, a, p)))
  {}

  /** Layer 4: the target port of each generated Service port leads to that port's own node port, on every address. */
  lemma LoadBalancerDelivered(w: World, t: Table, lbs: seq<LoadBalancer>, routes: seq<Route>, s: Resources,
                              lb: LoadBalancer, existing: seq<ServicePort>, i: nat) returns (l: Listener, c: Cluster)
    requires Settled(w, t, lbs, routes) && SnapshotOf(w, t, Slots(w, lbs, routes), s)
    requires lb in lbs && Paired(lb) && i < |lb.ports| && (lb.ports[i].protocol == TCP || lb.ports[i].protocol == UDP)
    ensures Delivers(w, s, DesiredPort(lb, existing, t, i).targetPort, lb.ports[i].protocol, l, c,
                     At(Addresses(w, lb.namespace, lb.endpoints[0]), lb.endpoints[0].ports[i].port))
    ensures Layer4(lb, lb.ports[i].protocol, l, c)
  {
    var p := lb.endpoints[0].ports[i];
    var x := LbSlot(lb, 0, Addresses(w, lb.namespace, lb.endpoints[0]), p);
    LbSlotIn(w, lbs, routes, lb, 0, p);
    ServedSlotsAreReady(w, t, lbs, routes);
    SlotDelivered(w, t, Slots(w, lbs, routes), s, x);
    PairedUpstream(lb, i);
    LbSlotAsks(t, w, lb, x.addresses, p);
    l, c := Listeners(t, x)[0], ClusterOf(w, x);
  }

  /** The kind of the object a route was made from, or else the one its label names. */
  ghost predicate IsOfKind(route: Route, kind: string) {
    if route.source.Some? && route.source.value.kind != "" then kind == route.source.value.kind
    else kind == Get(route.labels, "kubelb.k8c.io/origin-resource-kind")
  }

  /** HTTP is terminated for HTTP kinds, but not for an Ingress that wants TLS to reach its backend. */
  ghost predicate TerminatesHttp(source: RouteSource, kind: string) {
    kind == "HTTPRoute" || kind == "GRPCRoute" || (kind == "Ingress" && !source.tlsBackend)
  }

  /** What a route of this kind asks of the listener and cluster of a backend's port. */
  ghost predicate Layer7(source: RouteSource, kind: string, protocol: string, l: Listener, c: Cluster) {
    && (l.http <==> protocol == "TCP" && TerminatesHttp(source, kind))
    && c.routeKind == (if TerminatesHttp(source, kind) then kind else "") && c.protocol == protocol
    && !l.hashed && !c.maglev && !c.proxyProtocol
  }

  lemma RouteSlotAsks(t: Table, w: World, route: Route, svc: Service, a: seq<Address>, p: ServicePort, kind: string)
    requires route.source.Some? && (p.protocol == TCP || p.protocol == UDP) && IsOfKind(route, kind)
    ensures Layer7(route.source.value, kind, p.protocol, Listeners(t, RouteSlot(route, svc, a, p))[0],
                   ClusterOf(w, RouteSlot(route, svc, a, p)))
  {}

  /** Layer 7: the target port of each generated backend port leads to that backend's node port. */
  lemma BackendDelivered(w: World, t: Table, lbs: seq<LoadBalancer>, routes: seq<Route>, s: Resources,
                         route: Route, svc: Service, p: ServicePort, kind: string) returns (l: Listener, c: Cluster)
    requires Settled(w, t, lbs, routes) && SnapshotOf(w, t, Slots(w, lbs, routes), s)
    requires route in routes && route.source.Some? && svc in route.source.value.services && p in svc.ports
    requires (p.protocol == TCP || p.protocol == UDP) && IsOfKind(route, kind)
    ensures Delivers(w, s, GeneratedPort(p, t, SvcEndpointKey(route, svc)).targetPort, p.protocol, l, c,
                     At(RouteAddresses(w, route), p.nodePort))
    ensures Layer7(route.source.value, kind, p.protocol, l, c)
  {
    var x := RouteSlot(route, svc, RouteAddresses(w, route), p);
    RouteSlotIn(w, lbs, routes, route, svc, p);
    ServedSlotsAreReady(w, t, lbs, routes);
    SlotDelivered(w, t, Slots(w, lbs, routes), s, x);
    RouteSlotAsks(t, w, route, svc, x.addresses, p, kind);
    l, c := Listeners(t, x)[0], ClusterOf(w, x);
  }
}
