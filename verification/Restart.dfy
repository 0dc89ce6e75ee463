/** Restarting the manager: the statuses recorded against a table describe that table again. */
module Restart {
  import opened Api
  import opened Keys
  import opened Lists
  import opened LoadBalancers
  import opened PersistedPorts
  import opened PortRequests
  import opened PortTable
  import opened RouteServices

  // ------------------------------------------------------------- layer 4

  ghost predicate RecordedAs(lb: LoadBalancer, existing: seq<ServicePort>, ports: seq<ServicePort>, t: Table)
    requires Paired(lb)
  {
    && multiset(ports) == multiset(DesiredPorts(lb, existing, t))
    && |lb.status| == |ports|
    && forall i | 0 <= i < |ports| :: lb.status[i] == StatusOf(ports[i], lb.endpoints[0].ports)
  }

  /** The status of `lb` was built from Service ports created from `t`, in whatever order. */
  ghost predicate Recorded(lb: LoadBalancer, t: Table) {
    Paired(lb) && exists existing, ports :: RecordedAs(lb, existing, ports, t)
  }

  function EpKey(lb: LoadBalancer): string { LbEndpointKey(lb.namespace, lb.name, 0) }

  /** A recorded status port is the status of some front port. */
  lemma StatusPortFrom(lb: LoadBalancer, existing: seq<ServicePort>, ports: seq<ServicePort>, t: Table, s: StatusPort)
    returns (j: nat)
    requires Paired(lb) && RecordedAs(lb, existing, ports, t) && s in lb.status
    ensures j < |lb.ports| && s.port == DesiredPort(lb, existing, t, j)
  {
    var k :| 0 <= k < |lb.status| && lb.status[k] == s;
    assert ports[k] in multiset(ports);
    assert ports[k] in DesiredPorts(lb, existing, t);
    j :| 0 <= j < |lb.ports| && DesiredPorts(lb, existing, t)[j] == ports[k];
  }

  lemma UpstreamOfOwn(lb: LoadBalancer, i: nat)
    requires Paired(lb) && i < |lb.ports|
    ensures UpstreamOf(lb.endpoints[0].ports, lb.ports[i].name, lb.ports[i].protocol) == lb.endpoints[0].ports[i].port
  {
    FirstUpstream(lb.endpoints[0].ports, i);
  }

  lemma {:induction false} FirstUpstream(ports: seq<EndpointPort>, i: nat)
    requires i < |ports| && forall k, l | 0 <= k < l < |ports| :: ports[k].name != ports[l].name
    ensures UpstreamOf(ports, ports[i].name, ports[i].protocol) == ports[i].port
  {
    if i > 0 { FirstUpstream(ports[1..], i - 1); }
  }

  /** Port `i` has a status port, and every status port that matches it carries its allocated port. */
  lemma StatusOfPort(lb: LoadBalancer, existing: seq<ServicePort>, ports: seq<ServicePort>, t: Table, i: nat)
    requires Paired(lb) && RecordedAs(lb, existing, ports, t) && i < |lb.ports|
    ensures var p := lb.endpoints[0].ports[i];
            var port := LookupOr(t, EpKey(lb), PortKey(p.port, p.protocol), p.port);
            PersistedPort(lb.status, p) == Some(port)
  {
    var p := lb.endpoints[0].ports[i];
    PairedUpstream(lb, i);
    UpstreamOfOwn(lb, i);
    var d := DesiredPort(lb, existing, t, i);
    assert d == DesiredPorts(lb, existing, t)[i];
    assert d in multiset(ports);
    var k :| 0 <= k < |ports| && ports[k] == d;
    assert StatusMatches(lb.status[k], p) && lb.status[k] in lb.status;
    var r := PersistedPort(lb.status, p);
    var s :| s in lb.status && StatusMatches(s, p) && r.value == s.port.targetPort;
    var j := StatusPortFrom(lb, existing, ports, t, s);
    assert lb.ports[j].name == lb.ports[i].name;
  }

  // ------------------------------------------------------------- layer 7

  /** The Route's status was recorded from `t`, and its backends carry no foreign origin namespace. */
  ghost predicate RouteRecorded(route: Route, t: Table) {
    route.source.Some? ==>
      && Records(route.serviceStatus, route, route.source.value.services, t)
      && forall svc <- route.source.value.services :: OriginNamespace(svc) == svc.namespace
  }

  // ------------------------------------------------------------- one request at a time

  /** The writes restore exactly what the request had been given in `t`. */
  ghost predicate Restores(ws: seq<Write>, r: Request, t: Table) {
    && Agrees(ws, t)
    && (forall w <- ws :: w.ek == r.ek)
    && Touch(r.ek) in ws
    && (forall pk <- r.keys :: Has(t, r.ek, pk) && Put(r.ek, pk, t[r.ek][pk]) in ws)
  }

  /** The write that restores the `i`-th key of a request. */
  function Restoring(r: Request, t: Table, i: nat): Write
    requires i < |r.keys| && Has(t, r.ek, r.keys[i])
  {
    Put(r.ek, r.keys[i], t[r.ek][r.keys[i]])
  }

  lemma RestoringAll(r: Request, t: Table, ys: seq<Write>)
    requires Granted(t, r) && |ys| == |r.keys| && forall i | 0 <= i < |ys| :: ys[i] == Restoring(r, t, i)
    ensures Restores([Touch(r.ek)] + ys, r, t)
  {
    assert forall w <- ys :: w.Put? && w.ek == r.ek && Has(t, r.ek, w.pk) && t[r.ek][w.pk] == w.port;
    forall pk <- r.keys ensures Has(t, r.ek, pk) && Put(r.ek, pk, t[r.ek][pk]) in ys {
      var i :| 0 <= i < |r.keys| && r.keys[i] == pk;
      assert ys[i] == Put(r.ek, pk, t[r.ek][pk]);
    }
  }

  /** A loop that restores one key per round restores the request. */
  lemma LoopRestores<T>(f: T -> seq<Write>, xs: seq<T>, r: Request, t: Table)
    requires Granted(t, r) && |xs| == |r.keys|
    requires forall i | 0 <= i < |xs| :: f(xs[i]) == [Restoring(r, t, i)]
    ensures Restores([Touch(r.ek)] + FlatMap(f, xs), r, t)
  {
    var ys := seq(|r.keys|, i requires 0 <= i < |r.keys| => Restoring(r, t, i));
    FlatMapSingletons(f, xs, ys);
    RestoringAll(r, t, ys);
  }

  lemma EndpointRestores(lb: LoadBalancer, t: Table)
    requires Recorded(lb, t) && Granted(t, EndpointRequest(lb, 0))
    ensures Restores(EndpointWrites(lb, 0), EndpointRequest(lb, 0), t)
  {
    var existing, ports :| RecordedAs(lb, existing, ports, t);
    var r, eps := EndpointRequest(lb, 0), lb.endpoints[0].ports;
    var f := PortWriter(r.ek, lb.status);
    forall i | 0 <= i < |eps| ensures f(eps[i]) == [Restoring(r, t, i)] {
      StatusOfPort(lb, existing, ports, t, i);
    }
    LoopRestores(f, eps, r, t);
  }

  /** A backend that is looked up where it was recorded gets its ports back. */
  lemma ServiceRestores(route: Route, svc: Service, t: Table)
    requires Granted(t, ServiceRequest(route, svc)) && OriginNamespace(svc) == svc.namespace
    requires RecordKey(svc) in route.serviceStatus
    requires route.serviceStatus[RecordKey(svc)] == GeneratedPorts(svc, t, SvcEndpointKey(route, svc))
    ensures Restores(ServiceWrites(route, svc), ServiceRequest(route, svc), t)
  {
    var r := ServiceRequest(route, svc);
    ReloadKeyMatchesIff(svc);
    var f, ports := ServicePortWriter(r.ek), GeneratedPorts(svc, t, r.ek);
    forall i | 0 <= i < |ports| ensures f(ports[i]) == [Restoring(r, t, i)] {
      assert ports[i] == GeneratedPort(svc.ports[i], t, r.ek);
    }
    LoopRestores(f, ports, r, t);
  }

  /** The backend `other` was recorded where `svc` is looked up. */
  ghost predicate RecordInTheWay(route: Route, svc: Service, other: Service, t: Table) {
    && LookupKey(svc) in route.serviceStatus && Granted(t, ServiceRequest(route, other))
    && route.serviceStatus[LookupKey(svc)] == GeneratedPorts(other, t, SvcEndpointKey(route, other))
    && SvcEndpointKey(route, other) != SvcEndpointKey(route, svc)
  }

  /** Then a reload gives `svc` the ports of `other`, and healing has to take them from one of the two. */
  lemma BackendIsGivenAnothersPorts(route: Route, svc: Service, other: Service, t: Table, k: nat)
    requires RecordInTheWay(route, svc, other, t) && k < |other.ports|
    ensures var ek, pk := SvcEndpointKey(route, other), ServicePortKey(other.ports[k]);
            Has(t, ek, pk) && Put(SvcEndpointKey(route, svc), pk, t[ek][pk]) in ServiceWrites(route, svc)
  {
    var ek, pk, ports := SvcEndpointKey(route, svc), ServicePortKey(other.ports[k]),
      route.serviceStatus[LookupKey(svc)];
    GeneratedAt(route, other, t, k);
    var w := Put(ek, pk, t[SvcEndpointKey(route, other)][pk]);
    assert ServicePortWriter(ek)(ports[k]) == [w];
    FlatMapMember(ServicePortWriter(ek), ports, w);
  }

  /**
   A backend's ports come back exactly when its namespaces agree. Otherwise nothing is recorded where
   it is looked up, or another backend's record is.
   */
  lemma BackendRestoredIff(route: Route, svc: Service, other: Service, t: Table)
    requires EndpointsDisjoint(t) && Granted(t, ServiceRequest(route, svc)) && svc.ports != []
    requires RecordKey(svc) in route.serviceStatus
    requires route.serviceStatus[RecordKey(svc)] == GeneratedPorts(svc, t, SvcEndpointKey(route, svc))
    requires LookupKey(svc) in route.serviceStatus && LookupKey(svc) != RecordKey(svc)
             ==> RecordInTheWay(route, svc, other, t)
    ensures Restores(ServiceWrites(route, svc), ServiceRequest(route, svc), t)
            <==> OriginNamespace(svc) == svc.namespace
  {
    var r := ServiceRequest(route, svc);
    ReloadKeyMatchesIff(svc);
    if OriginNamespace(svc) == svc.namespace {
      ServiceRestores(route, svc, t);
    } else if LookupKey(svc) in route.serviceStatus && other.ports != [] {
      BackendIsGivenAnothersPorts(route, svc, other, t, 0);
    } else {
      assert ServiceWrites(route, svc) == [Touch(r.ek)];
      assert r.keys[0] in r.keys;
    }
  }

  /** Such a backend: allocated, generated, recorded, and lost on reload. */
  lemma CopiedBackendIsForgotten() returns (route: Route, t: Table)
    ensures route.source.Some? && route.source.value.services == [CopiedBackend()]
    ensures EndpointsDisjoint(t) && Granted(t, ServiceRequest(route, CopiedBackend()))
    ensures Records(route.serviceStatus, route, route.source.value.services, t)
    ensures !Restores(ServiceWrites(route, CopiedBackend()), ServiceRequest(route, CopiedBackend()), t)
  {
    var svc := CopiedBackend();
    var source := RouteSource("r", "b", "HTTPRoute", false, [svc]);
    var r := Route("tenant-t", "r", map[], Some(source), [], map[]);
    var q := ServiceRequest(r, svc);
    t := map[q.ek := map[q.keys[0] := START_PORT]];
    route := r.(serviceStatus := map[RecordKey(svc) := GeneratedPorts(svc, t, q.ek)]);
    assert ServiceRequest(route, svc) == q && SvcEndpointKey(route, svc) == q.ek;
    CopyIsFiledUnderItsOrigin();
    ReloadKeyMatchesIff(svc);
    BackendRestoredIff(route, svc, svc, t);
  }

  /** What `manageServices` leaves from `t` is recorded, for backends of one record key that agree. */
  lemma ManagedIsRecorded(route: Route, t: Table)
    requires route.source.Some? ==> RecordsAgree(route, route.source.value.services, t)
    requires route.source.Some? ==> forall svc <- route.source.value.services :: OriginNamespace(svc) == svc.namespace
    ensures RouteRecorded(route.(serviceStatus := Managed(route, t)), t)
  {
    if route.source.Some? {
      var svcs := route.source.value.services;
      var kept := route.serviceStatus - (route.serviceStatus.Keys - LookupKeys(svcs));
      RecordsIff(kept, route, svcs, t);
      var route' := route.(serviceStatus := Managed(route, t));
      forall svc <- svcs ensures SvcEndpointKey(route', svc) == SvcEndpointKey(route, svc) {}
    }
  }

  // ------------------------------------------------------------- everything at once

  ghost predicate AllRecorded(lbs: seq<LoadBalancer>, routes: seq<Route>, t: Table) {
    && (forall lb <- lbs :: Recorded(lb, t))
    && (forall route <- routes :: RouteRecorded(route, t))
  }

  lemma ServedIsGranted(t: Table, rs: seq<Request>, r: Request)
    requires Served(t, rs) && r in rs
    ensures Granted(t, r)
  {
    forall i | 0 <= i < |r.keys| ensures Has(t, r.ek, r.keys[i]) { assert r.keys[i] in Elems(r.keys); }
  }

  /** A recorded load balancer makes one request, and its writes restore it. */
  lemma LbRestores(lbs: seq<LoadBalancer>, routes: seq<Route>, t: Table, lb: LoadBalancer)
    requires Recorded(lb, t) && lb in lbs && Served(t, AllRequests(lbs, routes))
    ensures LbRequests(lb) == [EndpointRequest(lb, 0)]
    ensures EndpointRequest(lb, 0) in AllRequests(lbs, routes)
    ensures Restores(LbWrites(lb), EndpointRequest(lb, 0), t)
  {
    GatherOne(EndpointRequester(lb));
    GatherOne(EndpointWriter(lb));
    FlatMapMember(LbRequests, lbs, EndpointRequest(lb, 0));
    ServedIsGranted(t, AllRequests(lbs, routes), EndpointRequest(lb, 0));
    EndpointRestores(lb, t);
  }

  lemma BackendRestores(lbs: seq<LoadBalancer>, routes: seq<Route>, t: Table, route: Route, svc: Service)
    requires RouteRecorded(route, t) && route in routes && Served(t, AllRequests(lbs, routes))
    requires route.source.Some? && svc in route.source.value.services
    ensures ServiceRequest(route, svc) in AllRequests(lbs, routes)
    ensures Restores(ServiceWrites(route, svc), ServiceRequest(route, svc), t)
  {
    var r := ServiceRequest(route, svc);
    assert r in ServiceRequester(route)(svc);
    FlatMapMember(ServiceRequester(route), route.source.value.services, r);
    FlatMapMember(RouteRequests, routes, r);
    ServedIsGranted(t, AllRequests(lbs, routes), r);
    ServiceRestores(route, svc, t);
  }

  /** Whatever is written was requested, and is what `t` holds. */
  lemma WriteWasRequested(lbs: seq<LoadBalancer>, routes: seq<Route>, t: Table, w: Write)
    requires AllRecorded(lbs, routes, t) && Served(t, AllRequests(lbs, routes)) && w in AllWrites(lbs, routes)
    ensures exists r :: r in AllRequests(lbs, routes) && r.ek == w.ek
    ensures Agrees([w], t)
  {
    FlatMapMember(LbWrites, lbs, w);
    FlatMapMember(RouteWrites, routes, w);
    if lb :| lb in lbs && w in LbWrites(lb) {
      LbRestores(lbs, routes, t, lb);
    } else {
      var route :| route in routes && w in RouteWrites(route);
      FlatMapMember(ServiceWriter(route), route.source.value.services, w);
      var svc :| svc in route.source.value.services && w in ServiceWrites(route, svc);
      BackendRestores(lbs, routes, t, route, svc);
    }
  }

  /** Whatever was requested is written back. */
  lemma RequestIsWritten(lbs: seq<LoadBalancer>, routes: seq<Route>, t: Table, r: Request)
    requires AllRecorded(lbs, routes, t) && Served(t, AllRequests(lbs, routes)) && r in AllRequests(lbs, routes)
    ensures exists ws :: Restores(ws, r, t) && forall w <- ws :: w in AllWrites(lbs, routes)
  {
    FlatMapMember(LbRequests, lbs, r);
    FlatMapMember(RouteRequests, routes, r);
    if lb :| lb in lbs && r in LbRequests(lb) {
      LbRestores(lbs, routes, t, lb);
      forall w <- LbWrites(lb) ensures w in AllWrites(lbs, routes) { FlatMapMember(LbWrites, lbs, w); }
    } else {
      var route :| route in routes && r in RouteRequests(route);
      FlatMapMember(ServiceRequester(route), route.source.value.services, r);
      var svc :| svc in route.source.value.services && r in ServiceRequester(route)(svc);
      BackendRestores(lbs, routes, t, route, svc);
      forall w <- ServiceWrites(route, svc) ensures w in AllWrites(lbs, routes) {
        FlatMapMember(ServiceWriter(route), route.source.value.services, w);
        FlatMapMember(RouteWrites, routes, w);
      }
    }
  }

  ghost predicate Requested(rs: seq<Request>, ek: string) {
    exists r :: r in rs && r.ek == ek
  }

  /** The rows of `t` that somebody asked for. */
  ghost function Live(t: Table, rs: seq<Request>): Table {
    map ek | ek in t && Requested(rs, ek) :: t[ek]
  }

  lemma ReloadedKeys(lbs: seq<LoadBalancer>, routes: seq<Route>, t: Table, ek: string)
    requires AllRecorded(lbs, routes, t) && Served(t, AllRequests(lbs, routes))
    ensures ek in Apply(map[], AllWrites(lbs, routes)) <==> Requested(AllRequests(lbs, routes), ek)
  {
    ApplyTouches(AllWrites(lbs, routes), ek);
    if w :| w in AllWrites(lbs, routes) && w.ek == ek {
      WriteWasRequested(lbs, routes, t, w);
    }
    if r :| r in AllRequests(lbs, routes) && r.ek == ek {
      RequestIsWritten(lbs, routes, t, r);
      var ws :| Restores(ws, r, t) && forall w <- ws :: w in AllWrites(lbs, routes);
      assert Touch(ek) in ws;
    }
  }

  lemma ReloadedEntry(lbs: seq<LoadBalancer>, routes: seq<Route>, t: Table, r: Request, pk: string)
    requires AllRecorded(lbs, routes, t) && Served(t, AllRequests(lbs, routes)) && r in AllRequests(lbs, routes)
    requires Agrees(AllWrites(lbs, routes), t)
    ensures var u := Apply(map[], AllWrites(lbs, routes));
            (Has(u, r.ek, pk) <==> Has(t, r.ek, pk)) && (Has(u, r.ek, pk) ==> u[r.ek][pk] == t[r.ek][pk])
  {
    ApplyAgreeing(AllWrites(lbs, routes), t, r.ek, pk);
    if Has(t, r.ek, pk) {
      RequestIsWritten(lbs, routes, t, r);
      assert pk in Elems(r.keys);
    }
  }

  lemma ReloadedRow(lbs: seq<LoadBalancer>, routes: seq<Route>, t: Table, ek: string)
    requires AllRecorded(lbs, routes, t) && Served(t, AllRequests(lbs, routes))
    requires Agrees(AllWrites(lbs, routes), t) && Requested(AllRequests(lbs, routes), ek)
    ensures var u := Apply(map[], AllWrites(lbs, routes));
            ek in u && ek in t && u[ek] == t[ek]
  {
    var u := Apply(map[], AllWrites(lbs, routes));
    ReloadedKeys(lbs, routes, t, ek);
    var r :| r in AllRequests(lbs, routes) && r.ek == ek;
    forall pk ensures (pk in u[ek] <==> pk in t[ek]) && (pk in u[ek] ==> u[ek][pk] == t[ek][pk]) {
      ReloadedEntry(lbs, routes, t, r, pk);
    }
    assert u[ek] == t[ek];
  }

  /**
   Restart loses nothing: statuses recorded from one table, each in any port order, load
   back as that table's live rows, and healing clears nothing.
   */
  lemma RestartRecovers(lbs: seq<LoadBalancer>, routes: seq<Route>, t: Table)
    requires EndpointsDisjoint(t)
    requires AllRecorded(lbs, routes, t) && Served(t, AllRequests(lbs, routes))
    ensures Healed(Apply(map[], AllWrites(lbs, routes))) == Live(t, AllRequests(lbs, routes))
  {
    var ws, rs := AllWrites(lbs, routes), AllRequests(lbs, routes);
    forall w <- ws ensures Agrees([w], t) { WriteWasRequested(lbs, routes, t, w); }
    assert Agrees(ws, t) by {
      forall w <- ws ensures Agrees([w], t) && w in [w] {}
    }
    var u := Apply(map[], ws);
    forall ek ensures (ek in u <==> ek in Live(t, rs)) && (ek in u ==> u[ek] == Live(t, rs)[ek]) {
      ReloadedKeys(lbs, routes, t, ek);
      if Requested(rs, ek) { ReloadedRow(lbs, routes, t, ek); }
    }
    assert u == Live(t, rs);
    assert SubTable(Live(t, rs), t);
    HealedIdentityIff(u);
  }
}
