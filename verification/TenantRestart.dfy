/** A tenant's ports over a restart: allocated, written into generated objects, recorded, and read back. */
module TenantRestart {
  import opened Api
  import opened Lists
  import opened LoadBalancers
  import opened PersistedPorts
  import opened PortRequests
  import opened PortTable
  import opened Restart
  import opened RouteServices
  import opened Tenants
  import opened Text

  /** `lb'` is `lb` with the status built from Service ports created from `t`, sorted in any way. */
  ghost predicate StatusWritten(lb: LoadBalancer, lb': LoadBalancer, t: Table) {
    lb.endpoints != [] && exists existing, ports :: StatusWrittenAs(lb, lb', existing, ports, t)
  }

  ghost predicate StatusWrittenAs(lb: LoadBalancer, lb': LoadBalancer, existing: seq<ServicePort>,
                                  ports: seq<ServicePort>, t: Table)
    requires lb.endpoints != []
  {
    && Created(lb, existing, t, ports)
    && |lb'.status| == |ports| && lb' == lb.(status := lb'.status)
    && forall i | 0 <= i < |ports| :: lb'.status[i] == StatusOf(ports[i], lb.endpoints[0].ports)
  }

  /** Backends that are looked up where they are recorded, under distinct original names in each route. */
  ghost predicate Recordable(route: Route) {
    route.source.Some? ==>
      var svcs := route.source.value.services;
      && (forall svc <- svcs :: OriginNamespace(svc) == svc.namespace)
      && (forall i, j | 0 <= i < j < |svcs| :: RecordKey(svcs[i]) != RecordKey(svcs[j]))
  }

  lemma DesiredPortsSame(lb: LoadBalancer, lb': LoadBalancer, existing: seq<ServicePort>, t: Table)
    requires lb' == lb.(status := lb'.status) && lb.endpoints != [] && |lb.ports| <= |lb.endpoints[0].ports|
    ensures DesiredPorts(lb', existing, t) == DesiredPorts(lb, existing, t)
  {
    forall i | 0 <= i < |lb.ports| ensures DesiredPort(lb', existing, t, i) == DesiredPort(lb, existing, t, i) {}
  }

  lemma WrittenIsRecorded(lb: LoadBalancer, lb': LoadBalancer, svc: Service, tenant: string, t: Table)
    requires MirrorOf(lb, svc, tenant) && Admitted(svc) && StatusWritten(lb, lb', t)
    ensures MirrorOf(lb', svc, tenant) && Recorded(lb', t)
  {
    var addresses, reference :| lb.(status := []) == Mapped(svc, addresses, reference, tenant);
    var existing, ports :| StatusWrittenAs(lb, lb', existing, ports, t);
    assert lb'.(status := []) == lb.(status := []);
    MirrorIsPaired(lb', svc, tenant);
    DesiredPortsSame(lb, lb', existing, t);
    assert RecordedAs(lb', existing, ports, t);
  }

  lemma LbRequestsSame(lb: LoadBalancer, lb': LoadBalancer, svc: Service, tenant: string)
    requires MirrorOf(lb, svc, tenant) && MirrorOf(lb', svc, tenant) && lb' == lb.(status := lb'.status)
    ensures LbRequests(lb') == LbRequests(lb)
  {
    MirrorAsks(lb, svc, tenant);
    MirrorAsks(lb', svc, tenant);
  }

  lemma RouteRequestsSame(route: Route, route': Route)
    requires route' == route.(serviceStatus := route'.serviceStatus)
    ensures RouteRequests(route') == RouteRequests(route)
  {
    if route.source.Some? {
      FlatMapSame(ServiceRequester(route), ServiceRequester(route'), route.source.value.services);
    }
  }

  lemma RecordableAgrees(route: Route, t: Table)
    requires Recordable(route)
    ensures RouteRecorded(route.(serviceStatus := Managed(route, t)), t)
  {
    ManagedIsRecorded(route, t);
  }

  /**
   Restart loses nothing of a tenant: after one allocation, with every status then written by the code
   that generates Services, a reload gives back exactly the rows the tenant asked for, and healing
   clears nothing.
   */
  lemma TenantRestarts(t: Table, t': Table, lbs: seq<LoadBalancer>, svcs: seq<Service>, routes: seq<Route>,
                       tenant: string, lbs': seq<LoadBalancer>, routes': seq<Route>)
    requires Tenant(lbs, svcs, routes, tenant) && PortsDistinct(t) && AllocatedAll(t, AllRequests(lbs, routes), t')
    requires |lbs'| == |lbs| && forall i | 0 <= i < |lbs| :: StatusWritten(lbs[i], lbs'[i], t')
    requires |routes'| == |routes| && forall route <- routes :: Recordable(route)
    requires forall i | 0 <= i < |routes| :: routes'[i] == routes[i].(serviceStatus := Managed(routes[i], t'))
    ensures Healed(Apply(map[], AllWrites(lbs', routes'))) == Live(t', AllRequests(lbs, routes))
  {
    TenantIsCompatible(lbs, svcs, routes, tenant);
    BatchServesIff(t, AllRequests(lbs, routes), t');
    BatchKeepsInvariants(t, AllRequests(lbs, routes), t');
    forall i | 0 <= i < |lbs| ensures Recorded(lbs'[i], t') && LbRequests(lbs[i]) == LbRequests(lbs'[i]) {
      WrittenIsRecorded(lbs[i], lbs'[i], svcs[i], tenant, t');
      LbRequestsSame(lbs[i], lbs'[i], svcs[i], tenant);
    }
    forall i | 0 <= i < |routes|
      ensures RouteRecorded(routes'[i], t') && RouteRequests(routes[i]) == RouteRequests(routes'[i])
    {
      assert routes[i] in routes;
      RecordableAgrees(routes[i], t');
      RouteRequestsSame(routes[i], routes'[i]);
    }
    FlatMapAlike(LbRequests, lbs, lbs');
    FlatMapAlike(RouteRequests, routes, routes');
    RestartRecovers(lbs', routes', t');
  }
}
