/** Layer 7: the Services generated for a Route's backends and the status recorded for them. */
module RouteServices {
  import opened Api
  import opened Keys
  import opened LoadBalancers
  import opened PersistedPorts
  import opened PortRequests
  import opened PortTable
  import opened ServiceNames

  /** `GetServiceNamespace`: the origin label when present. */
  function OriginNamespace(svc: Service): string {
    if LABEL_ORIGIN_NAMESPACE in svc.labels then svc.labels[LABEL_ORIGIN_NAMESPACE] else svc.namespace
  }

  function GeneratedPort(p: ServicePort, t: Table, ek: string): ServicePort {
    p.(targetPort := LookupOr(t, ek, ServicePortKey(p), p.nodePort), nodePort := 0)
  }

  function GeneratedPorts(svc: Service, t: Table, ek: string): seq<ServicePort> {
    seq(|svc.ports|, i requires 0 <= i < |svc.ports| => GeneratedPort(svc.ports[i], t, ek))
  }

  /** What the generator is given: lower-casing, the name digest, and the annotations to propagate. */
  datatype Settings = Settings(lower: char -> char, hash: string -> string,
                               propagate: map<string, string> -> map<string, string>)

  /** The selector points at the Envoy proxy of the namespace. */
  function Generated(g: Settings, svc: Service, appName: string, namespace: string, routeName: string, t: Table)
    : Service
  {
    var ek := RouteEndpointKey(namespace, svc.namespace, svc.name, routeName);
    svc.(name := GenerateRouteServiceName(g.lower, g.hash, routeName, OriginName(svc), svc.namespace),
         namespace := namespace, uid := "",
         selector := map[LABEL_APP_NAME := appName], annotations := g.propagate(svc.annotations),
         serviceType := if svc.serviceType == "NodePort" then "ClusterIP" else svc.serviceType,
         labels := svc.labels[LABEL_ORIGIN_NAME := OriginName(svc)][LABEL_ORIGIN_NAMESPACE := OriginNamespace(svc)],
         ports := GeneratedPorts(svc, t, ek))
  }

  /** Clients see the ports they know; no node port is claimed in the management cluster. */
  ghost predicate KeepsPorts(svc: Service, r: Service) {
    |r.ports| == |svc.ports| &&
    forall i | 0 <= i < |r.ports| ::
      && r.ports[i].name == svc.ports[i].name && r.ports[i].port == svc.ports[i].port
      && r.ports[i].protocol == svc.ports[i].protocol && r.ports[i].nodePort == 0
  }

  lemma GeneratedKeepsPorts(g: Settings, svc: Service, appName: string, namespace: string, routeName: string, t: Table)
    ensures KeepsPorts(svc, Generated(g, svc, appName, namespace, routeName, t))
  {}

  /** Rewrites the ports of the copied Service one by one. */
  method GenerateServiceForLBCluster(g: Settings, svc: Service, appName: string, namespace: string, routeName: string,
                                     t: Table)
    returns (r: Service)
    ensures r == Generated(g, svc, appName, namespace, routeName, t)
    ensures KeepsPorts(svc, r) && r.namespace == namespace && r.selector == map["app.kubernetes.io/name" := appName]
    ensures r.serviceType != "NodePort" && (svc.serviceType != "NodePort" ==> r.serviceType == svc.serviceType)
    ensures forall k :: Get(r.labels, k) ==
              if k in svc.labels || k !in {"kubelb.k8c.io/origin-name", "kubelb.k8c.io/origin-ns"}
              then Get(svc.labels, k)
              else if k == "kubelb.k8c.io/origin-name" then svc.name else svc.namespace
  {
    var ek := RouteEndpointKey(namespace, svc.namespace, svc.name, routeName);
    var ports := svc.ports;
    for i := 0 to |ports|
      invariant |ports| == |svc.ports|
      invariant forall j | 0 <= j < i :: ports[j] == GeneratedPort(svc.ports[j], t, ek)
      invariant forall j | i <= j < |ports| :: ports[j] == svc.ports[j]
    {
      ports := ports[i := GeneratedPort(ports[i], t, ek)];
    }
    assert ports == GeneratedPorts(svc, t, ek);
    assert |LABEL_ORIGIN_NAME| != |LABEL_ORIGIN_NAMESPACE|;
    r := svc.(name := GenerateRouteServiceName(g.lower, g.hash, routeName, OriginName(svc), svc.namespace),
              namespace := namespace, uid := "",
              selector := map[LABEL_APP_NAME := appName], annotations := g.propagate(svc.annotations),
              serviceType := if svc.serviceType == "NodePort" then "ClusterIP" else svc.serviceType,
              labels := svc.labels[LABEL_ORIGIN_NAME := OriginName(svc)][LABEL_ORIGIN_NAMESPACE :=
                OriginNamespace(svc)],
              ports := ports);
  }

  function RecordKey(svc: Service): string {
    ServiceStatusKey(OriginNamespace(svc), OriginName(svc))
  }

  /** Generating a Service does not change the key its status is filed under. */
  lemma GeneratedRecordKey(g: Settings, svc: Service, appName: string, namespace: string, routeName: string, t: Table)
    ensures RecordKey(Generated(g, svc, appName, namespace, routeName, t)) == RecordKey(svc)
  {
    assert LABEL_ORIGIN_NAME != LABEL_ORIGIN_NAMESPACE by {
      assert |LABEL_ORIGIN_NAME| != |LABEL_ORIGIN_NAMESPACE|;
    }
  }

  /** Each backend's status entry holds the ports generated for it. */
  ghost predicate Records(status: map<string, seq<ServicePort>>, route: Route, svcs: seq<Service>, t: Table) {
    forall svc <- svcs :: RecordKey(svc) in status
      && status[RecordKey(svc)] == GeneratedPorts(svc, t, SvcEndpointKey(route, svc))
  }

  /** The status after the first `n` backends were recorded over `status`, a later one over an earlier of its key. */
  function StatusAfter(status: map<string, seq<ServicePort>>, route: Route, svcs: seq<Service>, n: nat, t: Table)
    : map<string, seq<ServicePort>>
    requires n <= |svcs|
  {
    if n == 0 then status
    else StatusAfter(status, route, svcs, n - 1, t)
         [RecordKey(svcs[n - 1]) := GeneratedPorts(svcs[n - 1], t, SvcEndpointKey(route, svcs[n - 1]))]
  }

  function LookupKeys(svcs: seq<Service>): set<string> { set svc | svc in svcs :: LookupKey(svc) }

  /** Drops every status entry no backend is looked up under; the Services of `orphans` are deleted. */
  method CleanupOrphanedServices(status: map<string, seq<ServicePort>>, svcs: seq<Service>)
    returns (kept: map<string, seq<ServicePort>>, orphans: set<string>)
    ensures orphans == status.Keys - LookupKeys(svcs) && kept == status - orphans
  {
    var desired: set<string> := {};
    for i := 0 to |svcs|
      invariant desired == LookupKeys(svcs[..i])
    {
      assert svcs[..i + 1] == svcs[..i] + [svcs[i]];
      desired := desired + {LookupKey(svcs[i])};
    }
    assert svcs[..|svcs|] == svcs;
    kept, orphans := status, {};
    var rest := status.Keys;
    while rest != {}
      invariant rest <= status.Keys && orphans == status.Keys - rest - desired && kept == status - orphans
      decreases rest
    {
      var key :| key in rest;
      if key !in desired {
        kept := kept - {key};
        orphans := orphans + {key};
      }
      rest := rest - {key};
    }
  }

  /**
   A recorded backend whose key no other backend is looked up under is orphaned if and only if its namespaces differ.
   */
  lemma RecordOrphanedIff(svcs: seq<Service>, i: nat)
    requires i < |svcs| && forall svc <- svcs | svc != svcs[i] :: LookupKey(svc) != RecordKey(svcs[i])
    ensures RecordKey(svcs[i]) !in LookupKeys(svcs) <==> OriginNamespace(svcs[i]) != svcs[i].namespace
  {
    ReloadKeyMatchesIff(svcs[i]);
    assert svcs[i] in svcs;
  }

  /** What `manageServices` records: orphans dropped, then each backend's generated ports. */
  ghost function Managed(route: Route, t: Table): map<string, seq<ServicePort>> {
    match route.source
    case None => route.serviceStatus
    case Some(source) =>
      var kept := route.serviceStatus - (route.serviceStatus.Keys - LookupKeys(source.services));
      StatusAfter(kept, route, source.services, |source.services|, t)
  }

  /** The loops of `manageServices` that clean up, generate each Service and record its status. */
  method ManageServices(g: Settings, route: Route, t: Table)
    returns (status: map<string, seq<ServicePort>>)
    ensures status == Managed(route, t)
  {
    status := route.serviceStatus;
    if route.source.None? { return; }
    var svcs := route.source.value.services;
    var kept, orphans := CleanupOrphanedServices(route.serviceStatus, svcs);
    status := kept;
    for i := 0 to |svcs|
      invariant status == StatusAfter(kept, route, svcs, i, t)
    {
      var svc := GenerateServiceForLBCluster(g, svcs[i], route.namespace, route.namespace, OriginalRouteName(route), t);
      GeneratedRecordKey(g, svcs[i], route.namespace, route.namespace, OriginalRouteName(route), t);
      status := status[RecordKey(svc) := svc.ports];
    }
  }

  /** Backends filed under one key were generated alike. */
  ghost predicate RecordsAgree(route: Route, svcs: seq<Service>, t: Table) {
    forall i, j | 0 <= i < j < |svcs| && RecordKey(svcs[i]) == RecordKey(svcs[j]) ::
      GeneratedPorts(svcs[i], t, SvcEndpointKey(route, svcs[i]))
        == GeneratedPorts(svcs[j], t, SvcEndpointKey(route, svcs[j]))
  }

  lemma {:induction false} LastRecorded(status: map<string, seq<ServicePort>>, route: Route, svcs: seq<Service>, n: nat,
                                        t: Table, i: nat)
    returns (j: nat)
    requires i < n <= |svcs|
    ensures i <= j < n && RecordKey(svcs[j]) == RecordKey(svcs[i])
    ensures RecordKey(svcs[i]) in StatusAfter(status, route, svcs, n, t)
    ensures StatusAfter(status, route, svcs, n, t)[RecordKey(svcs[i])]
            == GeneratedPorts(svcs[j], t, SvcEndpointKey(route, svcs[j]))
  {
    if RecordKey(svcs[n - 1]) == RecordKey(svcs[i]) {
      j := n - 1;
    } else {
      j := LastRecorded(status, route, svcs, n - 1, t, i);
    }
  }

  /** The status holds every backend's ports exactly when backends of one key were generated alike. */
  lemma RecordsIff(status: map<string, seq<ServicePort>>, route: Route, svcs: seq<Service>, t: Table)
    ensures Records(StatusAfter(status, route, svcs, |svcs|, t), route, svcs, t) <==> RecordsAgree(route, svcs, t)
  {
    var after := StatusAfter(status, route, svcs, |svcs|, t);
    if RecordsAgree(route, svcs, t) {
      forall svc <- svcs
        ensures RecordKey(svc) in after && after[RecordKey(svc)] == GeneratedPorts(svc, t, SvcEndpointKey(route, svc))
      {
        var i :| 0 <= i < |svcs| && svcs[i] == svc;
        var j := LastRecorded(status, route, svcs, |svcs|, t, i);
      }
    }
    if Records(after, route, svcs, t) {
      forall i, j | 0 <= i < j < |svcs| && RecordKey(svcs[i]) == RecordKey(svcs[j])
        ensures GeneratedPorts(svcs[i], t, SvcEndpointKey(route, svcs[i]))
                == GeneratedPorts(svcs[j], t, SvcEndpointKey(route, svcs[j]))
      {
        assert svcs[i] in svcs && svcs[j] in svcs;
      }
    }
  }

  /** A backend that was copied from Service a/x, and that Service itself. */
  function CopiedBackend(): Service {
    Service("b", "y", "", map[LABEL_ORIGIN_NAME := "x", LABEL_ORIGIN_NAMESPACE := "a"], map[], "NodePort", "", false,
            map[], [ServicePort("", 80, TCP, 80, 30002)])
  }

  function OriginalBackend(): Service {
    Service("a", "x", "", map[], map[], "NodePort", "", false, map[], [ServicePort("", 80, TCP, 80, 30001)])
  }

  lemma CopyIsFiledUnderItsOrigin()
    ensures RecordKey(CopiedBackend()) == RecordKey(OriginalBackend())
    ensures OriginNamespace(CopiedBackend()) == "a" != CopiedBackend().namespace
  {
    assert LABEL_ORIGIN_NAME != LABEL_ORIGIN_NAMESPACE by {
      assert |LABEL_ORIGIN_NAME| != |LABEL_ORIGIN_NAMESPACE|;
    }
    assert "a"[0] != "b"[0];
  }

  /**
   Two Services' ports look the same in a record: both none, or one endpoint and the same names, ports and protocols.
   */
  predicate RecordedAlike(route: Route, a: Service, b: Service) {
    || (a.ports == [] && b.ports == [])
    || (SvcEndpointKey(route, a) == SvcEndpointKey(route, b) && |a.ports| == |b.ports|
        && forall k | 0 <= k < |a.ports| ::
             a.ports[k].(targetPort := 0, nodePort := 0) == b.ports[k].(targetPort := 0, nodePort := 0))
  }

  lemma GeneratedAt(route: Route, svc: Service, t: Table, k: nat)
    requires Granted(t, ServiceRequest(route, svc)) && k < |svc.ports|
    ensures var ek, pk := SvcEndpointKey(route, svc), ServicePortKey(svc.ports[k]);
            Has(t, ek, pk) && GeneratedPorts(svc, t, ek)[k] == svc.ports[k].(targetPort := t[ek][pk], nodePort := 0)
  {
    var r := ServiceRequest(route, svc);
    assert Has(t, r.ek, r.keys[k]);
  }

  /** Once ports are allocated, two backends are generated alike exactly when a caller can see that they are. */
  lemma GeneratedAlikeIff(route: Route, a: Service, b: Service, t: Table)
    requires EndpointsDisjoint(t) && Granted(t, ServiceRequest(route, a)) && Granted(t, ServiceRequest(route, b))
    ensures GeneratedPorts(a, t, SvcEndpointKey(route, a)) == GeneratedPorts(b, t, SvcEndpointKey(route, b))
            <==> RecordedAlike(route, a, b)
  {
    var p, q := GeneratedPorts(a, t, SvcEndpointKey(route, a)), GeneratedPorts(b, t, SvcEndpointKey(route, b));
    if p == q && p != [] {
      assert |a.ports| == |p| == |q| == |b.ports|;
      GeneratedAt(route, a, t, 0);
      GeneratedAt(route, b, t, 0);
      assert p[0].targetPort == q[0].targetPort;
      forall k | 0 <= k < |p|
        ensures a.ports[k].(targetPort := 0, nodePort := 0) == b.ports[k].(targetPort := 0, nodePort := 0)
      {
        assert p[k].(targetPort := 0) == a.ports[k].(targetPort := 0, nodePort := 0);
        assert q[k].(targetPort := 0) == b.ports[k].(targetPort := 0, nodePort := 0);
      }
    }
    if RecordedAlike(route, a, b) {
      forall k | 0 <= k < |p| ensures p[k] == q[k] {
        GeneratedAt(route, a, t, k);
        GeneratedAt(route, b, t, k);
        assert a.ports[k].port == a.ports[k].(targetPort := 0, nodePort := 0).port;
        assert a.ports[k].protocol == a.ports[k].(targetPort := 0, nodePort := 0).protocol;
      }
    }
  }

  /**
   From every table `manageServices` generates from, all ports allocated and none shared by two endpoints: the
   status holds every backend's ports exactly when backends of one record key can be seen to be alike.
   */
  lemma AllocatedRecordsIff(status: map<string, seq<ServicePort>>, route: Route, svcs: seq<Service>, t: Table)
    requires EndpointsDisjoint(t) && forall svc <- svcs :: Granted(t, ServiceRequest(route, svc))
    ensures Records(StatusAfter(status, route, svcs, |svcs|, t), route, svcs, t)
            <==> forall i, j | 0 <= i < j < |svcs| && RecordKey(svcs[i]) == RecordKey(svcs[j]) ::
                   RecordedAlike(route, svcs[i], svcs[j])
  {
    RecordsIff(status, route, svcs, t);
    forall i, j | 0 <= i < j < |svcs|
      ensures GeneratedPorts(svcs[i], t, SvcEndpointKey(route, svcs[i]))
              == GeneratedPorts(svcs[j], t, SvcEndpointKey(route, svcs[j]))
              <==> RecordedAlike(route, svcs[i], svcs[j])
    {
      assert svcs[i] in svcs && svcs[j] in svcs;
      GeneratedAlikeIff(route, svcs[i], svcs[j], t);
    }
  }

  lemma BackendKeysDiffer(route: Route)
    ensures SvcEndpointKey(route, OriginalBackend()) != SvcEndpointKey(route, CopiedBackend())
  {
    var h := "tenant-" + route.namespace + "-route-";
    var x, y := SvcEndpointKey(route, OriginalBackend()), SvcEndpointKey(route, CopiedBackend());
    assert x == h + "a" + ("-" + "x" + "-" + OriginalRouteName(route));
    assert y == h + "b" + ("-" + "y" + "-" + OriginalRouteName(route));
    assert x[|h|] == 'a' && y[|h|] == 'b';
  }

  /** In one Route, whatever ports they were given, the record of the one overwrites that of the other. */
  lemma RecordIsOverwritten(status: map<string, seq<ServicePort>>, route: Route, t: Table)
    requires EndpointsDisjoint(t) && Granted(t, ServiceRequest(route, OriginalBackend()))
    requires Granted(t, ServiceRequest(route, CopiedBackend()))
    ensures var svcs := [OriginalBackend(), CopiedBackend()];
            !Records(StatusAfter(status, route, svcs, 2, t), route, svcs, t)
  {
    var svcs := [OriginalBackend(), CopiedBackend()];
    CopyIsFiledUnderItsOrigin();
    BackendKeysDiffer(route);
    AllocatedRecordsIff(status, route, svcs, t);
    assert RecordKey(svcs[0]) == RecordKey(svcs[1]) && !RecordedAlike(route, svcs[0], svcs[1]);
  }

  /**
   A reload files a backend under its own namespace, the record under its origin
   namespace: it finds the record's key exactly when the two namespaces agree.
   */
  lemma ReloadKeyMatchesIff(svc: Service)
    ensures LookupKey(svc) == RecordKey(svc) <==> OriginNamespace(svc) == svc.namespace
  {
    var a, b, n := svc.namespace, OriginNamespace(svc), OriginName(svc);
    var s := LookupKey(svc);
    if s == RecordKey(svc) {
      assert |a| == |b|;
      assert s[..|a|] == a && RecordKey(svc)[..|b|] == b;
    }
  }
}
