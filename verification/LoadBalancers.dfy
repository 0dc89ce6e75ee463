/** Layer 4: from a tenant Service to its LoadBalancer, to the generated Service, to the recorded status. */
module LoadBalancers {
  import opened Api
  import opened Keys
  import opened PortTable
  import opened Text

  function LowerChar(c: char): char {
    if 'A' <= c <= 'Z' then c - 'A' + 'a' else c
  }

  /** `strings.ToLower` on the ASCII that port names and protocols are made of. */
  function Lower(s: string): string {
    seq(|s|, i requires 0 <= i < |s| => LowerChar(s[i]))
  }

  // ------------------------------------------------------------- MapLoadBalancer

  function MappedName(p: ServicePort): string {
    if p.name != "" then Lower(p.name) else Itoa(p.port) + "-" + Lower(p.protocol)
  }

  function FrontPort(p: ServicePort): EndpointPort { EndpointPort(MappedName(p), p.port, p.protocol) }

  function NodePort(p: ServicePort): EndpointPort { EndpointPort(MappedName(p), p.nodePort, p.protocol) }

  function MappedLabels(svc: Service, tenant: string): map<string, string> {
    map[LABEL_ORIGIN_NAMESPACE := svc.namespace, LABEL_ORIGIN_NAME := svc.name, LABEL_TENANT_NAME := tenant]
  }

  function Mapped(svc: Service, addresses: seq<Address>, reference: Option<string>, tenant: string): LoadBalancer {
    LoadBalancer(tenant, svc.uid,
                 MappedLabels(svc, tenant), svc.annotations - {LAST_APPLIED_CONFIG},
                 svc.serviceType, svc.externalTrafficPolicy, svc.sourceIpAffinity,
                 seq(|svc.ports|, i requires 0 <= i < |svc.ports| => FrontPort(svc.ports[i])),
                 [Endpoints(if reference.Some? then [] else addresses, reference,
                            seq(|svc.ports|, i requires 0 <= i < |svc.ports| => NodePort(svc.ports[i])))],
                 [])
  }

  /** Reference: `s` is `t` with capital letters replaced by small ones. */
  predicate InLowerCase(s: string, t: string) {
    |s| == |t| &&
    forall i | 0 <= i < |s| :: if 'A' <= t[i] <= 'Z' then s[i] as int == t[i] as int + 32 else s[i] == t[i]
  }

  /** Reference: the name of a mapped port, its own, or one made of its number and protocol. */
  ghost predicate NamesPort(name: string, p: ServicePort) {
    if p.name != "" then InLowerCase(name, p.name)
    else exists protocol :: InLowerCase(protocol, p.protocol) && name == Itoa(p.port) + "-" + protocol
  }

  lemma MappedNameNames(p: ServicePort)
    ensures NamesPort(MappedName(p), p)
  {
    assert InLowerCase(Lower(p.protocol), p.protocol);
  }

  /** A front port has the Service port's number, the endpoint port of the same position its node port. */
  ghost predicate MirrorsPorts(svc: Service, lb: LoadBalancer) {
    && |lb.endpoints| == 1 && |lb.ports| == |lb.endpoints[0].ports| == |svc.ports|
    && forall i | 0 <= i < |svc.ports| ::
         var p, front, back := svc.ports[i], lb.ports[i], lb.endpoints[0].ports[i];
         && front.port == p.port && back.port == p.nodePort && front.protocol == back.protocol == p.protocol
         && front.name == back.name && NamesPort(front.name, p)
  }

  lemma MappedMirrorsPorts(svc: Service, addresses: seq<Address>, reference: Option<string>, tenant: string)
    ensures MirrorsPorts(svc, Mapped(svc, addresses, reference, tenant))
  {
    forall i | 0 <= i < |svc.ports| ensures NamesPort(MappedName(svc.ports[i]), svc.ports[i]) {
      MappedNameNames(svc.ports[i]);
    }
  }

  method MapLoadBalancer(svc: Service, addresses: seq<Address>, useAddressesReference: bool, tenant: string)
    returns (lb: LoadBalancer)
    ensures lb == Mapped(svc, addresses, if useAddressesReference then Some("default") else None, tenant)
    ensures MirrorsPorts(svc, lb) && lb.namespace == tenant && lb.name == svc.uid
    ensures lb.endpoints[0].reference == (if useAddressesReference then Some("default") else None)
    ensures !useAddressesReference ==> lb.endpoints[0].addresses == addresses
    ensures lb.labels == map["kubelb.k8c.io/origin-ns" := svc.namespace, "kubelb.k8c.io/origin-name" := svc.name,
                             "kubelb.k8c.io/tenant" := tenant]
    ensures forall k :: Get(lb.annotations, k) ==
              if k == "kubectl.kubernetes.io/last-applied-configuration" then "" else Get(svc.annotations, k)
    ensures lb.serviceType == svc.serviceType && lb.externalTrafficPolicy == svc.externalTrafficPolicy
    ensures lb.sourceIpPersistence == svc.sourceIpAffinity
  {
    var front, back := [], [];
    for i := 0 to |svc.ports|
      invariant front == seq(i, j requires 0 <= j < i => FrontPort(svc.ports[j]))
      invariant back == seq(i, j requires 0 <= j < i => NodePort(svc.ports[j]))
    {
      front := front + [FrontPort(svc.ports[i])];
      back := back + [NodePort(svc.ports[i])];
    }
    var reference := if useAddressesReference then Some("default") else None;
    lb := LoadBalancer(tenant, svc.uid,
                       MappedLabels(svc, tenant), svc.annotations - {LAST_APPLIED_CONFIG},
                       svc.serviceType, svc.externalTrafficPolicy, svc.sourceIpAffinity, front,
                       [Endpoints(if reference.Some? then [] else addresses, reference, back)], []);
    assert lb.endpoints[0] == Mapped(svc, addresses, reference, tenant).endpoints[0];
    MappedMirrorsPorts(svc, addresses, reference, tenant);
  }

  // ------------------------------------------------------------- CreateServicePorts

  /** The upstream port of the first endpoint port called `name`. */
  function PortByName(ports: seq<EndpointPort>, name: string): (r: Option<int>)
    ensures r.None? <==> forall p <- ports :: p.name != name
    ensures r.Some? ==> exists p <- ports :: p.name == name && p.port == r.value
  {
    if ports == [] then None
    else if ports[0].name == name then Some(ports[0].port)
    else PortByName(ports[1..], name)
  }

  predicate SamePort(e: ServicePort, p: EndpointPort) {
    e.name == p.name || (e.port == p.port && e.protocol == p.protocol)
  }

  /** The NodePort of the first existing port that is the same port, zero if there is none. */
  function PreservedNodePort(existing: seq<ServicePort>, p: EndpointPort): int {
    if existing == [] then 0
    else if SamePort(existing[0], p) then existing[0].nodePort
    else PreservedNodePort(existing[1..], p)
  }

  /** A port that keeps its name, or its number and protocol, keeps the node port of the first such port. */
  lemma {:induction false} NodePortSurvives(existing: seq<ServicePort>, p: EndpointPort, k: nat)
    requires k < |existing|
    requires existing[k].name == p.name || (existing[k].port == p.port && existing[k].protocol == p.protocol)
    requires forall e <- existing[..k] :: e.name != p.name && (e.port != p.port || e.protocol != p.protocol)
    ensures PreservedNodePort(existing, p) == existing[k].nodePort
  {
    if k > 0 {
      assert existing[0] in existing[..k];
      assert existing[1..][..k - 1] == existing[..k][1..];
      NodePortSurvives(existing[1..], p, k - 1);
    }
  }

  /** Any other port is left for Kubernetes to choose. */
  lemma {:induction false} FreshPortHasNone(existing: seq<ServicePort>, p: EndpointPort)
    requires forall e <- existing :: e.name != p.name && (e.port != p.port || e.protocol != p.protocol)
    ensures PreservedNodePort(existing, p) == 0
  {
    if existing != [] { FreshPortHasNone(existing[1..], p); }
  }

  function LookupOr(t: Table, ek: string, pk: string, fallback: int): int {
    if Has(t, ek, pk) then t[ek][pk] else fallback
  }

  function UpstreamPort(lb: LoadBalancer, i: nat): int
    requires lb.endpoints != [] && i < |lb.ports| <= |lb.endpoints[0].ports|
  {
    match PortByName(lb.endpoints[0].ports, lb.ports[i].name)
    case Some(port) => port
    case None => lb.endpoints[0].ports[i].port
  }

  function DesiredPort(lb: LoadBalancer, existing: seq<ServicePort>, t: Table, i: nat): ServicePort
    requires lb.endpoints != [] && i < |lb.ports| <= |lb.endpoints[0].ports|
  {
    var p := lb.ports[i];
    var upstream := UpstreamPort(lb, i);
    ServicePort(p.name, p.port, p.protocol,
                LookupOr(t, LbEndpointKey(lb.namespace, lb.name, 0), PortKey(upstream, p.protocol), upstream),
                PreservedNodePort(existing, p))
  }

  function DesiredPorts(lb: LoadBalancer, existing: seq<ServicePort>, t: Table): (r: seq<ServicePort>)
    requires lb.endpoints != [] ==> |lb.ports| <= |lb.endpoints[0].ports|
  {
    if lb.endpoints == [] then []
    else seq(|lb.ports|, i requires 0 <= i < |lb.ports| => DesiredPort(lb, existing, t, i))
  }

  /** The ports of a generated Service: the desired ones, in some order sorting by name may leave. */
  ghost predicate Created(lb: LoadBalancer, existing: seq<ServicePort>, t: Table, ports: seq<ServicePort>) {
    && (lb.endpoints != [] ==> |lb.ports| <= |lb.endpoints[0].ports|)
    && SortedPermutation(PortName, DesiredPorts(lb, existing, t), ports)
  }

  const PortName: ServicePort -> string := (p: ServicePort) => p.name

  method FindByName(ports: seq<EndpointPort>, name: string, fallback: int) returns (port: int)
    ensures port == match PortByName(ports, name) { case Some(p) => p case None => fallback }
  {
    for i := 0 to |ports|
      invariant PortByName(ports[i..], name) == PortByName(ports, name)
    {
      assert ports[i..][0] == ports[i] && ports[i..][1..] == ports[i + 1..];
      if ports[i].name == name { return ports[i].port; }
    }
    return fallback;
  }

  method FindNodePort(existing: seq<ServicePort>, p: EndpointPort) returns (nodePort: int)
    ensures nodePort == PreservedNodePort(existing, p)
  {
    for i := 0 to |existing|
      invariant PreservedNodePort(existing[i..], p) == PreservedNodePort(existing, p)
    {
      assert existing[i..][0] == existing[i] && existing[i..][1..] == existing[i + 1..];
      if SamePort(existing[i], p) { return existing[i].nodePort; }
    }
    return 0;
  }

  method CreateServicePort(lb: LoadBalancer, existing: seq<ServicePort>, t: Table, i: nat) returns (port: ServicePort)
    requires lb.endpoints != [] && i < |lb.ports| <= |lb.endpoints[0].ports|
    ensures port == DesiredPort(lb, existing, t, i)
  {
    var p := lb.ports[i];
    var upstream := FindByName(lb.endpoints[0].ports, p.name, lb.endpoints[0].ports[i].port);
    var nodePort := FindNodePort(existing, p);
    var target := LookupOr(t, LbEndpointKey(lb.namespace, lb.name, 0), PortKey(upstream, p.protocol), upstream);
    port := ServicePort(p.name, p.port, p.protocol, target, nodePort);
  }

  /** Fewer endpoint ports than service ports make the source index out of range. */
  method CreateServicePorts(lb: LoadBalancer, existing: seq<ServicePort>, t: Table) returns (ports: seq<ServicePort>)
    requires lb.endpoints != [] ==> |lb.ports| <= |lb.endpoints[0].ports|
    ensures Created(lb, existing, t, ports)
  {
    if lb.endpoints == [] { return []; }
    var desired := [];
    for i := 0 to |lb.ports|
      invariant |desired| == i && forall j | 0 <= j < i :: desired[j] == DesiredPort(lb, existing, t, j)
    {
      var port := CreateServicePort(lb, existing, t, i);
      desired := desired + [port];
    }
    assert desired == DesiredPorts(lb, existing, t);
    ports := SortBy(PortName, desired);
  }

  // ------------------------------------------------------------- buildServicePortStatus

  /** The upstream port of the first endpoint port with this name and protocol, zero if there is none. */
  function UpstreamOf(ports: seq<EndpointPort>, name: string, protocol: string): int {
    if ports == [] then 0
    else if ports[0].name == name && ports[0].protocol == protocol then ports[0].port
    else UpstreamOf(ports[1..], name, protocol)
  }

  function StatusOf(p: ServicePort, ports: seq<EndpointPort>): StatusPort {
    StatusPort(p, UpstreamOf(ports, p.name, p.protocol))
  }

  method BuildServicePortStatus(svcPorts: seq<ServicePort>, ports: seq<EndpointPort>) returns (status: seq<StatusPort>)
    ensures |status| == |svcPorts|
    ensures forall i | 0 <= i < |svcPorts| :: status[i] == StatusOf(svcPorts[i], ports)
  {
    status := [];
    for i := 0 to |svcPorts|
      invariant |status| == i && forall j | 0 <= j < i :: status[j] == StatusOf(svcPorts[j], ports)
    {
      var p, k := svcPorts[i], 0;
      while k < |ports| && !(ports[k].name == p.name && ports[k].protocol == p.protocol)
        invariant 0 <= k <= |ports|
                  && UpstreamOf(ports[k..], p.name, p.protocol) == UpstreamOf(ports, p.name, p.protocol)
      {
        assert ports[k..][0] == ports[k] && ports[k..][1..] == ports[k + 1..];
        k := k + 1;
      }
      status := status + [StatusPort(p, if k < |ports| then ports[k].port else 0)];
    }
  }

  // ------------------------------------------------------------- pairing

  /** One endpoint subset whose ports pair up with the front ports by name and protocol, names distinct. */
  ghost predicate Paired(lb: LoadBalancer) {
    && |lb.endpoints| == 1 && |lb.ports| == |lb.endpoints[0].ports|
    && (forall i | 0 <= i < |lb.ports| ::
          lb.ports[i].name == lb.endpoints[0].ports[i].name
            && lb.ports[i].protocol == lb.endpoints[0].ports[i].protocol)
    && (forall i, j | 0 <= i < j < |lb.ports| :: lb.ports[i].name != lb.ports[j].name)
  }

  lemma MappedIsPaired(svc: Service, addresses: seq<Address>, reference: Option<string>, tenant: string)
    requires forall i, j | 0 <= i < j < |svc.ports| :: MappedName(svc.ports[i]) != MappedName(svc.ports[j])
    ensures Paired(Mapped(svc, addresses, reference, tenant))
  {}

  /** In a paired load balancer each front port finds its own endpoint port, wherever sorting put it. */
  lemma PairedUpstream(lb: LoadBalancer, i: nat)
    requires Paired(lb) && i < |lb.ports|
    ensures UpstreamPort(lb, i) == lb.endpoints[0].ports[i].port
  {
    var ports := lb.endpoints[0].ports;
    assert ports[i] in ports && ports[i].name == lb.ports[i].name;
    var r := PortByName(ports, lb.ports[i].name);
    assert r.Some?;
    var p :| p in ports && p.name == lb.ports[i].name && p.port == r.value;
    var j :| 0 <= j < |ports| && ports[j] == p;
    assert lb.ports[j].name == lb.ports[i].name;
  }
}
