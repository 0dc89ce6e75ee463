/** The API objects the control plane reads and writes, cut down to the fields that carry behaviour. */
module Api {
  datatype Option<+T> = None | Some(value: T)

  const TCP := "TCP"
  const UDP := "UDP"

  const LABEL_ORIGIN_NAME := "kubelb.k8c.io/origin-name"
  const LABEL_ORIGIN_NAMESPACE := "kubelb.k8c.io/origin-ns"
  const LABEL_APP_NAME := "app.kubernetes.io/name"
  const LABEL_TENANT_NAME := "kubelb.k8c.io/tenant"
  const ANNOTATION_PROXY_PROTOCOL := "kubelb.k8c.io/proxy-protocol"
  const LAST_APPLIED_CONFIG := "kubectl.kubernetes.io/last-applied-configuration"
  const LABEL_ORIGIN_KIND := "kubelb.k8c.io/origin-resource-kind"

  datatype Address = Address(ip: string, hostname: string)

  datatype EndpointPort = EndpointPort(name: string, port: int, protocol: string)

  /** `reference` is the name of an Addresses object; when set it replaces `addresses`. */
  datatype Endpoints = Endpoints(addresses: seq<Address>, reference: Option<string>, ports: seq<EndpointPort>)

  datatype ServicePort = ServicePort(name: string, port: int, protocol: string, targetPort: int, nodePort: int)

  datatype Service = Service(namespace: string, name: string, uid: string, labels: map<string, string>,
                             annotations: map<string, string>, serviceType: string, externalTrafficPolicy: string,
                             sourceIpAffinity: bool, selector: map<string, string>, ports: seq<ServicePort>)

  /** A port of the generated Service as recorded in a LoadBalancer status. */
  datatype StatusPort = StatusPort(port: ServicePort, upstreamTargetPort: int)

  datatype LoadBalancer = LoadBalancer(namespace: string, name: string, labels: map<string, string>,
                                       annotations: map<string, string>, serviceType: string,
                                       externalTrafficPolicy: string, sourceIpPersistence: bool,
                                       ports: seq<EndpointPort>, endpoints: seq<Endpoints>,
                                       status: seq<StatusPort>)

  /** The tenant object a Route was made from: its name, namespace, kind, TLS intent and backends. */
  datatype RouteSource = RouteSource(name: string, namespace: string, kind: string, tlsBackend: bool,
                                     services: seq<Service>)

  datatype Route = Route(namespace: string, name: string, labels: map<string, string>,
                         source: Option<RouteSource>, endpoints: seq<Endpoints>,
                         serviceStatus: map<string, seq<ServicePort>>)

  /** Go's `m[k]`, which is the empty string for a missing key. */
  function Get(m: map<string, string>, k: string): string {
    if k in m then m[k] else ""
  }
}
