/**
 What `LoadState` reads back: each persisted status turns into writes to an empty
 table, later writes winning, and the table is what those writes leave.
 */
module PersistedPorts {
  import opened Api
  import opened Keys
  import opened Lists
  import opened PortTable

  datatype Write = Touch(ek: string) | Put(ek: string, pk: string, port: int)

  function Apply1(t: Table, w: Write): Table {
    var row := if w.ek in t then t[w.ek] else map[];
    match w
    case Touch(ek) => t[ek := row]
    case Put(ek, pk, port) => t[ek := row[pk := port]]
  }

  function Apply(t: Table, ws: seq<Write>): Table {
    if ws == [] then t else Apply1(Apply(t, ws[..|ws| - 1]), ws[|ws| - 1])
  }

  lemma {:induction false} ApplyConcat(t: Table, vs: seq<Write>, ws: seq<Write>)
    ensures Apply(t, vs + ws) == Apply(Apply(t, vs), ws)
  {
    if ws == [] {
      assert vs + ws == vs;
    } else {
      var n := |ws| - 1;
      ApplyConcat(t, vs, ws[..n]);
      assert (vs + ws)[..|vs + ws| - 1] == vs + ws[..n];
    }
  }

  /** One more round of a loop that writes as it goes. */
  lemma ApplyRound<T>(t: Table, f: T -> seq<Write>, xs: seq<T>, j: nat)
    requires j < |xs|
    ensures Apply(t, FlatMap(f, xs[..j + 1])) == Apply(Apply(t, FlatMap(f, xs[..j])), f(xs[j]))
  {
    FlatMapStep(f, xs, j);
    ApplyConcat(t, FlatMap(f, xs[..j]), f(xs[j]));
  }

  lemma ApplyOne(t: Table, w: Write)
    ensures Apply(t, [w]) == Apply1(t, w)
  {
    assert [w][..0] == [];
  }

  function Touched(t: Table, ek: string): Table {
    if ek in t then t else t[ek := map[]]
  }

  lemma ApplyTouch(t: Table, ek: string)
    ensures Apply(t, [Touch(ek)]) == Touched(t, ek)
  {
    ApplyOne(t, Touch(ek));
    if ek in t { assert t[ek := t[ek]] == t; }
  }

  /** Every write puts, at its key, what `t` holds there. */
  ghost predicate Agrees(ws: seq<Write>, t: Table) {
    forall w <- ws :: w.ek in t && (w.Put? ==> Has(t, w.ek, w.pk) && t[w.ek][w.pk] == w.port)
  }

  lemma {:induction false} ApplyTouches(ws: seq<Write>, ek: string)
    ensures ek in Apply(map[], ws) <==> exists w :: w in ws && w.ek == ek
  {
    if ws != [] {
      var n := |ws| - 1;
      ApplyTouches(ws[..n], ek);
      assert ws == ws[..n] + [ws[n]];
    }
  }

  /** Writes that agree with a table rebuild exactly the part of it they mention. */
  lemma {:induction false} ApplyAgreeing(ws: seq<Write>, t: Table, ek: string, pk: string)
    requires Agrees(ws, t)
    ensures Has(Apply(map[], ws), ek, pk) <==> Has(t, ek, pk) && Put(ek, pk, t[ek][pk]) in ws
    ensures Has(Apply(map[], ws), ek, pk) ==> Apply(map[], ws)[ek][pk] == t[ek][pk]
  {
    if ws != [] {
      var n := |ws| - 1;
      assert ws[n] in ws;
      ApplyAgreeing(ws[..n], t, ek, pk);
      assert ws == ws[..n] + [ws[n]];
    }
  }

  // ------------------------------------------------------------- load balancers

  /** Match by name and protocol when either side is named, else by upstream port and protocol. */
  predicate StatusMatches(s: StatusPort, p: EndpointPort) {
    s.port.protocol == p.protocol &&
    if p.name != "" || s.port.name != "" then s.port.name == p.name
    else s.upstreamTargetPort == p.port
  }

  /** The first status port that matches, which is where the search loop breaks. */
  function PersistedPort(status: seq<StatusPort>, p: EndpointPort): (r: Option<int>)
    ensures r.None? <==> forall s <- status :: !StatusMatches(s, p)
    ensures r.Some? ==> exists s <- status :: StatusMatches(s, p) && r.value == s.port.targetPort
  {
    if status == [] then None
    else if StatusMatches(status[0], p) then Some(status[0].port.targetPort)
    else PersistedPort(status[1..], p)
  }

  function PortWrites(ek: string, status: seq<StatusPort>, p: EndpointPort): seq<Write> {
    match PersistedPort(status, p)
    case None => []
    case Some(port) => [Put(ek, PortKey(p.port, p.protocol), port)]
  }

  function PortWriter(ek: string, status: seq<StatusPort>): EndpointPort -> seq<Write> {
    p => PortWrites(ek, status, p)
  }

  function EndpointWrites(lb: LoadBalancer, i: nat): seq<Write>
    requires i < |lb.endpoints|
  {
    var ek := LbEndpointKey(lb.namespace, lb.name, i);
    [Touch(ek)] + FlatMap(PortWriter(ek, lb.status), lb.endpoints[i].ports)
  }

  function EndpointWriter(lb: LoadBalancer): nat -> seq<Write> {
    (i: nat) => if i < |lb.endpoints| then EndpointWrites(lb, i) else []
  }

  function LbWrites(lb: LoadBalancer): seq<Write> {
    Gather(EndpointWriter(lb), |lb.endpoints|)
  }

  // ------------------------------------------------------------- routes

  /** The source route's name, else the origin label, else the Route's own name. */
  function OriginalRouteName(route: Route): string {
    if route.source.Some? && route.source.value.name != "" then route.source.value.name
    else if Get(route.labels, LABEL_ORIGIN_NAME) != "" then Get(route.labels, LABEL_ORIGIN_NAME)
    else route.name
  }

  /** `GetName` and `GetServiceName`: the origin label when present, even if empty. */
  function OriginName(svc: Service): string {
    if LABEL_ORIGIN_NAME in svc.labels then svc.labels[LABEL_ORIGIN_NAME] else svc.name
  }

  /** Where a reload and the cleanup look for a backend's status: under its own namespace. */
  function LookupKey(svc: Service): string { ServiceStatusKey(svc.namespace, OriginName(svc)) }

  function SvcEndpointKey(route: Route, svc: Service): string {
    RouteEndpointKey(route.namespace, svc.namespace, svc.name, OriginalRouteName(route))
  }

  function ServicePortWriter(ek: string): ServicePort -> seq<Write> {
    (p: ServicePort) => [Put(ek, PortKey(p.port, p.protocol), p.targetPort)]
  }

  function ServiceWrites(route: Route, svc: Service): seq<Write> {
    var ek := SvcEndpointKey(route, svc);
    var key := LookupKey(svc);
    [Touch(ek)] +
    if key in route.serviceStatus then FlatMap(ServicePortWriter(ek), route.serviceStatus[key]) else []
  }

  function ServiceWriter(route: Route): Service -> seq<Write> {
    svc => ServiceWrites(route, svc)
  }

  function RouteWrites(route: Route): seq<Write> {
    match route.source
    case None => []
    case Some(source) => FlatMap(ServiceWriter(route), source.services)
  }

  function AllWrites(lbs: seq<LoadBalancer>, routes: seq<Route>): seq<Write> {
    FlatMap(LbWrites, lbs) + FlatMap(RouteWrites, routes)
  }
}
