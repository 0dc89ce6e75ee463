/**
 The key construction of the port mapper: which ports each LoadBalancer and Route asks
 for, and what a batch of such requests leaves in the table.
 */
module PortRequests {
  import opened Api
  import opened Keys
  import opened Lists
  import opened PortTable
  import opened PersistedPorts

  datatype Request = Request(ek: string, keys: seq<string>)

  function EndpointPortKey(p: EndpointPort): string { PortKey(p.port, p.protocol) }

  function ServicePortKey(p: ServicePort): string { PortKey(p.port, p.protocol) }

  function EndpointRequest(lb: LoadBalancer, i: nat): Request
    requires i < |lb.endpoints|
  {
    Request(LbEndpointKey(lb.namespace, lb.name, i),
            seq(|lb.endpoints[i].ports|,
              j requires 0 <= j < |lb.endpoints[i].ports| => EndpointPortKey(lb.endpoints[i].ports[j])))
  }

  function EndpointRequester(lb: LoadBalancer): nat -> seq<Request> {
    (i: nat) => if i < |lb.endpoints| then [EndpointRequest(lb, i)] else []
  }

  function LbRequests(lb: LoadBalancer): seq<Request> {
    Gather(EndpointRequester(lb), |lb.endpoints|)
  }

  function ServiceRequest(route: Route, svc: Service): Request {
    Request(SvcEndpointKey(route, svc),
            seq(|svc.ports|, j requires 0 <= j < |svc.ports| => ServicePortKey(svc.ports[j])))
  }

  function ServiceRequester(route: Route): Service -> seq<Request> {
    svc => [ServiceRequest(route, svc)]
  }

  function RouteRequests(route: Route): seq<Request> {
    match route.source
    case None => []
    case Some(source) => FlatMap(ServiceRequester(route), source.services)
  }

  function AllRequests(lbs: seq<LoadBalancer>, routes: seq<Route>): seq<Request> {
    FlatMap(LbRequests, lbs) + FlatMap(RouteRequests, routes)
  }

  // ------------------------------------------------------------- batches

  ghost predicate Serves(t: Table, r: Request, u: Table) {
    Allocated(t, r.ek, Elems(r.keys), u)
  }

  /** `u` is reached from `t` by serving the requests one after the other. */
  ghost predicate AllocatedAll(t: Table, rs: seq<Request>, u: Table) {
    Chain(Serves, t, rs, u)
  }

  function OpOf(r: Request): Op { Allocate(r.ek, Elems(r.keys)) }

  /** A batch is a run of the table, so what every run keeps, every batch keeps. */
  lemma TraceIsRun(ts: seq<Table>, rs: seq<Request>) returns (ops: seq<Op>)
    requires Trace(Serves, ts, rs)
    ensures Run(ts, ops) && forall op <- ops :: op.Allocate?
  {
    ops := seq(|rs|, i requires 0 <= i < |rs| => OpOf(rs[i]));
    forall i | 0 <= i < |ops| ensures Step(ts[i], ops[i], ts[i + 1]) {
      assert Serves(ts[i], rs[i], ts[i + 1]);
    }
  }

  /** The keys of the last request for `ek`. */
  function LastKeys(rs: seq<Request>, ek: string): Option<set<string>> {
    if rs == [] then None
    else if rs[|rs| - 1].ek == ek then Some(Elems(rs[|rs| - 1].keys))
    else LastKeys(rs[..|rs| - 1], ek)
  }

  /** Each endpoint ends with the keys of the last request for it; endpoints nobody asked for are untouched. */
  lemma {:induction false} TraceKeys(ts: seq<Table>, rs: seq<Request>, n: nat, ek: string)
    requires Trace(Serves, ts, rs) && n < |ts|
    ensures match LastKeys(rs[..n], ek) {
              case None => (ek in ts[n] <==> ek in ts[0]) && (ek in ts[0] ==> ts[n][ek] == ts[0][ek])
              case Some(keys) => ek in ts[n] && ts[n][ek].Keys == keys
            }
  {
    if n > 0 {
      TraceKeys(ts, rs, n - 1, ek);
      assert Serves(ts[n - 1], rs[n - 1], ts[n]);
      assert rs[..n][..n - 1] == rs[..n - 1];
    }
  }

  function EndpointsOf(rs: seq<Request>): set<string> { set r | r in rs :: r.ek }

  /** Releasing the endpoints of a batch undoes it, however its ports were drawn. */
  lemma ReleaseUndoesBatch(t: Table, rs: seq<Request>, u: Table)
    requires AllocatedAll(t, rs, u)
    ensures u - EndpointsOf(rs) == t - EndpointsOf(rs)
  {
    var ts :| Trace(Serves, ts, rs) && ts[0] == t && ts[|rs|] == u;
    forall ek | ek !in EndpointsOf(rs) ensures (ek in u <==> ek in t) && (ek in t ==> u[ek] == t[ek]) {
      TraceKeys(ts, rs, |rs|, ek);
      assert rs[..|rs|] == rs;
      LastKeysFrom(rs, ek);
    }
  }

  lemma {:induction false} LastKeysFrom(rs: seq<Request>, ek: string)
    ensures LastKeys(rs, ek).Some? ==> exists r :: r in rs && r.ek == ek && LastKeys(rs, ek).value == Elems(r.keys)
    ensures LastKeys(rs, ek).None? ==> forall r <- rs :: r.ek != ek
  {
    if rs != [] {
      var n := |rs| - 1;
      LastKeysFrom(rs[..n], ek);
      assert rs == rs[..n] + [rs[n]];
    }
  }

  /** Every endpoint has exactly the ports each request for it names. */
  ghost predicate Served(t: Table, rs: seq<Request>) {
    forall r <- rs :: r.ek in t && KeysOf(t, r.ek) == Elems(r.keys)
  }

  /** The table has every key of the request. */
  ghost predicate Granted(t: Table, r: Request) {
    r.ek in t && forall i | 0 <= i < |r.keys| :: Has(t, r.ek, r.keys[i])
  }

  /** No two requests for one endpoint disagree about its ports. */
  ghost predicate Compatible(rs: seq<Request>) {
    forall r <- rs, s <- rs | r.ek == s.ek :: Elems(r.keys) == Elems(s.keys)
  }

  /** A batch serves all its requests exactly when no two of them fight over an endpoint key. */
  lemma BatchServesIff(t: Table, rs: seq<Request>, u: Table)
    requires AllocatedAll(t, rs, u)
    ensures Served(u, rs) <==> Compatible(rs)
  {
    if Compatible(rs) {
      var ts :| Trace(Serves, ts, rs) && ts[0] == t && ts[|rs|] == u;
      assert rs[..|rs|] == rs;
      forall r <- rs ensures r.ek in u && KeysOf(u, r.ek) == Elems(r.keys) {
        TraceKeys(ts, rs, |rs|, r.ek);
        LastKeysFrom(rs, r.ek);
      }
    }
  }

  /** A batch keeps ports apart, and leaves the endpoints nobody asked for as they were. */
  lemma BatchKeepsInvariants(t: Table, rs: seq<Request>, u: Table)
    requires AllocatedAll(t, rs, u)
    ensures PortsDistinct(t) ==> PortsDistinct(u)
    ensures EndpointsDisjoint(t) ==> EndpointsDisjoint(u)
    ensures forall ek <- t | (forall r <- rs :: r.ek != ek) :: ek in u && u[ek] == t[ek]
  {
    var ts :| Trace(Serves, ts, rs) && ts[0] == t && ts[|rs|] == u;
    var ops := TraceIsRun(ts, rs);
    if PortsDistinct(t) { RunKeepsPortsDistinct(ts, ops, |rs|); }
    if EndpointsDisjoint(t) { RunKeepsEndpointsDisjoint(ts, ops, |rs|); }
    forall ek <- t | (forall r <- rs :: r.ek != ek) ensures ek in u && u[ek] == t[ek] {
      TraceKeys(ts, rs, |rs|, ek);
      LastKeysFrom(rs[..|rs|], ek);
    }
  }

  lemma {:induction false} ServedTraceIsConstant(ts: seq<Table>, rs: seq<Request>, n: nat)
    requires Trace(Serves, ts, rs) && n < |ts| && Served(ts[0], rs)
    ensures ts[n] == ts[0]
  {
    if n > 0 {
      ServedTraceIsConstant(ts, rs, n - 1);
      assert Serves(ts[n - 1], rs[n - 1], ts[n]) && rs[n - 1] in rs;
      AllocationIsIdempotent(ts[0], rs[n - 1].ek, ts[n]);
    }
  }

  /** Serving a served batch again changes nothing. */
  lemma ServedBatchIsIdempotent(t: Table, rs: seq<Request>, u: Table)
    requires Served(t, rs) && AllocatedAll(t, rs, u)
    ensures u == t
  {
    var ts :| Trace(Serves, ts, rs) && ts[0] == t && ts[|rs|] == u;
    ServedTraceIsConstant(ts, rs, |rs|);
  }

  // ------------------------------------------------------------- capacity

  /** The port keys each endpoint has. */
  function Shape(t: Table): map<string, set<string>> { map ek | ek in t :: t[ek].Keys }

  function KeysAt(shape: map<string, set<string>>, ek: string): set<string> { if ek in shape then shape[ek] else {} }

  /** How many ports a batch draws: for each request, the keys its endpoint lacks when its turn comes. */
  function Demand(shape: map<string, set<string>>, rs: seq<Request>): nat
    decreases rs
  {
    if rs == [] then 0
    else |Elems(rs[0].keys) - KeysAt(shape, rs[0].ek)| + Demand(shape[rs[0].ek := Elems(rs[0].keys)], rs[1..])
  }

  /** The pool holds what a batch draws. */
  ghost predicate Fits(t: Table, rs: seq<Request>) {
    |UsedInPool(Ports(t))| + Demand(Shape(t), rs) <= POOL_SIZE
  }

  lemma ShapeStep(t: Table, r: Request, u: Table)
    requires Serves(t, r, u)
    ensures Shape(u) == Shape(t)[r.ek := Elems(r.keys)]
  {
    assert Shape(u).Keys == Shape(t)[r.ek := Elems(r.keys)].Keys;
  }

  lemma DemandStep(shape: map<string, set<string>>, r: Request, rs: seq<Request>)
    ensures Demand(shape, [r] + rs) == |Elems(r.keys) - KeysAt(shape, r.ek)| + Demand(shape[r.ek := Elems(r.keys)], rs)
  {
    assert ([r] + rs)[1..] == rs;
  }

  lemma FitsStep(t: Table, r: Request, rs: seq<Request>, u: Table)
    requires Fits(t, [r] + rs) && Serves(t, r, u)
    ensures Fits(u, rs)
  {
    DemandStep(Shape(t), r, rs);
    ShapeStep(t, r, u);
    AllocationUsage(t, r.ek, Elems(r.keys), u);
  }

  lemma FitsFirst(t: Table, r: Request, rs: seq<Request>)
    requires Fits(t, [r] + rs)
    ensures |UsedInPool(Ports(t))| + |Elems(r.keys) - KeysOf(t, r.ek)| <= POOL_SIZE
  {
    DemandStep(Shape(t), r, rs);
  }

  /** A settled namespace draws nothing, however full the pool. */
  lemma {:induction false} ServedDemandsNothing(shape: map<string, set<string>>, rs: seq<Request>)
    requires forall r <- rs :: r.ek in shape && shape[r.ek] == Elems(r.keys)
    ensures Demand(shape, rs) == 0
  {
    if rs != [] {
      assert shape[rs[0].ek := Elems(rs[0].keys)] == shape;
      ServedDemandsNothing(shape, rs[1..]);
    }
  }

  /** So a served batch always fits again. */
  lemma ServedBatchFits(t: Table, rs: seq<Request>)
    requires Served(t, rs)
    ensures Fits(t, rs)
  {
    ServedDemandsNothing(Shape(t), rs);
    PoolBound(Ports(t));
  }

  /** There are no more pool ports than the pool has. */
  lemma PoolBound(used: set<int>)
    ensures |UsedInPool(used)| <= POOL_SIZE
  {
    IntervalBound(UsedInPool(used), START_PORT, POOL_SIZE);
  }

  lemma {:induction false} IntervalBound(s: set<int>, first: int, n: nat)
    requires forall p <- s :: first <= p < first + n
    ensures |s| <= n
  {
    if n == 0 {
      assert forall p :: p !in s;
      SubsetIsNoLarger(s, {});
    } else {
      var last := first + n - 1;
      IntervalBound(s - {last}, first, n - 1);
      SubsetIsNoLarger(s, (s - {last}) + {last});
    }
  }

  lemma {:induction false} ImageIsNoLarger(m: map<string, int>, keys: set<string>)
    requires keys <= m.Keys
    ensures |set k <- keys :: m[k]| <= |keys|
  {
    if keys != {} {
      var k :| k in keys;
      ImageIsNoLarger(m, keys - {k});
      assert (set l <- keys :: m[l]) == (set l <- keys - {k} :: m[l]) + {m[k]};
    }
  }

  lemma SubsetIsNoLarger<T>(a: set<T>, b: set<T>)
    requires a <= b
    ensures |a| <= |b|
  {
    assert b == a + (b - a);
  }

  /** Whatever is used after an allocation was used before or belongs to a key that was missing. */
  lemma UsedBeforeOrDrawn(t: Table, ek: string, keys: set<string>, u: Table, p: int)
    requires Allocated(t, ek, keys, u) && p in Ports(u)
    ensures p in Ports(t) || exists k <- keys - KeysOf(t, ek) :: u[ek][k] == p
  {
    var e, k :| e in u && k in u[e] && u[e][k] == p;
    if Has(t, e, k) { PortIn(t, e, k); }
  }

  /** An allocation takes at most one pool port per key it has to add. */
  lemma AllocationUsage(t: Table, ek: string, keys: set<string>, u: Table)
    requires Allocated(t, ek, keys, u)
    ensures |UsedInPool(Ports(u))| <= |UsedInPool(Ports(t))| + |keys - KeysOf(t, ek)|
  {
    var missing := keys - KeysOf(t, ek);
    var drawn := set k <- missing :: u[ek][k];
    forall p <- UsedInPool(Ports(u)) ensures p in UsedInPool(Ports(t)) + drawn { UsedBeforeOrDrawn(t, ek, keys, u, p); }
    SubsetIsNoLarger(UsedInPool(Ports(u)), UsedInPool(Ports(t)) + drawn);
    ImageIsNoLarger(u[ek], missing);
  }
}
