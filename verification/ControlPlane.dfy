/** The Envoy control plane: allocate, map, compare versions, publish. */
module ControlPlane {
  import opened Api
  import opened Delivery
  import opened Envoy
  import opened Lists
  import opened PortAllocation
  import opened PortRequests
  import opened PortTable
  import opened SnapshotProperties

  datatype Outcome = Cleared | Failed | Unchanged | Published

  datatype Versioned = Versioned(version: string, snapshot: Resources)

  type SnapshotCache = map<string, Versioned>

  /** `updateCache` against a table: publish unless the version is the cached one. */
  ghost predicate UpdateStep(w: World, hash: Resources -> string, namespace: string, lbs: seq<LoadBalancer>,
                             routes: seq<Route>,
                             t: Table, cache: SnapshotCache, cache': SnapshotCache, outcome: Outcome) {
    if !Resolvable(w, lbs, routes) then outcome == Failed && cache' == cache
    else exists s ::
      && SnapshotOf(w, t, Slots(w, lbs, routes), s)
      && if namespace in cache && cache[namespace].version == hash(s)
         then outcome == Unchanged && cache' == cache
         else outcome == Published && cache' == cache[namespace := Versioned(hash(s), s)]
  }

  /** One reconciliation of a namespace: the tables and caches before and after. */
  ghost predicate ReconcileStep(w: World, hash: Resources -> string, namespace: string, lbs: seq<LoadBalancer>,
                                routes: seq<Route>,
                                t: Table, cache: SnapshotCache, t': Table, cache': SnapshotCache, outcome: Outcome) {
    if lbs == [] && routes == [] then outcome == Cleared && t' == t && cache' == cache - {namespace}
    else
      && AllocatedAll(t, AllRequests(lbs, routes), t')
      && UpdateStep(w, hash, namespace, lbs, routes, t', cache, cache', outcome)
  }

  class EnvoyControlPlane {
    const allocator: PortAllocator
    const hash: Resources -> string
    var cache: SnapshotCache

    constructor (allocator: PortAllocator, hash: Resources -> string)
      ensures this.allocator == allocator && this.hash == hash && cache == map[]
    {
      this.allocator, this.hash, cache := allocator, hash, map[];
    }

    /** The consistency check before publishing is there and never fails. */
    method UpdateCache(w: World, namespace: string, lbs: seq<LoadBalancer>, routes: seq<Route>)
      returns (outcome: Outcome)
      requires InNamespace(namespace, lbs, routes)
      modifies this
      ensures UpdateStep(w, hash, namespace, lbs, routes, allocator.portLookup, old(cache), cache, outcome)
    {
      var desired := MapSnapshot(w, allocator.portLookup, namespace, lbs, routes);
      if desired.None? { return Failed; }
      var s := desired.value;
      if namespace in cache && cache[namespace].version == hash(s) { return Unchanged; }
      SnapshotIsConsistent(w, allocator.portLookup, Slots(w, lbs, routes), s);
      var ok := Consistent(s);
      cache := if ok then cache[namespace := Versioned(hash(s), s)] else cache;
      outcome := if ok then Published else Failed;
    }

    method Reconcile(w: World, namespace: string, lbs: seq<LoadBalancer>, routes: seq<Route>) returns (outcome: Outcome)
      requires InNamespace(namespace, lbs, routes) && allocator.Valid()
      requires Fits(allocator.portLookup, AllRequests(lbs, routes))
      modifies this, allocator
      ensures allocator.Valid()
      ensures ReconcileStep(w, hash, namespace, lbs, routes, old(allocator.portLookup), old(cache),
                            allocator.portLookup, cache, outcome)
    {
      if lbs == [] && routes == [] {
        cache := cache - {namespace};
        return Cleared;
      }
      ghost var t := allocator.portLookup;
      allocator.AllocatePortsForLoadBalancers(lbs, FlatMap(RouteRequests, routes));
      ghost var m := allocator.portLookup;
      allocator.AllocatePortsForRoutes(routes);
      ChainConcat(Serves, t, FlatMap(LbRequests, lbs), m, FlatMap(RouteRequests, routes), allocator.portLookup);
      outcome := UpdateCache(w, namespace, lbs, routes);
    }
  }

  lemma RequestsPermute(lbs: seq<LoadBalancer>, lbs': seq<LoadBalancer>, routes: seq<Route>, routes': seq<Route>)
    requires multiset(lbs) == multiset(lbs') && multiset(routes) == multiset(routes')
    ensures multiset(AllRequests(lbs, routes)) == multiset(AllRequests(lbs', routes'))
  {
    FlatMapPermutes(LbRequests, lbs, lbs');
    FlatMapPermutes(RouteRequests, routes, routes');
  }

  lemma ServedPermutes(t: Table, rs: seq<Request>, rs': seq<Request>)
    requires Served(t, rs) && multiset(rs) == multiset(rs')
    ensures Served(t, rs')
  {
    forall r <- rs' ensures r in rs { PermutationMember(rs, rs', r); }
  }

  lemma ResolvablePermutes(w: World, lbs: seq<LoadBalancer>, lbs': seq<LoadBalancer>, routes: seq<Route>,
                           routes': seq<Route>)
    requires multiset(lbs) == multiset(lbs') && multiset(routes) == multiset(routes') && Resolvable(w, lbs, routes)
    ensures Resolvable(w, lbs', routes')
  {
    forall lb <- lbs' ensures lb in lbs { PermutationMember(lbs, lbs', lb); }
    forall route <- routes' ensures route in routes { PermutationMember(routes, routes', route); }
  }

  /** The tables have the same rows for the endpoints of the requests. */
  ghost predicate AgreeOn(t: Table, u: Table, rs: seq<Request>) {
    forall r <- rs :: (r.ek in t <==> r.ek in u) && (r.ek in t ==> t[r.ek] == u[r.ek])
  }

  ghost predicate AgreeAt(c: SnapshotCache, d: SnapshotCache, namespace: string) {
    (namespace in c <==> namespace in d) && (namespace in c ==> c[namespace] == d[namespace])
  }

  /** Allocations for other endpoints, such as other namespaces make, keep those rows. */
  lemma OthersKeepAgreement(t: Table, qs: seq<Request>, u: Table, rs: seq<Request>)
    requires AllocatedAll(t, qs, u) && EndpointsOf(qs) !! EndpointsOf(rs)
    ensures AgreeOn(t, u, rs)
  {
    var others := EndpointsOf(qs);
    ReleaseUndoesBatch(t, qs, u);
    forall r <- rs ensures (r.ek in t <==> r.ek in u) && (r.ek in t ==> t[r.ek] == u[r.ek]) {
      assert r.ek in EndpointsOf(rs);
      assert r.ek in t <==> r.ek in t - others;
      assert r.ek in u <==> r.ek in u - others;
      assert r.ek in t ==> (t - others)[r.ek] == t[r.ek] && (u - others)[r.ek] == u[r.ek];
    }
  }

  /** A snapshot reads nothing else of the table. */
  lemma SnapshotReadsItsRows(w: World, t: Table, u: Table, lbs: seq<LoadBalancer>, routes: seq<Route>, s: Resources)
    requires AgreeOn(t, u, AllRequests(lbs, routes)) && SnapshotOf(w, u, Slots(w, lbs, routes), s)
    ensures SnapshotOf(w, t, Slots(w, lbs, routes), s)
  {
    var slots := Slots(w, lbs, routes);
    forall x <- slots ensures Listening(t)(x) == Listening(u)(x) {
      var r := SlotIsAskedFor(w, lbs, routes, x);
    }
    FlatMapSame(Listening(t), Listening(u), slots);
  }

  /** A pass that succeeded leaves the version of a snapshot of its table in the cache. */
  lemma SuccessIsCached(w: World, hash: Resources -> string, namespace: string, lbs: seq<LoadBalancer>,
                        routes: seq<Route>, t: Table, c: SnapshotCache, c': SnapshotCache, o: Outcome)
    returns (s: Resources)
    requires UpdateStep(w, hash, namespace, lbs, routes, t, c, c', o) && (o == Unchanged || o == Published)
    ensures Resolvable(w, lbs, routes) && SnapshotOf(w, t, Slots(w, lbs, routes), s)
    ensures namespace in c' && c'[namespace].version == hash(s)
  {
    s :| SnapshotOf(w, t, Slots(w, lbs, routes), s)
      && if namespace in c && c[namespace].version == hash(s)
         then o == Unchanged && c' == c
         else o == Published && c' == c[namespace := Versioned(hash(s), s)];
  }

  /** A pass whose every snapshot has the cached version publishes nothing. */
  lemma CachedIsUnchanged(w: World, hash: Resources -> string, namespace: string, lbs: seq<LoadBalancer>,
                          routes: seq<Route>, t: Table, c: SnapshotCache, c': SnapshotCache, o: Outcome, s: Resources)
    requires UpdateStep(w, hash, namespace, lbs, routes, t, c, c', o) && Resolvable(w, lbs, routes)
    requires namespace in c && c[namespace].version == hash(s)
    requires forall s' :: SnapshotOf(w, t, Slots(w, lbs, routes), s') ==> s' == s
    ensures o == Unchanged && c' == c
  {}

  lemma ServedElsewhere(t: Table, u: Table, rs: seq<Request>)
    requires Served(t, rs) && AgreeOn(t, u, rs)
    ensures Served(u, rs)
  {}

  lemma AgreePermutes(t: Table, u: Table, rs: seq<Request>, rs': seq<Request>)
    requires AgreeOn(t, u, rs) && multiset(rs) == multiset(rs')
    ensures AgreeOn(t, u, rs')
  {
    forall r <- rs' ensures r in rs { PermutationMember(rs, rs', r); }
  }

  /** The table part: the second pass finds every request served and moves nothing. */
  lemma SecondPassMovesNothing(lbs: seq<LoadBalancer>, routes: seq<Route>, lbs': seq<LoadBalancer>, routes': seq<Route>,
                               t0: Table, t1: Table, u: Table, t2: Table)
    requires multiset(lbs) == multiset(lbs') && multiset(routes) == multiset(routes')
    requires Compatible(AllRequests(lbs, routes)) && AllocatedAll(t0, AllRequests(lbs, routes), t1)
    requires AgreeOn(t1, u, AllRequests(lbs, routes)) && AllocatedAll(u, AllRequests(lbs', routes'), t2)
    ensures t2 == u && AgreeOn(t1, u, AllRequests(lbs', routes'))
  {
    BatchServesIff(t0, AllRequests(lbs, routes), t1);
    RequestsPermute(lbs, lbs', routes, routes');
    ServedElsewhere(t1, u, AllRequests(lbs, routes));
    ServedPermutes(u, AllRequests(lbs, routes), AllRequests(lbs', routes'));
    ServedBatchIsIdempotent(u, AllRequests(lbs', routes'), t2);
    AgreePermutes(t1, u, AllRequests(lbs, routes), AllRequests(lbs', routes'));
  }

  /**
   A reconciliation that succeeded settles: the next one over the same objects, listed in any
   order, moves no port, publishes nothing and leaves the cache alone, whatever happened to other
   endpoints and other namespaces in between.
   */
  lemma SecondReconcilePublishesNothing(
      w: World, hash: Resources -> string, namespace: string,
      lbs: seq<LoadBalancer>, routes: seq<Route>, lbs': seq<LoadBalancer>, routes': seq<Route>,
      t0: Table, c0: SnapshotCache, t1: Table, c1: SnapshotCache, o1: Outcome,
      u: Table, d: SnapshotCache, t2: Table, c2: SnapshotCache, o2: Outcome)
    requires multiset(lbs) == multiset(lbs') && multiset(routes) == multiset(routes')
    requires Compatible(AllRequests(lbs, routes)) && DistinctBy(SlotName, Slots(w, lbs, routes))
    requires ReconcileStep(w, hash, namespace, lbs, routes, t0, c0, t1, c1, o1) && (o1 == Unchanged || o1 == Published)
    requires AgreeOn(t1, u, AllRequests(lbs, routes)) && AgreeAt(c1, d, namespace)
    requires ReconcileStep(w, hash, namespace, lbs', routes', u, d, t2, c2, o2)
    ensures o2 == Unchanged && t2 == u && c2 == d
  {
    assert |lbs| == |multiset(lbs)| == |lbs'| && |routes| == |multiset(routes)| == |routes'|;
    SecondPassMovesNothing(lbs, routes, lbs', routes', t0, t1, u, t2);
    ResolvablePermutes(w, lbs, lbs', routes, routes');
    var s := SuccessIsCached(w, hash, namespace, lbs, routes, t1, c0, c1, o1);
    forall s' | SnapshotOf(w, u, Slots(w, lbs', routes'), s') ensures s' == s {
      SnapshotReadsItsRows(w, t1, u, lbs', routes', s');
      SnapshotIsOrderIndependent(w, t1, lbs, lbs', routes, routes', s, s');
    }
    CachedIsUnchanged(w, hash, namespace, lbs', routes', u, d, c2, o2, s);
  }

  /** From a duplicate-free table, one reconciliation of compatible requests settles the namespace. */
  lemma ReconcileSettles(w: World, t: Table, lbs: seq<LoadBalancer>, routes: seq<Route>, t': Table)
    requires PortsDistinct(t) && AllocatedAll(t, AllRequests(lbs, routes), t')
    requires DistinctBy(SlotName, Slots(w, lbs, routes)) && DistinctBy(EntryOf, BoundSlots(Slots(w, lbs, routes)))
    ensures Settled(w, t', lbs, routes) <==> Compatible(AllRequests(lbs, routes))
  {
    BatchServesIff(t, AllRequests(lbs, routes), t');
    BatchKeepsInvariants(t, AllRequests(lbs, routes), t');
  }
}
