/** The port allocator: its two tables, the operations that change them, and reload from persisted statuses. */
module PortAllocation {
  import opened Api
  import opened Keys
  import opened Lists
  import opened PersistedPorts
  import opened PortRequests
  import opened PortTable
  import opened Text

  ghost predicate Recurs(draws: nat -> int, port: int, from: nat) {
    exists j :: from <= j && draws(j) == port
  }

  /** The random source: every draw is in the pool and every pool port keeps coming up. */
  ghost predicate Fair(draws: nat -> int) {
    && (forall i: nat :: InPool(draws(i)))
    && (forall port, from: nat | InPool(port) :: Recurs(draws, port, from))
  }

  type Row = map<string, int>

  function RowOf(t: Table, ek: string): Row {
    if ek in t then t[ek] else map[]
  }

  /** Halfway through an allocation: missing keys added with fresh ports, unwanted ones not yet dropped. */
  ghost predicate Grown(had: Row, used: set<int>, keys: set<string>, row: Row) {
    && row.Keys == had.Keys + keys
    && (forall k <- had :: row[k] == had[k])
    && (forall k <- row | k !in had :: InPool(row[k]) && row[k] !in used)
    && (forall k <- row, l <- row | k !in had && l !in had && row[k] == row[l] :: k == l)
  }

  /** While the batch runs, the reverse set also holds the ports it has just handed out. */
  ghost predicate Growing(had: Row, used: set<int>, keys: set<string>, row: Row, reverse: set<int>) {
    Grown(had, used, keys, row) && used <= reverse && forall k <- row | k !in had :: row[k] in reverse
  }

  /** The pool has a port for every wanted key that is still missing. */
  ghost predicate Room(reverse: set<int>, wanted: set<string>, have: set<string>) {
    |UsedInPool(reverse)| + |wanted - have| <= POOL_SIZE
  }

  lemma TakeRoom(reverse: set<int>, wanted: set<string>, row: Row, k: string, port: int)
    requires k in wanted && k !in row && Room(reverse, wanted, row.Keys)
    ensures |UsedInPool(reverse)| < POOL_SIZE
    ensures Room(reverse + {port}, wanted, row[k := port].Keys)
  {
    assert wanted - row.Keys == wanted - row[k := port].Keys + {k};
    SubsetIsNoLarger(UsedInPool(reverse + {port}), UsedInPool(reverse) + {port});
  }

  lemma GrowOne(had: Row, used: set<int>, keys: set<string>, row: Row, reverse: set<int>, k: string, port: int)
    requires Growing(had, used, keys, row, reverse) && k !in row
    requires InPool(port) && port !in reverse
    ensures Growing(had, used, keys + {k}, row[k := port], reverse + {port})
  {}

  lemma GrowAgain(had: Row, used: set<int>, keys: set<string>, row: Row, reverse: set<int>, k: string)
    requires Growing(had, used, keys, row, reverse) && k in row
    ensures Growing(had, used, keys + {k}, row, reverse)
  {
    assert row.Keys == had.Keys + (keys + {k});
  }

  lemma PruneGrown(t: Table, ek: string, keys: set<string>, row: Row)
    requires Grown(RowOf(t, ek), Ports(t), keys, row)
    ensures Allocated(t, ek, keys, t[ek := row - (row.Keys - keys)])
  {}

  /** The second loop of an allocation, over the keys in Go's arbitrary map order. */
  method DropUnwanted(row: Row, portKeys: seq<string>) returns (kept: Row, pruned: bool)
    ensures kept == row - (row.Keys - Elems(portKeys))
    ensures pruned <==> !(row.Keys <= Elems(portKeys))
  {
    kept, pruned := row, false;
    var rest := row.Keys;
    while rest != {}
      invariant rest <= row.Keys
      invariant forall k :: k in kept <==> k in row && (k in rest || k in portKeys)
      invariant forall k <- kept :: kept[k] == row[k]
      invariant pruned <==> !(row.Keys - rest <= Elems(portKeys))
    {
      var k :| k in rest;
      assert k in row.Keys - (rest - {k});
      if k !in portKeys {
        kept, pruned := kept - {k}, true;
      }
      rest := rest - {k};
    }
  }

  lemma EndpointsOfConcat(rs: seq<Request>, qs: seq<Request>)
    ensures EndpointsOf(rs + qs) == EndpointsOf(rs) + EndpointsOf(qs)
  {}

  class PortAllocator {
    var portLookup: Table
    var portLookupReverse: set<int>

    /** The stream behind `rand.Intn`, and how much of it is consumed. */
    const draws: nat -> int
    var drawn: nat

    ghost predicate Valid()
      reads this
    {
      portLookupReverse == Ports(portLookup) && Fair(draws)
    }

    constructor (draws: nat -> int)
      requires Fair(draws)
      ensures Valid() && portLookup == map[] && this.draws == draws
    {
      portLookup, portLookupReverse, drawn := map[], {}, 0;
      this.draws := draws;
    }

    method Lookup(ek: string, pk: string) returns (port: int, found: bool)
      ensures found <==> Has(portLookup, ek, pk)
      ensures port == if found then portLookup[ek][pk] else -1
    {
      if ek in portLookup && pk in portLookup[ek] { return portLookup[ek][pk], true; }
      return -1, false;
    }

    /** Draw until the port is free. Without a free port the loop would never end. */
    method AllocatePort() returns (port: int)
      requires Fair(draws) && |UsedInPool(portLookupReverse)| < POOL_SIZE
      modifies this`portLookupReverse, this`drawn
      ensures InPool(port) && 10000 <= port < 65535 && port !in old(portLookupReverse)
      ensures portLookupReverse == old(portLookupReverse) + {port}
    {
      FreePortExists(portLookupReverse);
      ghost var free :| InPool(free) && free !in portLookupReverse;
      assert Recurs(draws, free, drawn);
      ghost var stop :| drawn <= stop && draws(stop) == free;
      port := draws(drawn);
      drawn := drawn + 1;
      while port in portLookupReverse
        invariant InPool(port) && 0 < drawn <= stop + 1 && port == draws(drawn - 1)
        invariant portLookupReverse == old(portLookupReverse)
        decreases stop + 1 - drawn
      {
        port := draws(drawn);
        drawn := drawn + 1;
      }
      portLookupReverse := portLookupReverse + {port};
    }

    method RecomputeAvailablePorts()
      modifies this`portLookupReverse
      ensures portLookupReverse == Ports(portLookup)
    {
      portLookupReverse := {};
      var eks := portLookup.Keys;
      while eks != {}
        invariant eks <= portLookup.Keys
        invariant portLookupReverse == Ports(portLookup - eks)
      {
        var ek :| ek in eks;
        portLookupReverse := portLookupReverse + portLookup[ek].Values;
        AddRow(portLookup - eks, portLookup - (eks - {ek}), ek);
        eks := eks - {ek};
      }
      assert portLookup - eks == portLookup;
    }

    /** Draws a port for the missing key `k`, leaving room for the other wanted keys. */
    method AddKey(ghost had: Row, ghost used: set<int>, ghost keys: set<string>, ghost wanted: set<string>,
                  row: Row, k: string)
      returns (grown: Row)
      requires Fair(draws) && Growing(had, used, keys, row, portLookupReverse)
      requires k in wanted && k !in row && Room(portLookupReverse, wanted, row.Keys)
      modifies this`portLookupReverse, this`drawn
      ensures Growing(had, used, keys + {k}, grown, portLookupReverse)
      ensures Room(portLookupReverse, wanted, grown.Keys)
    {
      TakeRoom(portLookupReverse, wanted, row, k, 0);
      var port := AllocatePort();
      TakeRoom(old(portLookupReverse), wanted, row, k, port);
      GrowOne(had, used, keys, row, old(portLookupReverse), k, port);
      grown := row[k := port];
    }

    /** The first loop of an allocation. */
    method AddMissing(had: Row, portKeys: seq<string>) returns (row: Row, grew: bool)
      requires Fair(draws) && Room(portLookupReverse, Elems(portKeys), had.Keys)
      modifies this`portLookupReverse, this`drawn
      ensures Grown(had, old(portLookupReverse), Elems(portKeys), row)
      ensures grew <==> !(Elems(portKeys) <= had.Keys)
    {
      ghost var used := portLookupReverse;
      row, grew := had, false;
      for i := 0 to |portKeys|
        invariant Growing(had, used, Elems(portKeys[..i]), row, portLookupReverse)
        invariant Room(portLookupReverse, Elems(portKeys), row.Keys)
        invariant grew <==> !(Elems(portKeys[..i]) <= had.Keys)
      {
        ElemsStep(portKeys, i);
        if portKeys[i] !in row {
          row := AddKey(had, used, Elems(portKeys[..i]), Elems(portKeys), row, portKeys[i]);
          grew := true;
        } else {
          GrowAgain(had, used, Elems(portKeys[..i]), row, portLookupReverse, portKeys[i]);
        }
      }
      assert portKeys[..|portKeys|] == portKeys;
    }

    method AllocatePorts(ek: string, portKeys: seq<string>) returns (updated: bool)
      requires Valid()
      requires Room(portLookupReverse, Elems(portKeys), KeysOf(portLookup, ek))
      modifies this
      ensures Valid()
      ensures Allocated(old(portLookup), ek, Elems(portKeys), portLookup)
      ensures updated <==> KeysOf(old(portLookup), ek) != Elems(portKeys)
    {
      var row, grew := AddMissing(RowOf(portLookup, ek), portKeys);
      var kept, pruned := DropUnwanted(row, portKeys);
      PruneGrown(portLookup, ek, Elems(portKeys), row);
      portLookup := portLookup[ek := kept];
      ChangedIff(KeysOf(old(portLookup), ek), Elems(portKeys));
      updated := grew || pruned;
      RecomputeAvailablePorts();
    }

    /** The result says whether there was anything to try, not whether anything was removed. */
    method DeallocatePorts(ek: string, portKeys: seq<string>) returns (updated: bool)
      requires Valid()
      modifies this
      ensures Valid()
      ensures portLookup == WithoutPorts(old(portLookup), ek, Elems(portKeys))
      ensures updated <==> ek in old(portLookup) && portKeys != []
    {
      updated := false;
      if ek in portLookup {
        var row := portLookup[ek];
        for i := 0 to |portKeys|
          invariant portLookup == old(portLookup)
          invariant row == old(portLookup)[ek] - Elems(portKeys[..i])
          invariant updated <==> i > 0
        {
          ElemsStep(portKeys, i);
          row, updated := row - {portKeys[i]}, true;
        }
        assert portKeys[..|portKeys|] == portKeys;
        portLookup := portLookup[ek := row];
      }
      RecomputeAvailablePorts();
    }

    method DeallocateEndpoints(eks: seq<string>)
      requires Valid()
      modifies this
      ensures Valid()
      ensures portLookup == old(portLookup) - Elems(eks)
    {
      for i := 0 to |eks|
        invariant portLookup == old(portLookup) - Elems(eks[..i])
      {
        ElemsStep(eks, i);
        portLookup := portLookup - {eks[i]};
      }
      assert eks[..|eks|] == eks;
      RecomputeAvailablePorts();
    }

    /** Releases exactly the endpoints the allocation of this LoadBalancer asks for. */
    method DeallocatePortsForLoadBalancer(lb: LoadBalancer)
      requires Valid()
      modifies this
      ensures Valid()
      ensures portLookup == old(portLookup) - EndpointsOf(LbRequests(lb))
    {
      var eks := [];
      for i := 0 to |lb.endpoints|
        invariant Elems(eks) == EndpointsOf(Gather(EndpointRequester(lb), i))
        invariant portLookup == old(portLookup) && Valid()
      {
        EndpointsOfConcat(Gather(EndpointRequester(lb), i), [EndpointRequest(lb, i)]);
        eks := eks + [LbEndpointKey(lb.namespace, lb.name, i)];
      }
      DeallocateEndpoints(eks);
    }

    /** Releases exactly the endpoints the allocation of this Route asks for. */
    method DeallocatePortsForRoute(route: Route)
      requires Valid()
      modifies this
      ensures Valid()
      ensures portLookup == old(portLookup) - EndpointsOf(RouteRequests(route))
    {
      if route.source.None? { return; }
      var services, eks := route.source.value.services, [];
      for i := 0 to |services|
        invariant Elems(eks) == EndpointsOf(FlatMap(ServiceRequester(route), services[..i]))
        invariant portLookup == old(portLookup) && Valid()
      {
        FlatMapStep(ServiceRequester(route), services, i);
        EndpointsOfConcat(FlatMap(ServiceRequester(route), services[..i]), [ServiceRequest(route, services[i])]);
        eks := eks + [SvcEndpointKey(route, services[i])];
      }
      assert services[..|services|] == services;
      DeallocateEndpoints(eks);
    }

    /** Replaces the table by what the persisted statuses describe, healed. */
    method LoadState(lbs: seq<LoadBalancer>, routes: seq<Route>)
      requires Fair(draws)
      modifies this
      ensures Valid()
      ensures portLookup == Healed(Apply(map[], AllWrites(lbs, routes)))
    {
      var loaded := ReadStatuses(lbs, routes);
      portLookup := HealLoadStateCollisions(loaded);
      RecomputeAvailablePorts();
    }

    /** One request of a batch that fits; the rest of it still does. */
    method Serve(r: Request, ghost t: Table, ghost rs: seq<Request>, ghost rest: seq<Request>)
      requires Valid() && AllocatedAll(t, rs, portLookup) && Fits(portLookup, [r] + rest)
      modifies this
      ensures Valid() && AllocatedAll(t, rs + [r], portLookup) && Fits(portLookup, rest)
    {
      FitsFirst(portLookup, r, rest);
      ghost var before := portLookup;
      var _ := AllocatePorts(r.ek, r.keys);
      assert Serves(before, r, portLookup);
      ChainSnoc(Serves, t, rs, before, r, portLookup);
      FitsStep(before, r, rest, portLookup);
    }

    /** The requests of one object, after those in `rs` and before those in `rest`. */
    method ServeAll(qs: seq<Request>, ghost t: Table, ghost rs: seq<Request>, ghost rest: seq<Request>)
      requires Valid() && AllocatedAll(t, rs, portLookup) && Fits(portLookup, qs + rest)
      modifies this
      ensures Valid() && AllocatedAll(t, rs + qs, portLookup) && Fits(portLookup, rest)
    {
      assert rs + qs[..0] == rs && qs[0..] == qs;
      for i := 0 to |qs|
        invariant Valid() && AllocatedAll(t, rs + qs[..i], portLookup) && Fits(portLookup, qs[i..] + rest)
      {
        assert qs[i..] + rest == [qs[i]] + (qs[i + 1..] + rest);
        assert rs + qs[..i] + [qs[i]] == rs + qs[..i + 1];
        Serve(qs[i], t, rs + qs[..i], qs[i + 1..] + rest);
      }
      assert qs[..|qs|] == qs && qs[|qs|..] + rest == rest;
    }

    /** The requests in `rest` are still to come after these. */
    method AllocatePortsForLoadBalancers(lbs: seq<LoadBalancer>, ghost rest: seq<Request>)
      requires Valid() && Fits(portLookup, FlatMap(LbRequests, lbs) + rest)
      modifies this
      ensures Valid() && AllocatedAll(old(portLookup), FlatMap(LbRequests, lbs), portLookup) && Fits(portLookup, rest)
    {
      ghost var t := portLookup;
      ChainNil(Serves, t);
      assert lbs[0..] == lbs;
      for i := 0 to |lbs|
        invariant Valid() && AllocatedAll(t, FlatMap(LbRequests, lbs[..i]), portLookup)
        invariant Fits(portLookup, FlatMap(LbRequests, lbs[i..]) + rest)
      {
        FlatMapStep(LbRequests, lbs, i);
        FlatMapSplit(LbRequests, lbs, i, rest);
        ServeAll(LbRequests(lbs[i]), t, FlatMap(LbRequests, lbs[..i]), FlatMap(LbRequests, lbs[i + 1..]) + rest);
      }
      assert lbs[..|lbs|] == lbs && FlatMap(LbRequests, lbs[|lbs|..]) + rest == rest;
    }

    method AllocatePortsForRoutes(routes: seq<Route>)
      requires Valid() && Fits(portLookup, FlatMap(RouteRequests, routes))
      modifies this
      ensures Valid() && AllocatedAll(old(portLookup), FlatMap(RouteRequests, routes), portLookup)
    {
      ghost var t := portLookup;
      ChainNil(Serves, t);
      assert routes[0..] == routes && FlatMap(RouteRequests, routes) + [] == FlatMap(RouteRequests, routes);
      for i := 0 to |routes|
        invariant Valid() && AllocatedAll(t, FlatMap(RouteRequests, routes[..i]), portLookup)
        invariant Fits(portLookup, FlatMap(RouteRequests, routes[i..]) + [])
      {
        FlatMapStep(RouteRequests, routes, i);
        FlatMapSplit(RouteRequests, routes, i, []);
        ServeAll(RouteRequests(routes[i]), t, FlatMap(RouteRequests, routes[..i]),
          FlatMap(RouteRequests, routes[i + 1..]) + []);
      }
      assert routes[..|routes|] == routes;
    }
  }

  // ------------------------------------------------------------- healing

  ghost predicate Seen(t: Table, done: set<string>, port: int) {
    exists e :: e in done && Holds(t, e, port)
  }

  /** Halfway through healing: the ports of the endpoints in `done`, each with its owner. */
  ghost predicate OwnersOf(t: Table, done: set<string>, owners: map<int, string>) {
    && (forall port :: port in owners <==> Seen(t, done, port))
    && (forall port <- owners :: Owns(t, owners[port], port))
  }

  /** `ek` is next in key order after `done`. */
  ghost predicate Next(t: Table, done: set<string>, ek: string) {
    ek in t && ek !in done && forall f <- t | f !in done :: Le(ek, f)
  }

  /** The test of the inner loop decides ownership. */
  lemma ClearedIffNotOwner(t: Table, done: set<string>, owners: map<int, string>, ek: string, pk: string)
    requires Next(t, done, ek) && Has(t, ek, pk)
    requires forall port <- owners :: Owns(t, owners[port], port)
    requires forall port | Seen(t, done, port) :: port in owners
    ensures Owns(t, ek, t[ek][pk]) <==> !(t[ek][pk] in owners && owners[t[ek][pk]] != ek)
  {
    var port := t[ek][pk];
    if port in owners {
      if Owns(t, ek, port) { OwnerUnique(t, ek, owners[port], port); }
    } else {
      assert !Seen(t, done, port);
      assert Holds(t, ek, port);
    }
  }

  /** Within `ek`, after the port keys in `seen`. */
  ghost predicate Healing(t: Table, done: set<string>, ek: string, seen: set<string>, row: Row,
                          owners: map<int, string>) {
    && ek in t && seen <= t[ek].Keys
    && (forall port :: port in owners <==> Seen(t, done, port) || exists pk :: pk in seen && t[ek][pk] == port)
    && (forall port <- owners :: Owns(t, owners[port], port))
    && (forall pk :: pk in row <==> pk in t[ek] && (pk in seen ==> Owns(t, ek, t[ek][pk])))
    && (forall pk <- row :: row[pk] == t[ek][pk])
  }

  lemma HealingClears(t: Table, done: set<string>, ek: string, seen: set<string>, row: Row, owners: map<int, string>,
                      pk: string)
    requires Next(t, done, ek) && Healing(t, done, ek, seen, row, owners) && pk in t[ek] && pk !in seen
    requires t[ek][pk] in owners && owners[t[ek][pk]] != ek
    ensures Healing(t, done, ek, seen + {pk}, row - {pk}, owners)
  {
    ClearedIffNotOwner(t, done, owners, ek, pk);
  }

  lemma HealingKeeps(t: Table, done: set<string>, ek: string, seen: set<string>, row: Row, owners: map<int, string>,
                     pk: string)
    requires Next(t, done, ek) && Healing(t, done, ek, seen, row, owners) && pk in t[ek] && pk !in seen
    requires t[ek][pk] in owners ==> owners[t[ek][pk]] == ek
    ensures Healing(t, done, ek, seen + {pk}, row, owners[t[ek][pk] := ek])
  {
    ClearedIffNotOwner(t, done, owners, ek, pk);
  }

  lemma HealingDone(t: Table, done: set<string>, ek: string, row: Row, owners: map<int, string>)
    requires ek in t && Healing(t, done, ek, t[ek].Keys, row, owners)
    ensures row == Healed(t)[ek]
    ensures OwnersOf(t, done + {ek}, owners)
  {
    forall port ensures Seen(t, done + {ek}, port) <==> Seen(t, done, port) || Holds(t, ek, port) {
      if Seen(t, done, port) {
        var e :| e in done && Holds(t, e, port);
        assert e in done + {ek};
      }
      assert ek in done + {ek};
    }
    forall port ensures Holds(t, ek, port) <==> exists pk :: pk in t[ek].Keys && t[ek][pk] == port {
      if pk :| pk in t[ek].Keys && t[ek][pk] == port { assert Has(t, ek, pk); }
    }
  }

  /** The inner loop of healing, over one endpoint's port keys in order. */
  method HealRow(t: Table, ghost done: set<string>, ek: string, owned: map<int, string>)
    returns (row: Row, owners: map<int, string>)
    requires Next(t, done, ek) && OwnersOf(t, done, owned)
    ensures row == Healed(t)[ek]
    ensures OwnersOf(t, done + {ek}, owners)
  {
    row, owners := t[ek], owned;
    var rest := t[ek].Keys;
    while rest != {}
      invariant rest <= t[ek].Keys
      invariant Healing(t, done, ek, t[ek].Keys - rest, row, owners)
    {
      var pk := Least(rest);
      assert t[ek].Keys - rest + {pk} == t[ek].Keys - (rest - {pk});
      var port := t[ek][pk];
      if port in owners && owners[port] != ek {
        HealingClears(t, done, ek, t[ek].Keys - rest, row, owners, pk);
        row := row - {pk};
      } else {
        HealingKeeps(t, done, ek, t[ek].Keys - rest, row, owners, pk);
        owners := owners[port := ek];
      }
      rest := rest - {pk};
    }
    assert t[ek].Keys - rest == t[ek].Keys;
    HealingDone(t, done, ek, row, owners);
  }

  /** Walk the endpoints in key order; the first owner of a port keeps it, later ones lose it. */
  method HealLoadStateCollisions(t: Table) returns (u: Table)
    ensures u == Healed(t)
  {
    u := map[];
    var rest := t.Keys;
    var owners := map[];
    while rest != {}
      invariant rest <= t.Keys && u.Keys == t.Keys - rest
      invariant forall ek <- u :: u[ek] == Healed(t)[ek]
      invariant OwnersOf(t, t.Keys - rest, owners)
    {
      var ek := Least(rest);
      assert Next(t, t.Keys - rest, ek);
      var row;
      row, owners := HealRow(t, t.Keys - rest, ek, owners);
      assert t.Keys - rest + {ek} == t.Keys - (rest - {ek});
      u := u[ek := row];
      rest := rest - {ek};
    }
  }

  // ------------------------------------------------------------- reading statuses

  /** The search loop over a status, with its break. */
  method FindPersisted(status: seq<StatusPort>, p: EndpointPort) returns (r: Option<int>)
    ensures r == PersistedPort(status, p)
  {
    for i := 0 to |status|
      invariant PersistedPort(status[i..], p) == PersistedPort(status, p)
    {
      assert status[i..][0] == status[i] && status[i..][1..] == status[i + 1..];
      if StatusMatches(status[i], p) { return Some(status[i].port.targetPort); }
    }
    return None;
  }

  method LoadPort(t: Table, ek: string, status: seq<StatusPort>, p: EndpointPort) returns (u: Table)
    requires ek in t
    ensures u == Apply(t, PortWrites(ek, status, p)) && ek in u
  {
    var found := FindPersisted(status, p);
    u := t;
    if found.Some? {
      u := t[ek := t[ek][EndpointPortKey(p) := found.value]];
      ApplyOne(t, Put(ek, EndpointPortKey(p), found.value));
    }
  }

  method LoadEndpoint(t: Table, lb: LoadBalancer, i: nat) returns (u: Table)
    requires i < |lb.endpoints|
    ensures u == Apply(t, EndpointWrites(lb, i))
  {
    var ek := LbEndpointKey(lb.namespace, lb.name, i);
    var ports := lb.endpoints[i].ports;
    var touched := Touched(t, ek);
    ghost var f := PortWriter(ek, lb.status);
    u := touched;
    for j := 0 to |ports|
      invariant ek in u && u == Apply(touched, FlatMap(f, ports[..j]))
    {
      u := LoadPort(u, ek, lb.status, ports[j]);
      ApplyRound(touched, f, ports, j);
    }
    assert ports[..|ports|] == ports;
    ApplyTouch(t, ek);
    ApplyConcat(t, [Touch(ek)], FlatMap(f, ports));
  }

  method LoadLb(t: Table, lb: LoadBalancer) returns (u: Table)
    ensures u == Apply(t, LbWrites(lb))
  {
    u := t;
    for i := 0 to |lb.endpoints|
      invariant u == Apply(t, Gather(EndpointWriter(lb), i))
    {
      ApplyConcat(t, Gather(EndpointWriter(lb), i), EndpointWrites(lb, i));
      u := LoadEndpoint(u, lb, i);
    }
  }

  method LoadServicePorts(t: Table, ek: string, ports: seq<ServicePort>) returns (u: Table)
    requires ek in t
    ensures u == Apply(t, FlatMap(ServicePortWriter(ek), ports))
  {
    u := t;
    for j := 0 to |ports|
      invariant ek in u && u == Apply(t, FlatMap(ServicePortWriter(ek), ports[..j]))
    {
      ApplyOne(u, Put(ek, ServicePortKey(ports[j]), ports[j].targetPort));
      ApplyRound(t, ServicePortWriter(ek), ports, j);
      u := u[ek := u[ek][ServicePortKey(ports[j]) := ports[j].targetPort]];
    }
    assert ports[..|ports|] == ports;
  }

  method LoadService(t: Table, route: Route, svc: Service) returns (u: Table)
    ensures u == Apply(t, ServiceWrites(route, svc))
  {
    var ek := SvcEndpointKey(route, svc);
    var key := LookupKey(svc);
    u := Touched(t, ek);
    ApplyTouch(t, ek);
    if key in route.serviceStatus {
      ApplyConcat(t, [Touch(ek)], FlatMap(ServicePortWriter(ek), route.serviceStatus[key]));
      u := LoadServicePorts(u, ek, route.serviceStatus[key]);
    } else {
      assert [Touch(ek)] + [] == [Touch(ek)];
    }
  }

  method LoadRoute(t: Table, route: Route) returns (u: Table)
    ensures u == Apply(t, RouteWrites(route))
  {
    u := t;
    if route.source.Some? {
      var svcs := route.source.value.services;
      for i := 0 to |svcs|
        invariant u == Apply(t, FlatMap(ServiceWriter(route), svcs[..i]))
      {
        ApplyRound(t, ServiceWriter(route), svcs, i);
        u := LoadService(u, route, svcs[i]);
      }
      assert svcs[..|svcs|] == svcs;
    }
  }

  method LoadLbs(lbs: seq<LoadBalancer>) returns (u: Table)
    ensures u == Apply(map[], FlatMap(LbWrites, lbs))
  {
    u := map[];
    for i := 0 to |lbs|
      invariant u == Apply(map[], FlatMap(LbWrites, lbs[..i]))
    {
      ApplyRound(map[], LbWrites, lbs, i);
      u := LoadLb(u, lbs[i]);
    }
    assert lbs[..|lbs|] == lbs;
  }

  /** The table the persisted statuses describe, before healing. */
  method ReadStatuses(lbs: seq<LoadBalancer>, routes: seq<Route>) returns (u: Table)
    ensures u == Apply(map[], AllWrites(lbs, routes))
  {
    var t := LoadLbs(lbs);
    u := t;
    for i := 0 to |routes|
      invariant u == Apply(t, FlatMap(RouteWrites, routes[..i]))
    {
      ApplyRound(t, RouteWrites, routes, i);
      u := LoadRoute(u, routes[i]);
    }
    assert routes[..|routes|] == routes;
    ApplyConcat(map[], FlatMap(LbWrites, lbs), FlatMap(RouteWrites, routes));
  }

  lemma AddRow(t: Table, u: Table, ek: string)
    requires ek in u && ek !in t && t == u - {ek}
    ensures Ports(u) == Ports(t) + u[ek].Values
  {
    forall p <- Ports(u) ensures p in Ports(t) + u[ek].Values {
      var e, k :| e in u && k in u[e] && u[e][k] == p;
      if e != ek { PortIn(t, e, k); }
    }
    forall p <- Ports(t) ensures p in Ports(u) {
      var e, k :| e in t && k in t[e] && t[e][k] == p;
      PortIn(u, e, k);
    }
    forall p <- u[ek].Values ensures p in Ports(u) {
      var k :| k in u[ek] && u[ek][k] == p;
      PortIn(u, ek, k);
    }
  }

  lemma ChangedIff(had: set<string>, want: set<string>)
    ensures had != want <==> !(want <= had) || !(had + want <= want)
  {}
}
