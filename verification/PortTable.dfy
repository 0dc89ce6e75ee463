/**
 The lookup table of the port allocator as a value: what one allocation may do to it,
 what collision healing makes of it, and what every run of operations keeps.
 */
module PortTable {
  import opened Lists
  import opened Text

  /** Endpoint key to port key to port. */
  type Table = map<string, map<string, int>>

  const START_PORT := 10000
  const END_PORT := 65535
  const POOL_SIZE := END_PORT - START_PORT

  predicate InPool(port: int) { START_PORT <= port < END_PORT }

  predicate Has(t: Table, ek: string, pk: string) { ek in t && pk in t[ek] }

  ghost predicate Holds(t: Table, ek: string, port: int) {
    exists pk :: Has(t, ek, pk) && t[ek][pk] == port
  }

  ghost function Ports(t: Table): set<int> {
    set ek, pk | ek in t && pk in t[ek] :: t[ek][pk]
  }

  /** No two entries share a port. */
  ghost predicate PortsDistinct(t: Table) {
    forall e, p, f, q | Has(t, e, p) && Has(t, f, q) && t[e][p] == t[f][q] :: e == f && p == q
  }

  /** No two endpoints share a port. */
  ghost predicate EndpointsDisjoint(t: Table) {
    forall e, p, f, q | Has(t, e, p) && Has(t, f, q) && t[e][p] == t[f][q] :: e == f
  }

  // ------------------------------------------------------------- allocation

  /** The contract of one allocation: `u` gives `ek` exactly `keys`, and changes nothing it need not. */
  ghost predicate Allocated(t: Table, ek: string, keys: set<string>, u: Table) {
    && u.Keys == t.Keys + {ek}
    && (forall e <- t | e != ek :: u[e] == t[e])
    && u[ek].Keys == keys
    && (forall k <- keys | Has(t, ek, k) :: u[ek][k] == t[ek][k])
    && (forall k <- keys | !Has(t, ek, k) :: InPool(u[ek][k]) && u[ek][k] !in Ports(t))
    && (forall k <- keys, l <- keys | !Has(t, ek, k) && !Has(t, ek, l) && u[ek][k] == u[ek][l] :: k == l)
  }

  /** The port keys `ek` has. */
  function KeysOf(t: Table, ek: string): set<string> {
    if ek in t then t[ek].Keys else {}
  }

  lemma PortIn(t: Table, ek: string, pk: string)
    requires Has(t, ek, pk)
    ensures t[ek][pk] in Ports(t)
  {}

  lemma AllocationKeepsPortsDistinct(t: Table, ek: string, keys: set<string>, u: Table)
    requires Allocated(t, ek, keys, u) && PortsDistinct(t)
    ensures PortsDistinct(u)
  {
    forall e, p, f, q | Has(u, e, p) && Has(u, f, q) && u[e][p] == u[f][q] ensures e == f && p == q {
      if Has(t, e, p) { PortIn(t, e, p); }
      if Has(t, f, q) { PortIn(t, f, q); }
    }
  }

  lemma AllocationKeepsEndpointsDisjoint(t: Table, ek: string, keys: set<string>, u: Table)
    requires Allocated(t, ek, keys, u) && EndpointsDisjoint(t)
    ensures EndpointsDisjoint(u)
  {
    forall e, p, f, q | Has(u, e, p) && Has(u, f, q) && u[e][p] == u[f][q] ensures e == f {
      if Has(t, e, p) { PortIn(t, e, p); }
      if Has(t, f, q) { PortIn(t, f, q); }
    }
  }

  /** Asking again for the keys an endpoint has is a no-op. */
  lemma AllocationIsIdempotent(t: Table, ek: string, u: Table)
    requires ek in t && Allocated(t, ek, t[ek].Keys, u)
    ensures u == t
  {
    assert u[ek] == t[ek];
  }

  // ------------------------------------------------------------- capacity

  lemma {:induction false} FreeBetween(lo: int, hi: int, used: set<int>)
    requires lo <= hi && |set p <- used | lo <= p < hi| < hi - lo
    ensures exists p :: lo <= p < hi && p !in used
    decreases hi - lo
  {
    if hi - 1 in used {
      assert (set p <- used | lo <= p < hi) == (set p <- used | lo <= p < hi - 1) + {hi - 1};
      FreeBetween(lo, hi - 1, used);
      var p :| lo <= p < hi - 1 && p !in used;
    }
  }

  ghost function UsedInPool(used: set<int>): set<int> {
    set p <- used | START_PORT <= p < END_PORT
  }

  /** Pigeonhole: while fewer than the 55535 ports of the pool are used there is a free one. */
  lemma FreePortExists(used: set<int>)
    requires |UsedInPool(used)| < 55535
    ensures exists p :: InPool(p) && p !in used
  {
    FreeBetween(START_PORT, END_PORT, used);
    var p :| START_PORT <= p < END_PORT && p !in used;
    assert InPool(p);
  }

  // ------------------------------------------------------------- healing

  /** `ek` is the least endpoint key that holds `port`. */
  ghost predicate Owns(t: Table, ek: string, port: int) {
    Holds(t, ek, port) && forall f | f in t && Holds(t, f, port) :: Le(ek, f)
  }

  /** The sub-table in which every port stays only with its owner. */
  ghost function Healed(t: Table): Table {
    map ek | ek in t :: map pk | pk in t[ek] && Owns(t, ek, t[ek][pk]) :: t[ek][pk]
  }

  lemma OwnerExists(t: Table, port: int)
    requires port in Ports(t)
    ensures exists ek :: ek in t && Owns(t, ek, port)
  {
    var e, p :| e in t && p in t[e] && t[e][p] == port;
    assert Has(t, e, p);
    var holders := set ek | ek in t && Holds(t, ek, port);
    assert e in holders;
    var ek := Least(holders);
    assert Owns(t, ek, port);
  }

  lemma OwnerUnique(t: Table, e: string, f: string, port: int)
    requires Owns(t, e, port) && Owns(t, f, port)
    ensures e == f
  {
    LeAntisymmetric(e, f);
  }

  lemma HealedHas(t: Table, ek: string, pk: string)
    ensures Has(Healed(t), ek, pk) <==> Has(t, ek, pk) && Owns(t, ek, t[ek][pk])
    ensures Has(Healed(t), ek, pk) ==> Healed(t)[ek][pk] == t[ek][pk]
  {}

  lemma HealedIsDisjoint(t: Table)
    ensures EndpointsDisjoint(Healed(t))
  {
    var u := Healed(t);
    forall e, p, f, q | Has(u, e, p) && Has(u, f, q) && u[e][p] == u[f][q] ensures e == f {
      HealedHas(t, e, p);
      HealedHas(t, f, q);
      OwnerUnique(t, e, f, t[e][p]);
    }
  }

  /** Healing frees no port: every port value keeps one owner, the least one, with all its entries for it. */
  lemma HealedKeepsPorts(t: Table)
    ensures Ports(Healed(t)) == Ports(t)
    ensures forall ek, pk | Has(t, ek, pk) && Owns(t, ek, t[ek][pk]) :: Has(Healed(t), ek, pk)
  {
    forall port <- Ports(t) ensures port in Ports(Healed(t)) {
      OwnerExists(t, port);
      var ek :| ek in t && Owns(t, ek, port);
      var pk :| Has(t, ek, pk) && t[ek][pk] == port;
      HealedHas(t, ek, pk);
      PortIn(Healed(t), ek, pk);
    }
    forall port <- Ports(Healed(t)) ensures port in Ports(t) {
      var ek, pk :| ek in Healed(t) && pk in Healed(t)[ek] && Healed(t)[ek][pk] == port;
      HealedHas(t, ek, pk);
    }
  }

  /** Healing leaves a table alone exactly when no two endpoints share a port in it. */
  lemma HealedIdentityIff(t: Table)
    ensures Healed(t) == t <==> EndpointsDisjoint(t)
  {
    if EndpointsDisjoint(t) {
      forall ek <- t ensures Healed(t)[ek] == t[ek] {
        forall pk <- t[ek] ensures Owns(t, ek, t[ek][pk]) {
          assert Has(t, ek, pk);
          forall f | f in t && Holds(t, f, t[ek][pk]) ensures Le(ek, f) { LeTotal(ek, f); }
        }
      }
    } else {
      HealedIsDisjoint(t);
    }
  }

  lemma HealingIsIdempotent(t: Table)
    ensures Healed(Healed(t)) == Healed(t)
  {
    HealedIsDisjoint(t);
    HealedIdentityIff(Healed(t));
  }

  /** Sharing inside one endpoint survives healing; only sharing between endpoints is removed. */
  lemma HealingKeepsSharingWithinAnEndpoint(t: Table)
    ensures PortsDistinct(Healed(t)) <==>
            forall ek, p, q | Has(t, ek, p) && Has(t, ek, q) && t[ek][p] == t[ek][q] && Owns(t, ek, t[ek][p]) :: p == q
  {
    var u := Healed(t);
    HealedIsDisjoint(t);
    if PortsDistinct(u) {
      forall ek, p, q | Has(t, ek, p) && Has(t, ek, q) && t[ek][p] == t[ek][q] && Owns(t, ek, t[ek][p]) ensures p == q {
        HealedHas(t, ek, p);
        HealedHas(t, ek, q);
      }
    }
    if forall ek, p, q | Has(t, ek, p) && Has(t, ek, q) && t[ek][p] == t[ek][q] && Owns(t, ek, t[ek][p]) :: p == q {
      forall e, p, f, q | Has(u, e, p) && Has(u, f, q) && u[e][p] == u[f][q] ensures e == f && p == q {
        HealedHas(t, e, p);
        HealedHas(t, f, q);
      }
    }
  }

  // ------------------------------------------------------------- runs

  /** The public operations; the allocator's mutex makes each one atomic. */
  datatype Op =
    | Allocate(ek: string, keys: set<string>)
    | DeallocatePorts(ek: string, keys: set<string>)
    | DeallocateEndpoints(eks: set<string>)
    | Load(persisted: Table)

  function WithoutPorts(t: Table, ek: string, keys: set<string>): Table {
    if ek in t then t[ek := t[ek] - keys] else t
  }

  ghost predicate Step(t: Table, op: Op, u: Table) {
    match op
    case Allocate(ek, keys) => Allocated(t, ek, keys, u)
    case DeallocatePorts(ek, keys) => u == WithoutPorts(t, ek, keys)
    case DeallocateEndpoints(eks) => u == t - eks
    case Load(persisted) => u == Healed(persisted)
  }

  ghost predicate Run(ts: seq<Table>, ops: seq<Op>) {
    Trace(Step, ts, ops)
  }

  ghost predicate SubTable(u: Table, t: Table) {
    forall ek, pk | Has(u, ek, pk) :: Has(t, ek, pk) && u[ek][pk] == t[ek][pk]
  }

  lemma StepKeepsEndpointsDisjoint(t: Table, op: Op, u: Table)
    requires Step(t, op, u) && EndpointsDisjoint(t)
    ensures EndpointsDisjoint(u)
  {
    match op
    case Allocate(ek, keys) => AllocationKeepsEndpointsDisjoint(t, ek, keys, u);
    case DeallocatePorts(ek, keys) => assert SubTable(u, t);
    case DeallocateEndpoints(eks) => assert SubTable(u, t);
    case Load(persisted) => HealedIsDisjoint(persisted);
  }

  lemma StepKeepsPortsDistinct(t: Table, op: Op, u: Table)
    requires Step(t, op, u) && PortsDistinct(t) && !op.Load?
    ensures PortsDistinct(u)
  {
    match op
    case Allocate(ek, keys) => AllocationKeepsPortsDistinct(t, ek, keys, u);
    case DeallocatePorts(ek, keys) => assert SubTable(u, t);
    case DeallocateEndpoints(eks) => assert SubTable(u, t);
  }

  /** Over every run, reloads included, no port ever belongs to two endpoints. */
  lemma {:induction false} RunKeepsEndpointsDisjoint(ts: seq<Table>, ops: seq<Op>, n: nat)
    requires Run(ts, ops) && n < |ts| && EndpointsDisjoint(ts[0])
    ensures EndpointsDisjoint(ts[n])
  {
    if n > 0 {
      RunKeepsEndpointsDisjoint(ts, ops, n - 1);
      StepKeepsEndpointsDisjoint(ts[n - 1], ops[n - 1], ts[n]);
    }
  }

  /** Over every run without a reload, no port ever belongs to two entries. */
  lemma {:induction false} RunKeepsPortsDistinct(ts: seq<Table>, ops: seq<Op>, n: nat)
    requires Run(ts, ops) && n < |ts| && PortsDistinct(ts[0])
    requires forall op <- ops :: !op.Load?
    ensures PortsDistinct(ts[n])
  {
    if n > 0 {
      RunKeepsPortsDistinct(ts, ops, n - 1);
      StepKeepsPortsDistinct(ts[n - 1], ops[n - 1], ts[n]);
    }
  }

  /** The operations after which `(ek, pk)` may be gone or moved. */
  predicate Releases(op: Op, ek: string, pk: string) {
    match op
    case Allocate(e, keys) => e == ek && pk !in keys
    case DeallocatePorts(e, keys) => e == ek && pk in keys
    case DeallocateEndpoints(eks) => ek in eks
    case Load(_) => true
  }

  /** A port stays put for as long as nobody releases it, whatever happens to other entries. */
  lemma {:induction false} RunKeepsPort(ts: seq<Table>, ops: seq<Op>, n: nat, ek: string, pk: string)
    requires Run(ts, ops) && n < |ts| && Has(ts[0], ek, pk)
    requires forall op <- ops :: !Releases(op, ek, pk)
    ensures Has(ts[n], ek, pk) && ts[n][ek][pk] == ts[0][ek][pk]
  {
    if n > 0 {
      RunKeepsPort(ts, ops, n - 1, ek, pk);
      assert ops[n - 1] in ops && Step(ts[n - 1], ops[n - 1], ts[n]);
    }
  }
}
