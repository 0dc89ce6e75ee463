/** What holds of every snapshot: closure, unique sockets, independence of list order, and delivery. */
module SnapshotProperties {
  import opened Api
  import opened Envoy
  import opened Lists
  import opened PortTable
  import opened Text

  const SlotName: Slot -> string := (s: Slot) => s.name

  // ------------------------------------------------------------- deduplication

  lemma {:induction false} DedupFromDistinct(ls: seq<Listener>, seen: set<(int, string)>)
    ensures DistinctBy(Socket, DedupFrom(ls, seen))
    ensures forall k <- DedupFrom(ls, seen) :: k in ls && Socket(k) !in seen
  {
    if ls != [] {
      DedupFromDistinct(ls[1..], seen);
      DedupFromDistinct(ls[1..], seen + {Socket(ls[0])});
    }
  }

  /** No socket is lost, and of the listeners contending for it the one first in name order stays. */
  lemma {:induction false} DedupFromKeepsLeast(ls: seq<Listener>, seen: set<(int, string)>, l: Listener)
    requires SortedBy(ListenerName, ls) && l in ls && Socket(l) !in seen
    ensures exists k :: k in DedupFrom(ls, seen) && Socket(k) == Socket(l) && Le(k.name, l.name)
  {
    if Socket(ls[0]) == Socket(l) {
      assert ls[0] in DedupFrom(ls, seen);
      LeTotal(l.name, l.name);
    } else if Socket(ls[0]) in seen {
      DedupFromKeepsLeast(ls[1..], seen, l);
    } else {
      DedupFromKeepsLeast(ls[1..], seen + {Socket(ls[0])}, l);
      var k :| k in DedupFrom(ls[1..], seen + {Socket(ls[0])}) && Socket(k) == Socket(l) && Le(k.name, l.name);
      assert k in DedupFrom(ls, seen);
    }
  }

  lemma {:induction false} DedupFromIdentity(ls: seq<Listener>, seen: set<(int, string)>)
    requires DistinctBy(Socket, ls) && forall l <- ls :: Socket(l) !in seen
    ensures DedupFrom(ls, seen) == ls
  {
    if ls != [] {
      DedupFromIdentity(ls[1..], seen + {Socket(ls[0])});
      assert ls == [ls[0]] + ls[1..];
    }
  }

  /** Nothing is dropped exactly when the sockets are distinct. */
  lemma DedupIdentityIff(ls: seq<Listener>)
    ensures Dedup(ls) == ls <==> DistinctBy(Socket, ls)
  {
    DedupFromDistinct(ls, {});
    if DistinctBy(Socket, ls) { DedupFromIdentity(ls, {}); }
  }

  // ------------------------------------------------------------- names

  /** A maker yields at most one resource per slot, named after the slot. */
  ghost predicate NamedAfter<U(!new)>(f: Slot -> seq<U>, name: U -> string) {
    forall s :: |f(s)| <= 1 && forall y <- f(s) :: name(y) == s.name
  }

  lemma MadeNamesDistinct<U(!new)>(f: Slot -> seq<U>, name: U -> string, slots: seq<Slot>)
    requires NamedAfter(f, name) && DistinctBy(SlotName, slots)
    ensures DistinctBy(name, FlatMap(f, slots))
  {
    forall i, j | 0 <= i < j < |slots| ensures forall y <- f(slots[i]), z <- f(slots[j]) :: name(y) != name(z) {
      assert SlotName(slots[i]) != SlotName(slots[j]);
    }
    FlatMapDistinct(f, name, slots);
  }

  lemma MakersNameAfterSlots(w: World, t: Table)
    ensures NamedAfter(Clustering(w), ClusterName)
    ensures NamedAfter(Listening(t), ListenerName)
    ensures NamedAfter(Assigning(w), AssignmentName)
  {}

  // ------------------------------------------------------------- order independence

  lemma SlotsPermute(w: World, lbs: seq<LoadBalancer>, lbs': seq<LoadBalancer>, routes: seq<Route>, routes': seq<Route>)
    requires multiset(lbs) == multiset(lbs') && multiset(routes) == multiset(routes')
    ensures multiset(Slots(w, lbs, routes)) == multiset(Slots(w, lbs', routes'))
  {
    FlatMapPermutes(LbSlotter(w), lbs, lbs');
    FlatMapPermutes(RouteSlotter(w), routes, routes');
  }

  /** What one list of a snapshot sorts to does not depend on the order of the slots. */
  lemma MadeListUnique<U(!new)>(f: Slot -> seq<U>, name: U -> string, a: seq<Slot>, b: seq<Slot>, xs: seq<U>,
                                ys: seq<U>)
    requires NamedAfter(f, name) && DistinctBy(SlotName, a) && multiset(a) == multiset(b)
    requires SortedPermutation(name, FlatMap(f, a), xs) && SortedPermutation(name, FlatMap(f, b), ys)
    ensures xs == ys
  {
    FlatMapPermutes(f, a, b);
    MadeNamesDistinct(f, name, a);
    DistinctPermutes(name, FlatMap(f, a), xs);
    SortedPermutationIsUnique(name, xs, ys);
  }

  lemma SnapshotUnique(w: World, t: Table, a: seq<Slot>, b: seq<Slot>, s: Resources, s': Resources)
    requires DistinctBy(SlotName, a) && multiset(a) == multiset(b)
    requires SnapshotOf(w, t, a, s) && SnapshotOf(w, t, b, s')
    ensures s == s'
  {
    MakersNameAfterSlots(w, t);
    MadeListUnique(Clustering(w), ClusterName, a, b, s.clusters, s'.clusters);
    MadeListUnique(Assigning(w), AssignmentName, a, b, s.endpoints, s'.endpoints);
    var ls :| SortedPermutation(ListenerName, FlatMap(Listening(t), a), ls) && s.listeners == Dedup(ls);
    var ls' :| SortedPermutation(ListenerName, FlatMap(Listening(t), b), ls') && s'.listeners == Dedup(ls');
    MadeListUnique(Listening(t), ListenerName, a, b, ls, ls');
  }

  /** However the lists are ordered and however ties in sorting fall, distinct names leave one snapshot. */
  lemma SnapshotIsOrderIndependent(w: World, t: Table, lbs: seq<LoadBalancer>, lbs': seq<LoadBalancer>,
                                   routes: seq<Route>, routes': seq<Route>, s: Resources, s': Resources)
    requires multiset(lbs) == multiset(lbs') && multiset(routes) == multiset(routes')
    requires DistinctBy(SlotName, Slots(w, lbs, routes))
    requires SnapshotOf(w, t, Slots(w, lbs, routes), s) && SnapshotOf(w, t, Slots(w, lbs', routes'), s')
    ensures s == s'
  {
    SlotsPermute(w, lbs, lbs', routes, routes');
    SnapshotUnique(w, t, Slots(w, lbs, routes), Slots(w, lbs', routes'), s, s');
  }

  // ------------------------------------------------------------- closure

  lemma PermutationMember<T>(xs: seq<T>, ys: seq<T>, x: T)
    requires multiset(xs) == multiset(ys)
    ensures x in xs <==> x in ys
  {
    assert x in xs <==> x in multiset(xs);
    assert x in ys <==> x in multiset(ys);
  }

  /** Clusters and endpoint resources carry each name at most once. */
  lemma SnapshotNamesDistinct(w: World, t: Table, slots: seq<Slot>, s: Resources)
    requires SnapshotOf(w, t, slots, s) && DistinctBy(SlotName, slots)
    ensures DistinctBy(ClusterName, s.clusters) && DistinctBy(AssignmentName, s.endpoints)
  {
    MakersNameAfterSlots(w, t);
    MadeNamesDistinct(Clustering(w), ClusterName, slots);
    MadeNamesDistinct(Assigning(w), AssignmentName, slots);
    DistinctPermutes(ClusterName, FlatMap(Clustering(w), slots), s.clusters);
    DistinctPermutes(AssignmentName, FlatMap(Assigning(w), slots), s.endpoints);
  }

  lemma ClusterFrom(w: World, t: Table, slots: seq<Slot>, s: Resources, c: Cluster)
    requires SnapshotOf(w, t, slots, s)
    ensures c in s.clusters <==> exists x :: x in slots && c == ClusterOf(w, x)
  {
    PermutationMember(FlatMap(Clustering(w), slots), s.clusters, c);
    FlatMapMember(Clustering(w), slots, c);
    if x :| x in slots && c == ClusterOf(w, x) { assert c in Clustering(w)(x); }
  }

  lemma AssignmentFrom(w: World, t: Table, slots: seq<Slot>, s: Resources, a: Assignment)
    requires SnapshotOf(w, t, slots, s)
    ensures a in s.endpoints <==> exists x :: x in slots && a in Assigned(w, x)
  {
    PermutationMember(FlatMap(Assigning(w), slots), s.endpoints, a);
    FlatMapMember(Assigning(w), slots, a);
    if x :| x in slots && a in Assigned(w, x) { assert a in Assigning(w)(x); }
  }

  lemma KeptFrom(w: World, t: Table, slots: seq<Slot>, s: Resources, l: Listener)
    requires SnapshotOf(w, t, slots, s) && l in s.listeners
    ensures exists x :: x in slots && Listeners(t, x) == [l]
  {
    var ls :| SortedPermutation(ListenerName, FlatMap(Listening(t), slots), ls) && s.listeners == Dedup(ls);
    DedupFromDistinct(ls, {});
    PermutationMember(FlatMap(Listening(t), slots), ls, l);
    FlatMapMember(Listening(t), slots, l);
  }

  /** `Snapshot.Consistent`: the endpoint resources are exactly those the EDS clusters ask for. */
  predicate Consistent(s: Resources) {
    (set c <- s.clusters | c.discovery == EDS :: c.name) == (set a <- s.endpoints :: a.cluster)
  }

  lemma SnapshotIsConsistent(w: World, t: Table, slots: seq<Slot>, s: Resources)
    requires SnapshotOf(w, t, slots, s)
    ensures Consistent(s)
  {
    forall c <- s.clusters | c.discovery == EDS ensures exists a :: a in s.endpoints && a.cluster == c.name {
      ClusterFrom(w, t, slots, s, c);
      var x :| x in slots && c == ClusterOf(w, x);
      var a := Assignment(x.name, Upstreams(x));
      assert a in Assigned(w, x);
      AssignmentFrom(w, t, slots, s, a);
    }
    forall a <- s.endpoints ensures exists c :: c in s.clusters && c.discovery == EDS && c.name == a.cluster {
      AssignmentFrom(w, t, slots, s, a);
      var x :| x in slots && a in Assigned(w, x);
      ClusterFrom(w, t, slots, s, ClusterOf(w, x));
    }
  }

  /** Endpoint resources hold only IP literals; hostnames stay inside their cluster. */
  lemma EndpointsAreIps(w: World, t: Table, slots: seq<Slot>, s: Resources, a: Assignment, u: Upstream)
    requires SnapshotOf(w, t, slots, s) && a in s.endpoints && u in a.upstreams
    ensures u.address != "" && w.isIp(u.address)
  {
    AssignmentFrom(w, t, slots, s, a);
    var x :| x in slots && a in Assigned(w, x);
    FlatMapMember(UpstreamAt(x.upstreamPort), x.addresses, u);
  }

  /** Every kept listener names a cluster that is present. */
  lemma ListenersHaveClusters(w: World, t: Table, slots: seq<Slot>, s: Resources, l: Listener)
    requires SnapshotOf(w, t, slots, s) && l in s.listeners
    ensures exists c :: c in s.clusters && c.name == l.cluster
  {
    KeptFrom(w, t, slots, s, l);
    var x :| x in slots && Listeners(t, x) == [l];
    ClusterFrom(w, t, slots, s, ClusterOf(w, x));
  }

  /** Envoy rejects two listeners on one socket; a snapshot never has them, and never leaves a socket unbound. */
  lemma SocketsAreBoundOnce(w: World, t: Table, slots: seq<Slot>, s: Resources)
    requires SnapshotOf(w, t, slots, s)
    ensures DistinctBy(Socket, s.listeners)
    ensures forall x <- slots, l <- Listeners(t, x) ::
              exists k :: k in s.listeners && Socket(k) == Socket(l) && Le(k.name, l.name)
  {
    var ls :| SortedPermutation(ListenerName, FlatMap(Listening(t), slots), ls) && s.listeners == Dedup(ls);
    DedupFromDistinct(ls, {});
    forall x <- slots, l <- Listeners(t, x)
      ensures exists k :: k in s.listeners && Socket(k) == Socket(l) && Le(k.name, l.name)
    {
      assert l in Listening(t)(x);
      FlatMapMember(Listening(t), slots, l);
      PermutationMember(FlatMap(Listening(t), slots), ls, l);
      DedupFromKeepsLeast(ls, {}, l);
    }
  }
}
