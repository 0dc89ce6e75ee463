# KubeLB control plane in Dafny

KubeLB mirrors Services and routes of tenant clusters into a management cluster, gives every
mirrored port a port of a shared Envoy, generates the Services in front of it and the Envoy
configuration behind it, and migrates Ingresses to the Gateway API. This project models the parts
where several pieces of code have to agree with each other, and proves that they do, or exactly when.

**Ports and the data path.** `PortTable` states what one allocation, release or reload does to the
table endpoint key → port key → port, and what every run of them keeps. `PortAllocation` is the
allocator itself, a class that is updated in place and proved against that statement; random draws are
a stream that reaches every port again and again. `PortRequests` and `PersistedPorts` build the keys
with which LoadBalancers, Routes and their recorded statuses address the table, `Keys` says when such
keys collide. `LoadBalancers` and `RouteServices` generate Services and statuses from the table, `Envoy`
generates the snapshot from it. `SnapshotProperties`, `Delivery`, `Tenants`, `Restart` and `ControlPlane`
prove what spans them: order independence, closure, delivery of every Service port and every backend port
to its own node port, recovery of the table from statuses, and convergence; `TenantRestart` joins them for
one tenant.

**Mirroring.** `MirrorProtocol` is the tenant-to-management protocol of the Service controller as a
transition system: every API call of a reconciliation is a step, and users, lagging caches, failed calls
and crashes come between any two. `MirrorSafety` holds its invariant, `MirrorTheorems` what follows for
every run, `MirrorScope` which Services are mirrored, `MirrorProgress` that a reconciliation can always succeed.

**Ingress conversion.** `Ingresses` has paths, hosts, backends and the two dispatch rules, `HostGroups`
the grouping of hosts into HTTPRoutes, `ConversionProperties` partition and preservation. `Listeners` and
`Gateways` merge an Ingress's listeners into the shared Gateway, `SharedGateways` is about two Ingresses
that do so, `Verification` decides when an Ingress is done.

**Canonical forms.** `ManagedAnnotations` and `ServiceNames`. `Text`, `Separated`, `Lists` and `Api` hold
Go's string order and sorting, splitting and joining, list lemmas and the Kubernetes objects.

Where the code does not do what its names or comments suggest, the code is modelled and the exact
condition is proved:

- The endpoint key of a route backend leaves out the namespace of the origin route. Same-named routes
  from two namespaces that share a backend get one port, and one of their listeners is dropped
  (`Delivery.SameNamedRoutesDropAListener`, `Delivery.NothingDroppedIff`).
- Endpoint keys of LoadBalancers of different namespaces can coincide (`Keys.LbEndpointKeyAmbiguous`), and
  so can those of a LoadBalancer and a Route in a namespace named `tenant`, `tenant-tenant` and so on
  (`Tenants.KeysMeet`), but in no other (`Tenants.KeysApart`).
- Requests for one endpoint key that name different ports undo each other, because an allocation prunes
  (`PortRequests.BatchServesIff`).
- A backend's status is filed under its origin namespace and looked up under its own. Where the two differ
  a restart forgets its ports (`Restart.BackendRestoredIff`, `Restart.CopiedBackendIsForgotten`) or gives it
  another backend's (`Restart.BackendIsGivenAnothersPorts`), and every pass takes its record for an orphan
  (`RouteServices.RecordOrphanedIff`). Two backends filed under one key overwrite each other
  (`RouteServices.AllocatedRecordsIff`, `RouteServices.RecordIsOverwritten`).
- Healing does not separate two port keys of one endpoint (`PortTable.HealingKeepsSharingWithinAnEndpoint`).
- `DeallocatePorts` answers true whenever the endpoint exists and some key was named, deleted or not.
- Listener names of different hosts can coincide, and the merge then adds both
  (`Gateways.DashedHostsCollide`, `Gateways.WildcardCollidesIff`, `Gateways.BuiltNamesDistinctIff`,
  `Listeners.MergedNamesDistinctIff`).
- Hosts that are rewritten to one host get one route with the paths of all of them, so a request can be sent
  to another host's backend (`ConversionProperties.OwnPathsIff`, `ConversionProperties.MergedRouteMisdirects`).
  A default backend that is no Service is not reached at all (`Ingresses.RulesDispatchAlike`).
- Two Ingresses that want different certificates for one host on a shared Gateway overwrite each other for
  ever (`SharedGateways.DiscordNeverSettles`, `SharedGateways.CertificatesFight`).
- A verification timestamp that does not parse is never replaced although the comment says it counts as a
  first pass (`Verification.UnparsableTimestampIsStuck`), and a pass that first read an outdated Ingress
  can reopen a finished one (`Verification.StaleReadReopens`, `Verification.KeepsTerminalIff`). A pass that
  sees a rejected route but cannot write leaves no trace (`Verification.RefusedWriteHidesRejection`).
- The canary test comes before the class test, so canaries of other controllers' classes are marked as
  skipped (`Verification.ForeignUntouchedIff`, `Verification.ForeignCanaryIsMarked`).

`dafny verify dfyconfig.toml` checks everything.

## Model

| member | source | states |
|---|---|---|
| `PortAllocation.PortAllocator.constructor` | internal/port-lookup/allocator.go:51-57 | a new allocator is empty and valid |
| `PortAllocation.PortAllocator.Lookup` | internal/port-lookup/allocator.go:73-82 | the port if and only if both keys are there, else -1 and false |
| `PortAllocation.PortAllocator.AllocatePort` | internal/port-lookup/allocator.go:145-157 | the drawn port is in 10000..65534 and was in no use, and now is; the retry loop ends whenever a pool port is free |
| `PortAllocation.PortAllocator.RecomputeAvailablePorts` | internal/port-lookup/allocator.go:160-171 | the reverse set becomes exactly the ports of the table |
| `PortAllocation.DropUnwanted` | internal/port-lookup/allocator.go:101-107 | keeps exactly the requested keys of a row, and says whether any went |
| `PortAllocation.PortAllocator.AllocatePorts` | internal/port-lookup/allocator.go:85-112 | the endpoint has exactly the requested keys, survivors keep their port, new ports avoid every port used before the call, retired ones included, other endpoints are untouched, and the result is true if and only if the key set changed |
| `PortAllocation.PortAllocator.DeallocatePorts` | internal/port-lookup/allocator.go:115-130 | removes exactly the named keys; true if and only if the endpoint exists and a key was named |
| `PortAllocation.PortAllocator.DeallocateEndpoints` | internal/port-lookup/allocator.go:133-143 | removes exactly the named endpoints |
| `PortAllocation.PortAllocator.AllocatePortsForLoadBalancers` | internal/port-lookup/mapper.go:27-41 | serves the requests of all load balancers in order, provided the pool holds what they draw |
| `PortAllocation.PortAllocator.AllocatePortsForRoutes` | internal/port-lookup/mapper.go:44-69 | serves the requests of all routes in order, provided the pool holds what they draw; routes without a source ask for nothing |
| `PortAllocation.PortAllocator.DeallocatePortsForLoadBalancer` | internal/port-lookup/mapper.go:95-104 | releases exactly the endpoints that the allocation of this load balancer asks for |
| `PortAllocation.PortAllocator.DeallocatePortsForRoute` | internal/port-lookup/mapper.go:72-92 | releases exactly the endpoints that the allocation of this route asks for |
| `PortAllocation.PortAllocator.LoadState` | internal/port-lookup/allocator.go:174-267 | the table becomes what the persisted statuses describe, healed, and the reverse set follows |
| `PortAllocation.FindPersisted` | internal/port-lookup/allocator.go:201-214 | finds the first status port that matches an endpoint port |
| `PortAllocation.ReadStatuses` | internal/port-lookup/allocator.go:184-258 | the nested loops over load balancers and routes perform exactly the described writes |
| `PortAllocation.HealLoadStateCollisions` | internal/port-lookup/allocator.go:269-295 | the sorted loops with their owner map compute the healed table |
| `PortTable.AllocationKeepsPortsDistinct` | internal/port-lookup/allocator.go:85-112 | an allocation from a duplicate-free table leaves one |
| `PortTable.AllocationKeepsEndpointsDisjoint` | internal/port-lookup/allocator.go:85-112 | if no two endpoints share a port, none do after an allocation |
| `PortTable.AllocationIsIdempotent` | internal/port-lookup/allocator.go:88-111 | asking for what an endpoint has changes nothing |
| `PortTable.FreePortExists` | internal/port-lookup/allocator.go:145-157 | pigeonhole: below 55535 used pool ports there is a free one |
| `PortTable.HealedIsDisjoint` | internal/port-lookup/allocator.go:269-295 | after healing no port is shared by two endpoints |
| `PortTable.HealedHas` | internal/port-lookup/allocator.go:269-295 | healing is a restriction: an entry stays, unchanged, if and only if its endpoint is the least that held the port |
| `PortTable.HealedKeepsPorts` | internal/port-lookup/allocator.go:269-295 | the set of ports is unchanged, and the least endpoint keeps all its entries for a port |
| `PortTable.HealedIdentityIff` | internal/port-lookup/allocator.go:260-266 | healing changes nothing if and only if no two endpoints share a port |
| `PortTable.HealingIsIdempotent` | internal/port-lookup/allocator.go:269-295 | healing twice is healing once |
| `PortTable.HealingKeepsSharingWithinAnEndpoint` | internal/port-lookup/allocator.go:276-293 | the healed table is duplicate-free if and only if no owner held one port twice |
| `PortTable.RunKeepsEndpointsDisjoint` | internal/port-lookup/allocator.go:85-295 | over every run of allocations, releases and reloads no two endpoints ever share a port |
| `PortTable.RunKeepsPortsDistinct` | internal/port-lookup/allocator.go:85-171 | over every run without reload no two entries ever share a port |
| `PortTable.RunKeepsPort` | internal/port-lookup/allocator.go:85-143 | an entry keeps its port over every run that does not release it |
| `PortRequests.BatchServesIff` | internal/port-lookup/mapper.go:27-69 | after a batch every request is served if and only if no two requests for one key differ |
| `PortRequests.BatchKeepsInvariants` | internal/port-lookup/mapper.go:27-69 | batches keep ports apart and leave endpoints nobody asked for alone |
| `PortRequests.ServedBatchIsIdempotent` | internal/port-lookup/mapper.go:26-69 | ports already allocated are skipped: serving a served batch changes nothing |
| `PortRequests.ReleaseUndoesBatch` | internal/port-lookup/mapper.go:72-104 | releasing what a batch asked for leaves the table as it was elsewhere, however ports were drawn |
| `PortRequests.AllocationUsage` | internal/port-lookup/allocator.go:85-112 | an allocation uses up at most one pool port per key it has to add |
| `PortRequests.FitsStep` | internal/port-lookup/mapper.go:27-69 | if the pool holds what a batch draws, then after its first request it holds what the rest draws |
| `PortRequests.ServedBatchFits` | internal/port-lookup/mapper.go:26-69 | a served batch draws nothing, so it fits however full the pool |
| `Keys.PortKeyInjective` | internal/kubelb/utils.go:63-63 | port keys separate every port and protocol |
| `Keys.LbEndpointKeyCollision` | internal/kubelb/utils.go:51-51 | endpoint keys coincide if and only if index and dashed namespace-name do |
| `Keys.LbEndpointKeyAmbiguous` | internal/kubelb/utils.go:51-51 | two load balancers of different namespaces with one key |
| `Keys.RouteKeysDisagree` | internal/kubelb/utils.go:54-62 | resource names do separate origin namespaces |
| `Keys.RouteEndpointKeyCollision` | internal/kubelb/utils.go:53-54 | endpoint keys of one tenant's backends coincide if and only if the dashed Service namespace, Service and route do |
| `Keys.LbResourceNameInjective` | internal/kubelb/utils.go:50-50 | resource names separate what endpoint and port keys separate |
| `Keys.AddressCacheKeyInjective` | internal/envoy/resource.go:177-188 | within a namespace the address cache confuses no references |
| `PersistedPorts.PersistedPort` | internal/port-lookup/allocator.go:201-214 | none if and only if no status port matches, else that of a match |
| `PersistedPorts.ApplyAgreeing` | internal/port-lookup/allocator.go:184-258 | writes taken from one table restore exactly the entries written, in any order |
| `LoadBalancers.MapLoadBalancer` | internal/kubelb/loadbalancer.go:38-110 | one endpoint subset; per service port a front port of its number and an endpoint port of its node port, with its protocol and one name, its own in lower case or one made of number and protocol; addresses inline or by reference; origin and tenant labels, annotations but for the last applied configuration, type, traffic policy and affinity |
| `LoadBalancers.MappedIsPaired` | internal/kubelb/loadbalancer.go:38-76 | front and endpoint ports of a mapped Service correspond by position and by distinct name |
| `LoadBalancers.CreateServicePort` | internal/kubelb/loadbalancer.go:318-352 | the generated port, its target taken from the table under the key of the matching endpoint port |
| `LoadBalancers.CreateServicePorts` | internal/kubelb/loadbalancer.go:308-363 | the result is a permutation of the generated ports, sorted by name; ties may fall any way |
| `LoadBalancers.NodePortSurvives` | internal/kubelb/loadbalancer.go:318-352 | a port that keeps its name, or its number and protocol, keeps the node port of the first such existing port |
| `LoadBalancers.FreshPortHasNone` | internal/kubelb/loadbalancer.go:318-352 | any other port asks for none |
| `LoadBalancers.BuildServicePortStatus` | internal/controllers/kubelb/loadbalancer_controller.go:470-493 | each status port carries the port of the first endpoint port of its name and protocol, or zero |
| `LoadBalancers.PairedUpstream` | internal/kubelb/loadbalancer.go:320-345 | the lookup by name finds the endpoint port of the same position, wherever sorting put it |
| `RouteServices.GenerateServiceForLBCluster` | internal/resources/service/service.go:111-152 | ports keep name, number and protocol, target their allocated port and claim no node port; the name is generated, labels are kept and the origin labels filled in where missing, the selector is the proxy, annotations are propagated, NodePort becomes ClusterIP |
| `RouteServices.GeneratedRecordKey` | internal/resources/service/service.go:189-207 | a generated Service is filed under the key of its original |
| `RouteServices.CleanupOrphanedServices` | internal/controllers/kubelb/route_controller.go:371-415 | exactly the entries no backend is looked up under go |
| `RouteServices.RecordOrphanedIff` | internal/controllers/kubelb/route_controller.go:371-400 | a backend's own record is taken for an orphan if and only if its namespaces differ |
| `RouteServices.ManageServices` | internal/controllers/kubelb/route_controller.go:309-354 | orphaned entries are dropped, then each key holds the ports of the last backend filed under it |
| `RouteServices.RecordsIff` | internal/controllers/kubelb/route_controller.go:675-706 | every backend's ports are recorded if and only if backends of one key were generated alike |
| `RouteServices.AllocatedRecordsIff` | internal/controllers/kubelb/route_controller.go:320-354 | from any table with their ports allocated, that is so if and only if backends of one record key have no ports at all, or one endpoint key and the same port names, numbers and protocols |
| `RouteServices.RecordIsOverwritten` | internal/controllers/kubelb/route_controller.go:675-706 | two backends whose records overwrite each other, whatever ports they were allocated |
| `RouteServices.ReloadKeyMatchesIff` | internal/port-lookup/allocator.go:225-253 | a reload finds a backend's record key if and only if origin namespace and namespace agree |
| `Envoy.PickClusterDiscoveryType` | internal/envoy/resource.go:490-497 | EDS if and only if every address is an IP literal, in the IP field or, that being empty, in the host name field |
| `Envoy.At` | internal/envoy/resource.go:499-518 | one upstream per address, in order, on the given port: the IP field if it is filled, else the host name |
| `Envoy.ResolveAddresses` | internal/envoy/resource.go:177-196 | with any coherent cache, resolution fails if and only if the reference is missing, and else gives the addresses of the stored object, or the inline ones without a reference |
| `Envoy.ResolveRouteAddresses` | internal/envoy/resource.go:831-849 | the same for the subsets of a route, concatenated in order |
| `Envoy.LbResources` | internal/envoy/resource.go:190-234 | a load balancer contributes the resources of each of its ports, or fails |
| `Envoy.RouteResources` | internal/envoy/resource.go:237-288 | a route contributes the resources of each of its backends' ports, or fails |
| `Envoy.DedupListenersByAddress` | internal/envoy/resource.go:781-809 | the loop with its seen map keeps the first listener of each socket |
| `Envoy.MapSnapshot` | internal/envoy/resource.go:172-322 | fails if and only if some reference does not resolve; else each list is a sorted permutation of what all ports contribute, listeners deduplicated |
| `SnapshotProperties.DedupFromDistinct` | internal/envoy/resource.go:781-809 | kept listeners have distinct sockets and were all there before |
| `SnapshotProperties.DedupFromKeepsLeast` | internal/envoy/resource.go:781-809 | every contested socket keeps its least-named listener |
| `SnapshotProperties.DedupIdentityIff` | internal/envoy/resource.go:781-809 | nothing is dropped if and only if the sockets are distinct |
| `SnapshotProperties.SnapshotIsOrderIndependent` | internal/envoy/resource.go:289-312 | permuted lists and unstable sorting give one snapshot when resource names are distinct |
| `SnapshotProperties.SnapshotNamesDistinct` | internal/envoy/resource.go:289-298 | clusters and endpoint resources carry each name once |
| `SnapshotProperties.SnapshotIsConsistent` | internal/envoy/resource.go:314-321 | EDS clusters and endpoint resources have the same names |
| `SnapshotProperties.EndpointsAreIps` | internal/envoy/resource.go:477-497 | endpoint resources hold only IP literals |
| `SnapshotProperties.ListenersHaveClusters` | internal/envoy/resource.go:216-286 | every kept listener names a present cluster |
| `SnapshotProperties.SocketsAreBoundOnce` | internal/envoy/resource.go:776-809 | no two kept listeners share a socket, and no contested socket goes unbound |
| `Delivery.NothingDroppedIff` | internal/envoy/resource.go:776-809 | from a duplicate-free table nothing is dropped if and only if no two ports use one table entry |
| `Delivery.SameNamedRoutesShareAnEntry` | internal/kubelb/utils.go:53-62 | routes made from objects of one name, by source, label or own name, share a backend's entry; their resource names agree if and only if the namespaces of those objects do |
| `Delivery.SameNamedRoutesDropAListener` | internal/envoy/resource.go:254-298 | of two same-named routes of different namespaces with one backend, at most one listener per port is in a snapshot |
| `Delivery.SlotDelivered` | internal/envoy/resource.go:190-312 | an allocated port is bound by exactly one listener of its protocol, whose cluster leads to its own upstreams and no others, by EDS if and only if they are all IP addresses |
| `Delivery.LoadBalancerTargetsListener` | internal/kubelb/loadbalancer.go:318-352 | layer 4: allocated or not, a generated target port is where the port's listener is |
| `Delivery.ServiceTargetsListenerIff` | internal/resources/service/service.go:122-138 | layer 7: Service and listener agree on a port if and only if it is allocated or their fallbacks coincide |
| `Delivery.ServedSlotsAreReady` | internal/port-lookup/mapper.go:27-69 | the keys the snapshot looks up are the keys the mapper allocated |
| `Delivery.LoadBalancerDelivered` | internal/envoy/resource.go:198-229 | layer 4: each generated target port is bound once, and leads to that port's node port on every address; source-IP hashing and proxy protocol as the load balancer asks |
| `Delivery.BackendDelivered` | internal/envoy/resource.go:254-286 | layer 7: the same for every backend port; HTTP is terminated for TCP ports of HTTP and gRPC routes and of Ingresses without TLS to the backend, and for no others |
| `Tenants.MappedIsAMirror` | internal/kubelb/loadbalancer.go:38-110 | what a Service is mapped to meets what is asked of a tenant's load balancers |
| `Tenants.KeysApart` | internal/kubelb/utils.go:51-54 | in a namespace that does not repeat "tenant" no load balancer has the endpoint key of a route |
| `Tenants.KeysMeet` | internal/kubelb/utils.go:51-54 | in any other there are a load balancer and a route with one key |
| `Tenants.TenantNamesDistinct` | internal/kubelb/utils.go:50-62 | the resource names of a tenant's mirrored Services and backends are distinct |
| `Tenants.TenantEntriesDistinct` | internal/kubelb/utils.go:51-63 | so are the table entries of their ports |
| `Tenants.TenantIsCompatible` | internal/port-lookup/mapper.go:27-69 | no two of their requests are for one endpoint key |
| `Tenants.TenantSettles` | internal/port-lookup/mapper.go:27-69 | one allocation for them, from any duplicate-free table, leaves everything delivery needs |
| `Tenants.MirroredServiceDelivered` | internal/kubelb/loadbalancer.go:308-363 | end to end: the generated Service has exactly one port of the number and protocol of port j of Service i, and what enters there reaches node port j on every address of the stored or inline subset, through mapping, allocation, generation and snapshot, with the affinity and proxy protocol the Service asks for |
| `Tenants.RoutedServiceDelivered` | internal/resources/service/service.go:111-152 | end to end: the Service generated for a backend has its ports, and what enters one reaches its own node port on every address of the route, over HTTP or not as the kind of the route says |
| `Restart.StatusOfPort` | internal/controllers/kubelb/loadbalancer_controller.go:470-493 | the status written from a table gives back each port's allocation, in any port order |
| `Restart.LbRestores` | internal/port-lookup/allocator.go:184-217 | a recorded load balancer's writes restore its row |
| `Restart.BackendRestoredIff` | internal/port-lookup/allocator.go:225-253 | a backend's row comes back if and only if its namespaces agree, whether or not another backend's record is in its place |
| `Restart.BackendIsGivenAnothersPorts` | internal/port-lookup/allocator.go:240-251 | a backend looked up where another is recorded is given that one's ports |
| `Restart.ManagedIsRecorded` | internal/controllers/kubelb/route_controller.go:309-354 | if backends of one record key are generated alike and namespaces agree, the status left by managing a route's Services is the one a reload needs |
| `Restart.CopiedBackendIsForgotten` | internal/port-lookup/allocator.go:225-253 | an allocated, generated and recorded backend whose row does not |
| `Restart.WriteWasRequested` | internal/port-lookup/allocator.go:184-258 | a reload writes nothing but what is requested and held |
| `Restart.RequestIsWritten` | internal/port-lookup/allocator.go:184-258 | a reload writes everything requested |
| `Restart.RestartRecovers` | internal/port-lookup/allocator.go:174-267 | restart loses nothing: the reloaded, healed table is exactly the live part of the table the statuses were written from |
| `TenantRestart.WrittenIsRecorded` | internal/controllers/kubelb/loadbalancer_controller.go:470-493 | the status written for a mirrored Service is the one a reload needs |
| `TenantRestart.TenantRestarts` | internal/port-lookup/allocator.go:174-267 | allocation, generation, recording and reload composed: a tenant whose routes have separately recorded backends gets back exactly the rows it asked for |
| `ControlPlane.EnvoyControlPlane.UpdateCache` | internal/controllers/kubelb/envoy_cp_controller.go:161-200 | publishes if and only if the version changed, fails without effect if mapping fails, and the consistency check never fails |
| `ControlPlane.EnvoyControlPlane.Reconcile` | internal/controllers/kubelb/envoy_cp_controller.go:120-159 | allocates for load balancers, then routes, then updates the cache |
| `ControlPlane.SecondReconcilePublishesNothing` | internal/controllers/kubelb/envoy_cp_controller.go:161-200 | after a success, a second pass over the same objects in any order moves no port and publishes nothing, whatever happened to other endpoints and namespaces in between |
| `ControlPlane.OthersKeepAgreement` | internal/port-lookup/mapper.go:27-69 | allocations for other endpoints leave the rows a namespace asks for alone |
| `ControlPlane.SnapshotReadsItsRows` | internal/envoy/resource.go:198-286 | a snapshot depends on those rows only |
| `ControlPlane.ReconcileSettles` | internal/controllers/kubelb/envoy_cp_controller.go:120-159 | one pass from a duplicate-free table establishes what delivery needs if and only if the requests are compatible |
| `MirrorProtocol.StaleMirrorNames` | internal/controllers/ccm/shared.go:94-114 | exactly the listed names other than the live one; all of them when the origin is gone |
| `MirrorSafety.StepKeepsInv` | internal/controllers/ccm/service_controller.go:67-327 | every step of users, caches, crashes and controller keeps the protocol invariant |
| `MirrorTheorems.RunKeepsInv` | internal/controllers/ccm/service_controller.go:67-327 | so does every run |
| `MirrorTheorems.NoOrphanedMirror` | internal/controllers/ccm/service_controller.go:67-158 | in every run where only the controller removes its finalizers, a mirror not being deleted belongs to an existing Service with its UID that carries a cleanup finalizer |
| `MirrorTheorems.SweepSparesEveryLiveService` | internal/controllers/ccm/service_controller.go:304-327 | even with finalizers force-removed, no step reaps the mirror of a live Service |
| `MirrorTheorems.OtherOriginsUntouched` | internal/controllers/ccm/service_controller.go:271-327 | no step of one origin's reconciliation changes another origin's mirror |
| `MirrorTheorems.ReapedAfterSuccessfulReads` | internal/controllers/ccm/service_controller.go:216-232 | a mirror is reaped only after the same reconciliation read the Service as gone or with another UID and then listed the mirror, no call having failed in between |
| `MirrorTheorems.ReconcileIsExact` | internal/controllers/ccm/service_controller.go:112-232 | after a reconciliation with up-to-date answers the mirrors of the origin are exactly that of the Service seen, or none |
| `MirrorScope.OnlyWantedAreMirrored` | internal/controllers/ccm/service_controller.go:112-232 | in every run, the version a mirror is created for is not being deleted, is of type LoadBalancer, and has class kubelb if classes are used |
| `MirrorScope.EveryMirrorWasWanted` | internal/controllers/ccm/service_controller.go:112-232 | every mirror that exists has had such a version, under the cleanup finalizer |
| `MirrorScope.OnlyUnwantedAreCleanedUp` | internal/controllers/ccm/service_controller.go:271-302 | a mirror is deleted by name only for a version that is none, and the finalizer is removed only from a Service that is none now |
| `MirrorScope.ReadDecides` | internal/controllers/ccm/service_controller.go:67-115 | exactly what a successful read of a Service makes a reconciliation do, by its fields and finalizers |
| `MirrorProgress.WantedCanBeMirrored` | internal/controllers/ccm/service_controller.go:67-232 | from every reachable state with a current cache an undisturbed reconciliation of a Service to be mirrored ends with its mirror and no other, the Service under the cleanup finalizer |
| `MirrorProgress.GoneCanBeSwept` | internal/controllers/ccm/service_controller.go:216-327 | the same for a Service that is gone: no mirror of its origin stands |
| `MirrorProgress.UnwantedCanBeCleanedUp` | internal/controllers/ccm/service_controller.go:271-302 | from every reachable state with a current cache an undisturbed reconciliation of any other Service under a finalizer ends with its mirror condemned, its finalizers removed, and the Service gone if nothing else holds it |
| `Separated.SplitOfJoin` | internal/util/kubernetes/util.go:65-83 | splitting undoes joining for a non-empty list of pieces without the separator |
| `Ingresses.TransformRewritesTheDomain` | pkg/conversion/converter.go:858-881 | whatever leading labels a host has, its domain is rewritten and they stay |
| `Ingresses.TransformKeepsOthers` | pkg/conversion/converter.go:858-881 | only a domain at a label boundary is ever rewritten |
| `Ingresses.FindPortByName` | pkg/conversion/converter.go:805-812 | the first port of that name, none if and only if there is none |
| `Ingresses.PortIsTheOneMeant` | pkg/conversion/converter.go:745-802 | a backend's port is its number, or resolved if and only if the Service is known and has the first port of that name, or just one port |
| `Ingresses.PickIff` | pkg/conversion/converter.go:814-845 | there is one best-ranked candidate and it is the one picked |
| `Ingresses.PathKeepsRank` | pkg/conversion/converter.go:683-733 | a converted path matches the same requests as the original, element by element against text prefix, with the same rank |
| `Ingresses.CatchAllIsLast` | pkg/conversion/converter.go:814-845 | an appended catch-all wins if and only if nothing before it matches |
| `Ingresses.RulesDispatchAlike` | pkg/conversion/converter.go:683-845 | converted paths and default rule send a request to the Service the Ingress means, with the port number it gives, or else the named or only port of the known Service, if and only if the default backend is absent or a Service, or some path matches; otherwise nowhere |
| `HostGroups.CollectHostRules` | pkg/conversion/converter.go:157-193 | the hosts are exactly the listed ones, each with its converted paths in order |
| `HostGroups.MakeGroups` | pkg/conversion/converter.go:295-328 | the sorted hosts of a signature, with no-host split off |
| `HostGroups.IndexHosts` | pkg/conversion/converter.go:271-283 | whatever the map order, hosts are indexed by signature |
| `HostGroups.GroupHostsByRules` | pkg/conversion/converter.go:265-331 | whatever the map order, the groups are those of the sorted signatures |
| `HostGroups.ConvertToHttpRoutes` | pkg/conversion/converter.go:150-261 | the routes are a function of the Ingress, independent of map order |
| `ConversionProperties.HostsArePartitioned` | pkg/conversion/converter.go:157-240 | every listed host is in exactly one route, with its own rules and the default rule last |
| `ConversionProperties.OnlyListedHostsAreServed` | pkg/conversion/converter.go:213-240 | routes name no other hosts, name them in ascending order without repetition, and never merge no-host with named ones |
| `ConversionProperties.EqualRulesShareARoute` | pkg/conversion/converter.go:265-331 | named hosts with equal rules share a route |
| `ConversionProperties.RouteNamesAreDistinct` | pkg/conversion/converter.go:348-356 | route names are pairwise distinct |
| `ConversionProperties.RoutesAreNamedAfterIngress` | pkg/conversion/converter.go:348-356 | a single route is named like its Ingress, several are numbered from one |
| `ConversionProperties.DefaultOnly` | pkg/conversion/converter.go:242-258 | an Ingress that lists no host gets one catch-all route, or none without default backend |
| `ConversionProperties.OwnPathsIff` | pkg/conversion/converter.go:157-193 | the route of a rewritten host has exactly the paths of one original host if and only if no other host rewritten to it brings a path |
| `ConversionProperties.RouteDispatchesMergedPaths` | pkg/conversion/converter.go:150-261 | whatever hosts are rewritten to one, its route dispatches by the paths of all of them, to the Services and ports they mean |
| `ConversionProperties.DispatchIsPreserved` | pkg/conversion/converter.go:150-261 | for every original host no other host intrudes on and every request, the route of the rewritten host selects the Service and port the Ingress means, if and only if the default backend is absent or a Service, or some path matches |
| `ConversionProperties.RewrittenHostsMerge` | pkg/conversion/converter.go:157-193 | two hosts rewritten to one, and a request the Ingress sends to one backend and their rules to another |
| `ConversionProperties.MergedRouteMisdirects` | pkg/conversion/converter.go:157-240 | for any injective signature the generated route of that host does so |
| `Listeners.MergeListeners` | pkg/conversion/gateway.go:145-171 | the shrinking-map loops compute the merge: first occurrences replaced in place, new names appended |
| `Listeners.MergeKeepsExisting` | pkg/conversion/gateway.go:154-161 | order of existing names and every foreign listener are kept |
| `Listeners.MergeHoldsDesired` | pkg/conversion/gateway.go:145-171 | every desired listener is in the result |
| `Listeners.MergeAddsNothingElse` | pkg/conversion/gateway.go:145-171 | nothing else is |
| `Listeners.MergeIsIdempotent` | pkg/conversion/gateway.go:145-171 | merging again changes nothing |
| `Listeners.MergedNamesDistinctIff` | pkg/conversion/gateway.go:163-168 | names stay distinct if and only if the new ones are distinct |
| `Gateways.BuildListeners` | pkg/conversion/gateway.go:74-122 | the HTTP listener, then one HTTPS listener per host name at its first occurrence |
| `Gateways.BuiltTerminatesTls` | pkg/conversion/gateway.go:90-119 | a host is served on 443 with a secret if and only if its first TLS entry names that secret |
| `Gateways.BuiltServesPlainHttp` | pkg/conversion/gateway.go:74-122 | exactly the first listener is plain HTTP on port 80 for any host, all others terminate TLS, and all admit routes of every namespace |
| `Gateways.BuiltNamesDistinctIff` | pkg/conversion/gateway.go:129-138 | built names are distinct if and only if no two TLS hosts map to one name |
| `Gateways.PlainHostsDoNotCollide` | pkg/conversion/gateway.go:129-138 | hosts without dashes and wildcards never do |
| `Gateways.DashedHostsCollide` | pkg/conversion/gateway.go:129-138 | two that do |
| `Gateways.WildcardCollidesIff` | pkg/conversion/gateway.go:129-138 | of single labels exactly `wildcard` has the listener name of the wildcard |
| `Gateways.ListenerConfigEqual` | internal/ingress-to-gateway/gateway.go:155-219 | true if and only if all compared fields agree |
| `Gateways.ListenersEqual` | internal/ingress-to-gateway/gateway.go:129-152 | true if and only if the lengths agree and every listener of the second list is in the first as configured |
| `Gateways.SameIffAgrees` | internal/ingress-to-gateway/gateway.go:63-68 | listeners need no write if and only if every desired one is already there as desired |
| `Gateways.MergeAnnotations` | internal/ingress-to-gateway/gateway.go:70-79 | in any key order: exactly the annotations that read differently are written |
| `Gateways.ReconcileGateway` | internal/ingress-to-gateway/gateway.go:34-87 | create, update or nothing, as decided from the merge |
| `Gateways.PassEstablishes` | internal/ingress-to-gateway/gateway.go:34-87 | a pass leaves distinct names, every desired listener and every desired annotation |
| `Gateways.PassServes` | internal/ingress-to-gateway/gateway.go:34-87 | so the stored Gateway serves plain HTTP on port 80 and every TLS host with the secret of its first entry |
| `Gateways.SecondPassWritesNothing` | internal/ingress-to-gateway/gateway.go:63-90 | a second pass writes nothing, whatever fields the API server defaulted |
| `SharedGateways.SharedGatewaySettlesIff` | internal/ingress-to-gateway/gateway.go:34-87 | after a pass for each of two Ingresses neither has anything left to write if and only if they agree on common listener names and annotations |
| `SharedGateways.DiscordNeverSettles` | internal/ingress-to-gateway/gateway.go:34-87 | otherwise every pass after the first writes, for ever |
| `SharedGateways.CertificatesFight` | pkg/conversion/gateway.go:90-119 | different secrets for one host are such a disagreement |
| `Verification.IngressObject.UpdateStatusStaged` | internal/ingress-to-gateway/controller.go:332-374 | status, timestamp, warnings and route lists after an update, every other annotation kept |
| `Verification.IngressObject.AnnotateSkipped` | internal/ingress-to-gateway/controller.go:565-585 | status and reason are set |
| `Verification.ConvertedWasVerified` | internal/ingress-to-gateway/controller.go:285-374 | in every history without foreign timestamp, converted means: an earlier pass more than 4 s before, all passes written from it on accepted without timeout, no warnings now |
| `Verification.RefusedWriteHidesRejection` | internal/ingress-to-gateway/controller.go:373-373 | a history of passes over one recorded route in which one saw it rejected, could not write, and the next converts |
| `Verification.TerminalIff` | internal/ingress-to-gateway/controller.go:285-330 | exactly when a pass ends the verification, which is when it asks for no requeue |
| `Verification.AcceptedAfterDelayIsTerminal` | internal/ingress-to-gateway/controller.go:285-374 | in every history in which a pass stamps the Ingress and later passes read the current status, see all routes accepted and skip no canary, a pass that acts 5 s after it is terminal and clears the stamp |
| `Verification.UnparsableTimestampIsStuck` | internal/ingress-to-gateway/controller.go:311-315 | with an unparsable timestamp any number of accepted passes stays pending |
| `Verification.TerminalIsAbsorbing` | internal/ingress-to-gateway/controller.go:522-536 | converted and partial stay, over every run of passes that read the current status |
| `Verification.KeepsTerminalIff` | internal/ingress-to-gateway/controller.go:332-374 | exactly when a pass, whatever version it read, keeps a final status |
| `Verification.StaleReadReopens` | internal/ingress-to-gateway/controller.go:332-374 | a pass over one recorded route that does not |
| `Verification.ActsIff` | internal/ingress-to-gateway/controller.go:522-562 | a pass converts if and only if the Ingress has its class and no skip mark, final status or canary mark; otherwise it marks a canary or does nothing |
| `Verification.ExemptAndForeignAreUntouched` | internal/ingress-to-gateway/controller.go:522-562 | in every history, passes leave Ingresses with a skip mark or final status alone, and those of another class that are no canaries |
| `Verification.ForeignUntouchedIff` | internal/ingress-to-gateway/controller.go:538-559 | exactly when a pass leaves an Ingress of another class alone |
| `Verification.ForeignCanaryIsMarked` | internal/ingress-to-gateway/controller.go:538-559 | a canary of another class that it writes to |
| `Verification.CanaryIsMarked` | internal/ingress-to-gateway/controller.go:565-585 | after any number of passes a canary has the skipped status and reason and is otherwise unchanged |
| `Verification.OwnIngressIsConverted` | internal/ingress-to-gateway/controller.go:332-374 | in every history, a pass over an Ingress of its class leaves a status and its routes |
| `ManagedAnnotations.ReconcileAnnotations` | internal/util/kubernetes/util.go:61-85 | the loops compute one pass: unwanted owned keys go, wanted ones are set, the marker is renewed |
| `ManagedAnnotations.MarkerRoundTrip` | internal/util/kubernetes/util.go:65-83 | reading the marker gives back the sorted keys it was written from |
| `ManagedAnnotations.HistoryIsForgotten` | internal/util/kubernetes/util.go:56-85 | after any history: the pairs last wanted, initial pairs for keys never wanted, the marker, nothing else |
| `ManagedAnnotations.ReconcileIsIdempotent` | internal/util/kubernetes/util.go:61-85 | wanting the same again changes nothing |
| `ManagedAnnotations.EditsBetweenPasses` | internal/util/kubernetes/util.go:51-85 | with third-party edits between passes, ownership is remembered and every key reads as the last to touch it left it, unless only the pass before wanted it |
| `ServiceNames.BuildDns1035Name` | internal/kubelb/utils.go:119-145 | the rune loop computes the sanitised, trimmed, prefixed name |
| `ServiceNames.Dns1035NameIsLabel` | internal/kubelb/utils.go:119-145 | any text becomes a label of section 2.3.1 of RFC 1035 |
| `ServiceNames.LabelsAreFixedPoints` | internal/kubelb/utils.go:119-145 | exactly the labels are left as they are |
| `ServiceNames.Dns1035NameIsIdempotent` | internal/kubelb/utils.go:119-145 | sanitising twice is sanitising once |
| `ServiceNames.TruncationKeepsLabels` | internal/kubelb/utils.go:147-152 | a cut label is a label of at most 60 characters |
| `ServiceNames.GeneratedNamesAreLegal` | internal/kubelb/utils.go:109-117 | every generated Service name is a label of at most 60 characters |
| `ServiceNames.NamesAreReadable` | internal/kubelb/utils.go:109-152 | of labels the name is their dashed join if that is under 60 characters, else its first 55 without trailing dashes and a digest |

## Left out

- Kubernetes client calls, informers, retries, metrics, logging and events: the stores are maps and lists, failed calls are steps of the mirror protocol.
- Envoy filter chains, health checks, timeouts, header limits and bootstrap: constant structures; allocated ports are not claimed to avoid Envoy's own.
- Integer widths: ports are unbounded integers, casts to `int32` and `uint32` and `IntOrString` are not modelled.
- Hashes: snapshot versions, rule signatures and name suffixes are parameters, rule signatures taken as injective.
- `sort.Slice`: not stable, so sorting is a relation wherever keys may tie.
- Lower-casing: `MapLoadBalancer` lower-cases ASCII; in generated names lower-casing is a parameter that fixes label characters.
- Load balancers with several endpoint subsets in the restart theorem: only the first is persisted.
- Statuses from different moments in the restart theorem: all reflect one table.
- TenantRestart.TenantRestarts: requires backends whose namespaces agree and whose record keys differ within a route; `Restart.BackendRestoredIff` and `RouteServices.AllocatedRecordsIff` say what happens otherwise.
- Restart.ManagedIsRecorded: requires agreeing namespaces and records, for the same reason.
- Port release in `cleanupOrphanedServices`: its key is not the allocation key. That the orphaned Services are deleted from the cluster is not modelled either.
- Tenants.MirroredServiceDelivered: that it is the only port of its number and protocol asks for a Service that has no other, which the API server guarantees.
- Which annotations ask for TLS to a backend: a flag of the route's source.
- Which annotations are propagated to generated Services: a parameter.
- Updates of a mirror's spec and of Service status: copied fields that no property reads.
- Writing resolved addresses back into the listed objects: the snapshot uses them, nothing else is said.
- PortAllocation.PortAllocator.AllocatePort: requires a free pool port and draws that reach it, because the source retries for ever without one.
- PortAllocation.PortAllocator.AllocatePortsForLoadBalancers: requires that the pool holds what the batch draws, not counting ports it frees on the way.
- PortAllocation.PortAllocator.AllocatePortsForRoutes: the same.
- ControlPlane.EnvoyControlPlane.Reconcile: the same.
- LoadBalancers.MapLoadBalancer: deleting the last applied configuration from the Service's own annotation map, which the source shares, is not modelled.
- LoadBalancers.CreateServicePorts: requires as many endpoint ports as front ports, because the source indexes out of range otherwise.
- MirrorProtocol: a restarted cache is assumed not to go back behind what the controller had seen; if it does, a reconciliation can mirror a Service that is gone.
- MirrorTheorems.ReconcileIsExact: speaks of mirrors not being deleted, because a mirror found while it is being deleted counts as present for the controller.
- `SourceReconciler` and `GatewayReconciler`: they skip objects out of scope without cleanup, so the mirror protocol is the Service controller's.
- Regular-expression paths, redirect and other filters, warning texts, policies, the gRPC twin of the conversion and TLS secret copying.
- Hosts an Ingress does not list when it has rules and a default backend: no catch-all route is generated for them.
- Ingress precedence: exact before prefix, then length, then order, for both sides; how a controller ranks a prefix with a trailing slash above an equal exact path is not modelled.
- Wildcard host matching: a host stands for the requests that select it.
- ConversionProperties.DispatchIsPreserved: requires that no exact path is empty, which the API server guarantees, and that no other host is rewritten to the same one and brings a path; where one does, `ConversionProperties.RouteDispatchesMergedPaths` says what happens.
- Gateways.SecondPassWritesNothing: requires distinct stored listener names, which the API server guarantees, and no colliding hosts, without which it would refuse the write.
- ManagedAnnotations.HistoryIsForgotten: requires non-empty keys without commas, as Kubernetes admits them, and an initial map without marker.
- ManagedAnnotations.EditsBetweenPasses: the same, and that third parties leave the marker alone.
- CLI, tunnel, web UI, tenant provisioning, secret synchronisation and CRD installation: I/O and plumbing.
