# A verified model of nfproxy

nfproxy turns the stream of Kubernetes Service, Endpoints and EndpointSlice events of a node into
nftables state. It never rebuilds that state: every event edits chains, rules, verdict maps and
affinity maps in place, using rule handles it has remembered. This project models those edits and
proves what they add up to.

The model has four layers.

* **The kernel** (`Netfilter`): chains of rules with handles, verdict map elements, affinity maps.
  Class `Kernel` states what is relied on: chain creation is idempotent, a chain can only be deleted
  when it is empty and unreferenced, handles are fresh, adding a present element or removing an absent
  one changes nothing. It records every state it goes through, so that claims about all intermediate
  states can be made.
* **The reference** (`Ruleset`): `Compile` computes, from scratch, the ruleset that a set of services,
  endpoints and verdict map elements calls for. The program has no such function.
* **The proxy** (`Mirror`, `Programming`, `Steps`, `Reconciler`, `Setup`): the imperative code, loop by
  loop, with its flags and handle slices. `Mirror.Synced` is the invariant that ties the proxy's maps to
  the kernel; every critical section keeps it.
* **What follows**: whole interleaved runs (`Runs`, `Leaks`, `Indices`), the event handlers
  (`EndpointEvents`, `SliceEvents`, `ServiceEvents`, `ServiceUpdate`, and the modules `EndpointSync`,
  `SliceSync`, `ServiceState`, `ServiceLife` about them), packets (`Packets`, `Traffic`, `Reachability`), printed
  identities (`Text`, `Identity`) and the stress test generator (`Odometer`, `Generator`).

The main results:

* In every reachable state of every interleaving of the two threads the kernel equals the from-scratch
  compilation of the current state, and no state on the way has a dangling reference
  (`Runs.Execute`, `Mirror.Converged`). Interleavings of the same two threads end alike
  (`Runs.Confluence`).
* Reprogramming a service with endpoints never leaves it unserved (`Programming.ProgramServiceEndpoints`).
* Packet evaluation ends for every packet in every such state, and goes where it should: exactly the
  endpoints of the addressed port, or a rejection exactly when there are none (`Packets.SyncedRanked`,
  `Traffic.NatMeaning`, `Traffic.ClusterIPReachesExactly`, `Traffic.RejectedExactly`). In terms of the
  objects and the packet's own fields: a packet to an address of a service goes to an endpoint that the
  Endpoints object lists for that port (`Reachability.ObjectsReach`), and is masqueraded exactly when it
  should be (`Traffic.PostroutingExactly`).
* `UpdateService`, `UpdateEndpoints` and `UpdateEndpointSlice` install exactly what the new object
  denotes, whatever old object they are given (`ServiceUpdate.UpdateService`,
  `EndpointSync.UpdateInstallsNew`, `SliceSync.SliceUpdateInstalls`).
* Nothing is left behind when everything is deleted (`Leaks.NoLeak`, `ServiceLife.Lifetime`).
* The address generator does not repeat itself before 254^(n-1) addresses, a bound that is exact, and the
  strings it prints, and those hashed into chain names, can be undone (`Generator.DistinctExactly`,
  `Generator.PrintedParses`, `Identity.ServiceIdsTell`, `Identity.EndpointChainsTell`).

`dafny verify dfyconfig.toml` checks the project.

## Model

| member | source | states |
|---|---|---|
| `Netfilter.InsertedClosed` | pkg/nftables/nftables.go:294-313 | adding a rule with a fresh handle whose references resolve keeps referential integrity |
| `Netfilter.RemovedClosed` | pkg/nftables/nftables.go:315-328 | removing any rule keeps referential integrity and distinct handles |
| `Netfilter.Kernel.AddElem` | pkg/nftables/nftables.go:354-391 | an element is added only if its target exists; one already present keeps its target |
| `Netfilter.Kernel.RemoveElem` | pkg/nftables/nftables.go:393-430 | exactly the one element goes; removing an absent one changes nothing |
| `Setup.SetupChains` | pkg/nftables/common.go:80-192 | all seventeen static chains of a family exist, empty, and the other family is untouched |
| `Setup.SetupRules` | pkg/nftables/common.go:194-669 | each static chain holds its rule table, whatever the order in which chains refer to each other |
| `Setup.InitTables` | pkg/nftables/common.go:708-742 | the freshly set up tables are the compilation of a cluster without services |
| `Mirror.Converged` | pkg/proxy/proxy.go:155-205 | in every state that satisfies the invariant the kernel equals, up to handles, the compilation from scratch |
| `Mirror.PortStep` | pkg/proxy/proxy.go:155-205 | frame rule: an edit confined to one port's chains, records and maps leaves what holds of all other ports intact |
| `Steps.NoEndpointsAgree` | pkg/proxy/sets.go:133-188 | a key recorded at a port's creation is in the no-endpoints set if and only if the port has no endpoints |
| `Steps.NoEndpointsAt` | pkg/proxy/sets.go:133-188 | by fields: for each cluster, external and load-balancer address the port was created with, the element of that address with the port's protocol and number is in the no-endpoints set if and only if the port has no endpoints |
| `Ruleset.RejectKeysExactly` | pkg/proxy/sets.go:133-188 | the keys recorded for rejection are those of the cluster, external and load-balancer addresses under the port's protocol and number, in the table of the cluster address, and no others |
| `Steps.RuleReferences` | pkg/nftables/nftables.go:521-619 | rules lead to static chains or from a service chain to an endpoint chain of the same port; only a port's own chains mention its affinity map |
| `Steps.EndpointUnreferenced` | pkg/proxy/proxy_endpoints.go:131-157 | once the service chain is reprogrammed without an endpoint, nothing in the kernel refers to that endpoint's chain |
| `Steps.DrainedReferences` | pkg/proxy/proxy_service.go:163-201 | once a service chain is drained of the port's rules, no rule refers to the port's chain or affinity map |
| `Steps.AddEndpointSynced` | pkg/proxy/proxy_endpoints.go:54-92 | adding an endpoint keeps the invariant for every port |
| `Steps.DeleteEndpointSynced` | pkg/proxy/proxy_endpoints.go:119-150 | deleting an endpoint keeps the invariant for every port |
| `Steps.ServiceStepSynced` | pkg/proxy/proxy_service.go:59-202 | adding, deleting or toggling one service port keeps the invariant for every port |
| `Programming.ProgramChainRules` | pkg/nftables/nftables.go:294-313 | the rules end up consecutively after the given handle, in order, with the returned handles, and nothing else moves |
| `Programming.DeleteChainRules` | pkg/nftables/nftables.go:315-328 | exactly the entries with the given handles go, the others keep their order |
| `Programming.AddEndpointRules` | pkg/nftables/nftables.go:161-208 | counter, masquerade mark and DNAT are appended, and their handles returned in order |
| `Programming.AddEndpointUpdateRule` | pkg/nftables/nftables.go:210-249 | the affinity update rule becomes the first rule of the endpoint chain |
| `Programming.BuildAct` | pkg/nftables/nftables.go:549-555 | the MatchAct map sends each index to the last endpoint chain that carries it |
| `Programming.ReplaceRule` | pkg/nftables/nftables.go:586-616 | one rule is replaced in place, its handle is updated in the slice, and the chain serves in each intermediate state |
| `Programming.ProgramServiceEndpoints` | pkg/nftables/nftables.go:521-619 | the chain becomes [counter, balance] or [counter, matchact, balance] for the new list with mirrored handles; from a nonempty list, every intermediate state holds a load-balance rule and only targets old or new endpoint chains |
| `Programming.AddServiceMatchActRule` | pkg/nftables/nftables.go:714-760 | the MatchAct rule is inserted right before the rule with the given handle |
| `Reconciler.Proxy.constructor` | pkg/proxy/proxy.go:54-73 | a new proxy on initialised tables satisfies the invariant with an empty state |
| `Reconciler.DroppedAt` | pkg/proxy/proxy_endpoints.go:125-147 | for lists without duplicates, dropping the endpoint that prints and is placed alike removes exactly that position and keeps the order |
| `Reconciler.ShiftLeft` | pkg/proxy/proxy_endpoints.go:125-147 | what append over a slice's own backing array leaves in that array, stale last cell included |
| `Reconciler.Proxy.UpdateServiceChain` | pkg/proxy/proxy.go:155-205 | flag, chain, handle slice and no-endpoints keys of the port agree with its endpoint list; no other chain or element changes |
| `Reconciler.ServiceFacts` | pkg/proxy/proxy_service.go:484-496 | in every synced state the handle slice of a service port lists its chain's handles in order, the chain has the shape its endpoints and affinity call for, and its endpoints' chains and affinity map agree with it |
| `Reconciler.Proxy.AddToNoEndpointsList` | pkg/proxy/sets.go:133-156 | the port's cluster, external and load-balancer addresses become rejected under its protocol and number, and nothing else does |
| `Reconciler.Proxy.RemoveFromNoEndpointsList` | pkg/proxy/sets.go:158-188 | the port's cluster, external and load-balancer addresses stop being rejected under its protocol and number, and nothing else changes |
| `Reconciler.Proxy.AddServicePortToSets` | pkg/proxy/sets.go:27-69 | every address of the port gets its element and its masquerade element, and a nonzero nodeport its own; present elements stay |
| `Reconciler.Proxy.RemoveServicePortFromSets` | pkg/proxy/sets.go:71-131 | addresses of the last known object go for this port's number, and all of that object's nodeports under this port's protocol |
| `Reconciler.Proxy.AddEndpointRules` | pkg/proxy/proxy.go:127-153 | the endpoint chain is exactly the rules its affinity calls for, with mirrored handles |
| `Reconciler.Proxy.AddEndpoint` | pkg/proxy/proxy_endpoints.go:54-92 | the endpoint is appended with the list length as index, the invariant is kept and nothing else changes |
| `Reconciler.Proxy.DeleteEndpointRules` | pkg/proxy/proxy_endpoints.go:152-168 | an unreferenced chain is emptied and deleted together with its record |
| `Reconciler.Proxy.DeleteEndpoint` | pkg/proxy/proxy_endpoints.go:119-150 | ranging over an array that shifts under the loop removes the one matching endpoint, once, and keeps the invariant |
| `Reconciler.Proxy.AddAffinityEndpoints` | pkg/proxy/proxy.go:75-92 | every endpoint chain of the list gains the leading update rule and its handle, no other chain changes |
| `Reconciler.Proxy.DeleteAffinityEndpoints` | pkg/proxy/proxy.go:94-111 | every endpoint chain of the list loses its leading update rule and its handle, no other chain changes |
| `Reconciler.Proxy.AddServicePort` | pkg/proxy/proxy_service.go:59-125 | a new port is recorded and exposed, a known one is left alone; the invariant, with the affinity and reject state it implies, is kept |
| `Reconciler.Proxy.DeleteServicePort` | pkg/proxy/proxy_service.go:143-202 | the port, its chain, map and elements go, endpoints lose their update rules, the invariant is kept |
| `Reconciler.Proxy.AffinityOn` | pkg/proxy/proxy_service.go:468-509 | only the port's affinity changes; the MatchAct rule sits second, its handle second in the slice, and every endpoint has its update rule |
| `Reconciler.Proxy.AffinityOff` | pkg/proxy/proxy_service.go:511-558 | only the port's affinity changes, with or without endpoints; the map is deleted when nothing refers to it any more |
| `Runs.Apply` | pkg/proxy/proxy_service.go:59-202 | every critical section refines a pure step on services, endpoints and elements, and keeps the invariant |
| `Runs.Execute` | pkg/proxy/proxy.go:155-205 | after any admissible run of interleaved critical sections the kernel is the compilation of what the steps add up to, and every recorded kernel state is closed under references |
| `Runs.StepSeparates` | pkg/proxy/proxy_endpoints.go:103-111 | a critical section of one thread does the same wherever the other thread is |
| `Runs.RunSeparates` | pkg/proxy/proxy_endpoints.go:103-111 | any interleaving ends where the two threads end separately |
| `Runs.Confluence` | pkg/proxy/proxy_endpoints.go:103-111 | two interleavings of the same service and endpoint sequences end in the same state and the same compiled ruleset |
| `Runs.SnapshotCurrent` | pkg/proxy/proxy_endpoints.go:103-111 | an endpoint list read in one critical section is still current after any number of service steps |
| `Packets.SyncedRanked` | pkg/nftables/common.go:329-455 | in every synced state jumps and lookups go down in rank, so evaluation ends for every packet |
| `Packets.EvalEndpoint` | pkg/nftables/nftables.go:161-208 | an endpoint chain remembers the client if asked, marks the endpoint's own packets and redirects to it |
| `Packets.ActIsLast` | pkg/nftables/nftables.go:549-555 | an index in the MatchAct map belongs to the last endpoint that has it, and is there if and only if some endpoint has it |
| `Packets.EvalService` | pkg/nftables/nftables.go:521-619 | a service chain sends a packet to the remembered endpoint, or to the one the load balancer draws |
| `Traffic.NatMeaning` | pkg/nftables/common.go:329-455 | NAT evaluation of any packet: it is offered to the cluster, external and load-balancer entries of its protocol, destination and destination port and, if local, to the nodeport entry, in this order, and the first port with endpoints takes it |
| `Traffic.RedirectedExactly` | pkg/nftables/common.go:329-455 | a packet is redirected if and only if one of its entries leads to a port with endpoints; otherwise it passes |
| `Traffic.ClusterIPReaches` | pkg/nftables/common.go:329-455 | a packet to a cluster IP key goes to the chosen endpoint of that port, with the state that endpoint's chain leaves |
| `Traffic.ClusterIPReachesExactly` | pkg/nftables/common.go:329-455 | without affinity the reachable destinations, over all draws, are exactly the port's endpoints |
| `Traffic.RejectedExactly` | pkg/nftables/common.go:648-664 | on the input and output hooks a packet whose family, protocol, port and destination are those of the port and of any address it was created with is rejected if and only if it opens a connection and the port has no endpoints |
| `Traffic.ForwardRejectedExactly` | pkg/nftables/common.go:482-499 | on the forward hook the same holds for packets without the masquerade mark; marked ones are accepted before the lookup |
| `Traffic.ForwardMeaning` | pkg/nftables/common.go:482-609 | the forward hook in every connection state: invalid dropped, marked accepted, new rejected by the no-endpoints set, established and related accepted from or to the cluster range, else passed |
| `Traffic.InOutMeaning` | pkg/nftables/common.go:458-547 | the input and output hooks: new packets rejected by the no-endpoints set, then packets with the drop mark 0x8000 dropped |
| `Traffic.EvalMarkDrop` | pkg/nftables/common.go:243-257 | the mark-drop chain sets exactly the mark that the firewall chain drops |
| `Traffic.PostroutingExactly` | pkg/nftables/common.go:229-299 | a packet is masqueraded on the way out if and only if its source is outside the cluster range or it carries mark 0x4000; otherwise nothing happens to it |
| `Traffic.PostroutingByBits` | pkg/nftables/common.go:274-299 | the same on the bits of the source and the bounds of the range configured for the packet's family |
| `Traffic.HairpinMasqueraded` | pkg/nftables/common.go:288-297 | an endpoint that reaches itself through its service is masqueraded on the way out |
| `Reachability.ClusterAddressReaches` | pkg/nftables/common.go:302-455 | with a service object in force, a packet of its family with a port's protocol and number to its cluster address is redirected, at either NAT hook, to an endpoint listed for that port name |
| `Reachability.ExternalAddressReaches` | pkg/nftables/common.go:302-455 | the same for its external addresses, unless another service has the address as its cluster address |
| `Reachability.BalancerAddressReaches` | pkg/nftables/common.go:302-455 | the same for its load-balancer addresses, unless another service has the address as cluster or external address |
| `Reachability.NodePortReaches` | pkg/nftables/common.go:302-455 | the same for local packets to its nodeport, unless some service has the node's address under that number |
| `Reachability.AddressRejects` | pkg/proxy/sets.go:133-156 | with a port on record as AddService leaves it, a packet to any address of the object is rejected if and only if it is new and no endpoint is installed (and, forwarded, unmarked) |
| `Reachability.ObjectsReach` | pkg/proxy/proxy.go:155-205 | with a service and its Endpoints object in force, a packet to the cluster address and a port goes to an address and number that the Endpoints object lists, ready or not, for that port name and protocol |
| `Traffic.Remembered` | pkg/nftables/nftables.go:210-249 | with affinity, the endpoint a packet is sent to is remembered for its source under that endpoint's index |
| `Traffic.Recalled` | pkg/nftables/nftables.go:714-760 | a remembered client's packet goes to the last endpoint with the remembered index |
| `Traffic.SecondPacket` | pkg/nftables/nftables.go:549-555 | a client's second packet goes where the first went, or to the last endpoint sharing its index |
| `Traffic.MarkedExactly` | pkg/nftables/common.go:329-455 | after NAT a packet carries the masquerade mark if and only if it comes from outside the cluster and its key asks for it, or the endpoint reaches itself |
| `Indices.ReaddedDistinctExactly` | pkg/proxy/proxy_endpoints.go:67-81 | after a deletion, the next endpoint's index is unique if and only if the last endpoint was deleted |
| `Indices.PositionsKept` | pkg/proxy/proxy_endpoints.go:67-81 | in runs that only add or delete at the tail, every index is its position |
| `Indices.StickyWhenPositions` | pkg/proxy/proxy.go:75-110 | then session affinity works: a client's next packet gets the verdict of its first |
| `EndpointEvents.AddEntry` | pkg/proxy/proxy_endpoints.go:54-92 | one more binding is installed, services are as before |
| `EndpointEvents.DeleteEntry` | pkg/proxy/proxy_endpoints.go:103-111 | one binding fewer is installed, or none if it was not there, services are as before |
| `EndpointEvents.ProcessEpSubsets` | pkg/proxy/proxy_endpoints.go:170-200 | all port and address pairs, ready or not, in order, or an error if and only if a used port or address is invalid |
| `EndpointEvents.IsPortInSubsets` | pkg/proxy/tools.go:169-187 | the search succeeds if and only if one subset has both the port and, among its ready or its not-ready addresses, the address |
| `EndpointEvents.SubsetsHave` | pkg/proxy/tools.go:169-187 | that is if and only if the object denotes the pair |
| `EndpointEvents.BindingsExactly` | pkg/proxy/proxy_endpoints.go:170-200 | what an object denotes, by its fields: each port of a subset with each address of it, ready or not, named after the object, local if on this node |
| `EndpointEvents.AddEndpoints` | pkg/proxy/proxy_endpoints.go:35-52 | the object is cached first; its bindings are installed if it is valid, none otherwise |
| `EndpointEvents.DeleteEndpoints` | pkg/proxy/proxy_endpoints.go:94-117 | the bindings of the object passed in go; an invalid object changes nothing |
| `EndpointEvents.UpdateEndpoints` | pkg/proxy/proxy_endpoints.go:202-260 | what the new object has and the stored one lacks is added, the converse removed; the old object matters only without a cached one |
| `EndpointSync.SameEntryIsSamePlace` | pkg/proxy/tools.go:169-187 | within one service the search compares exactly what identifies an endpoint |
| `EndpointSync.UpdateIsReady` | pkg/proxy/proxy_endpoints.go:202-260 | when installed and cached agree, no entry that an update adds is installed already |
| `EndpointSync.UpdateInstallsNew` | pkg/proxy/proxy_endpoints.go:202-260 | after an update of a cached object, installed are exactly the pairs of the cached objects, for any old object supplied |
| `EndpointSync.UpdateAfterInvalid` | pkg/proxy/proxy_endpoints.go:35-52 | after an invalid object was cached, the next valid one is installed in full if and only if it shares no pair with it |
| `EndpointSync.AddInstalls` | pkg/proxy/proxy_endpoints.go:35-52 | adding an uncached object keeps installed and cached in agreement |
| `EndpointSync.DeleteUninstalls` | pkg/proxy/proxy_endpoints.go:94-117 | deletion keeps them in agreement if and only if the object passed in covers the cached one |
| `SliceEvents.ProcessEpSlice` | pkg/proxy/proxy_endpointslice.go:37-82 | all entries of a slice with their readiness, in order, or an error if and only if the slice is invalid |
| `SliceEvents.IsPortInEndpointSlice` | pkg/proxy/tools.go:190-216 | the readiness of the first entry with that port and address, if there is one |
| `SliceEvents.ReadyExactly` | pkg/proxy/proxy_endpointslice.go:37-82 | what a slice denotes, by its fields: each port with each address of each ready endpoint, named after the service label, local if the endpoint's hostname is this node |
| `SliceEvents.ValidSliceExactly` | pkg/proxy/proxy_endpointslice.go:37-82 | a slice is refused if and only if it has the label, an endpoint and a port without a number |
| `SliceEvents.SearchExactly` | pkg/proxy/tools.go:190-216 | the search yields the readiness of the first endpoint with the address, if and only if the slice has the port |
| `SliceEvents.AddEndpointSlice` | pkg/proxy/proxy_endpointslice.go:84-109 | the slice is cached; its ready bindings are installed if it is valid |
| `SliceEvents.DeleteEndpointSlice` | pkg/proxy/proxy_endpointslice.go:111-141 | the ready bindings of the slice passed in go |
| `SliceEvents.UpdateEndpointSlice` | pkg/proxy/proxy_endpointslice.go:143-235 | entries that become ready are added, entries that stop being ready or disappear are removed |
| `SliceSync.SearchFindsReadiness` | pkg/proxy/tools.go:190-216 | for two versions of a slice, the search says ready if and only if the other version has that endpoint ready |
| `SliceSync.SliceUpdateIsReady` | pkg/proxy/proxy_endpointslice.go:143-235 | no entry that an update adds is installed already |
| `SliceSync.SliceUpdateInstalls` | pkg/proxy/proxy_endpointslice.go:143-235 | after an update, installed is the union of the ready entries of all cached slices, for any old slice supplied |
| `SliceSync.SliceAddInstalls` | pkg/proxy/proxy_endpointslice.go:84-109 | the same after an addition |
| `SliceSync.SliceDeleteUninstalls` | pkg/proxy/proxy_endpointslice.go:111-141 | the same after a deletion, if and only if the slice passed in covers the cached version and no endpoint of another slice |
| `SliceSync.DeletesWhenCached` | pkg/proxy/proxy_endpointslice.go:111-141 | which a deletion event that carries the cached slice does |
| `SliceSync.ListIsMultisetUnion` | pkg/proxy/proxy_endpointslice.go:84-235 | each port's endpoint list is, as a multiset, the union over the disjoint cached slices |
| `ServiceState.RootedWhenSynced` | pkg/proxy/proxy_service.go:163-201 | in every synced state address and nodeport elements lead to the live chain of a recorded port |
| `ServiceState.AddKeepsPlan` | pkg/proxy/proxy_service.go:59-125 | adding a port exposes it under exactly the object's addresses, its sibling ports and other services keep theirs |
| `ServiceState.AddedKeys` | pkg/proxy/sets.go:27-69 | a port is given exactly the address elements of its object and, if and only if its nodeport is nonzero, the nodeport element of that number |
| `ServiceState.DeleteKeepsPlan` | pkg/proxy/proxy_service.go:143-202 | deleting a port takes exactly its own address elements, and its chain can be deleted |
| `ServiceState.ExposeKeepsPlan` | pkg/proxy/proxy_service.go:343-349 | adding an address for a port adds it to that port only, also if it was there already |
| `ServiceState.HideKeepsPlan` | pkg/proxy/proxy_service.go:358-364 | removing an address for a port takes it from that port only |
| `ServiceEvents.AddService` | pkg/proxy/proxy_service.go:31-57 | a new programmable service gets exactly its ports under exactly its addresses, one already in place is left alone, a headless or external-name one is only cached; every field of a new port is on record, an unused nodeport leads to its port, masquerading stays complete, other services are untouched |
| `ServiceEvents.DeleteService` | pkg/proxy/proxy_service.go:127-141 | of the cached object's ports exactly those not named by the object passed in remain, none if nothing was cached, the service is forgotten, and masquerading stays complete where no other service shares an address and number |
| `ServiceEvents.DeletedAll` | pkg/proxy/proxy_service.go:127-141 | deleting a service with its own object leaves none of its ports |
| `ServiceUpdate.IsServicePortInPorts` | pkg/proxy/tools.go:221-241 | the first port of the same name, else the first of the same protocol and number, else none |
| `ServiceUpdate.MatchedIsThere` | pkg/proxy/proxy_service.go:273-295 | under the bijection condition the stored port that a new one matches has not been touched, and nothing else is in the new one's way |
| `ServiceUpdate.ProcessServicePortChanges` | pkg/proxy/proxy_service.go:247-328 | afterwards the ports are exactly the new ones: unchanged ones as they were, all others freshly added |
| `ServiceUpdate.IsIngressEqual` | pkg/proxy/tools.go:278-293 | same length and same set of addresses, in any order |
| `ServiceUpdate.CompareSlices` | pkg/proxy/tools.go:243-254 | equality of the lists, order included |
| `ServiceUpdate.IsStringInSlice` | pkg/proxy/tools.go:256-274 | membership |
| `ServiceUpdate.ProcessClusterIPChanges` | pkg/proxy/proxy_service.go:332-366 | every port ends up under exactly the new cluster address, all other addresses as before |
| `ServiceUpdate.ProcessExternalIPChanges` | pkg/proxy/proxy_service.go:370-410 | every port, old or freshly added, ends up under exactly the new external addresses |
| `ServiceUpdate.ProcessLoadBalancerIPChange` | pkg/proxy/proxy_service.go:414-458 | every port ends up under exactly the new load-balancer addresses |
| `ServiceUpdate.ProcessAffinityChange` | pkg/proxy/proxy_service.go:462-560 | every port ends up with the new object's affinity |
| `ServiceUpdate.UpdateService` | pkg/proxy/proxy_service.go:205-243 | whatever old object is passed in, a known service ends up with exactly the new ports under exactly the new addresses and affinity, the new object is cached, no other service changes and, if no address changes its kind, every address element has its masquerade element |
| `ServiceUpdate.InSyncExactly` | pkg/proxy/proxy_service.go:205-458 | what that means: recorded names are exactly the new ports, address elements of the service exactly new addresses times new ports, each leading to a live chain of the stored ID |
| `ServiceLife.Lifetime` | pkg/proxy/proxy_service.go:31-243 | a service that is added, updated any number of times and deleted leaves no port, no address element and every other service as it was; with its cluster address fixed and nothing else there, the kernel is as after initialisation |
| `Leaks.NoLeak` | pkg/proxy/sets.go:27-188 | any interleaved run that ends with every service and endpoint deleted leaves the kernel as after initialisation, when masquerade elements are edited together with their address elements |
| `Leaks.TidyBacks` | pkg/proxy/proxy_service.go:370-458 | in such runs every masquerade element has an address element of the same key |
| `Leaks.DeleteBacks` | pkg/proxy/sets.go:71-131 | the delete path removes address elements only together with their masquerade elements |
| `Leaks.AddCovers` | pkg/proxy/sets.go:27-69 | the add path gives every address element a masquerade element |
| `Leaks.HideCovers` | pkg/proxy/proxy_service.go:402-408 | removing an address with its masquerade element keeps masquerading complete when the address is in no other set |
| `Leaks.NothingLeft` | pkg/proxy/proxy_service.go:127-202 | without services and endpoints, a rooted and backed state is the initial one |
| `Leaks.ReaddressedLeak` | pkg/proxy/proxy_service.go:347-348 | after a change of cluster address and the deletion of the port, the old masquerade element is left if and only if the old address is no address of the service any more |
| `Leaks.SiblingNodePort` | pkg/proxy/sets.go:119-127 | deleting one port takes another port's nodeport with it if and only if both use the same protocol |
| `Leaks.NodePortsRemovedExactly` | pkg/proxy/sets.go:119-127 | the nodeport elements that go with a port are exactly the nonzero nodeports of the cached object's ports, under this port's protocol and in its table |
| `Identity.PortNameSame` | pkg/proxy/types.go:35-37 | names free of slashes and colons can be read off the front of any string that starts with them |
| `Identity.ServiceIdsTell` | pkg/proxy/tools.go:142-146 | the strings hashed into service IDs are equal if and only if name, protocol, family, address and port are |
| `Identity.EndpointChainsTell` | pkg/proxy/tools.go:136-140 | the strings hashed into endpoint chain names are equal if and only if service port and endpoint are |
| `Identity.ServiceIdSpelled` | pkg/proxy/proxy_service.go:73-75 | the string hashed for a port of a service object, spelled out from the object's fields |
| `Identity.EndpointChainSpelled` | pkg/proxy/proxy_endpoints.go:58-65 | the string hashed for an endpoint, spelled out from its address, port and protocol |
| `Identity.EndpointTextSame` | pkg/proxy/endpoints.go:82-93 | comparing endpoints by their printed form compares address, port and protocol |
| `Identity.HostPortSame` | pkg/proxy/endpoints.go:86-93 | host and port can be told apart again, bracketed or not |
| `Identity.ServiceTextSame` | pkg/proxy/service.go:57-59 | the printed service determines family, address, port and protocol although the address is not bracketed |
| `Identity.ColonsCollide` | pkg/proxy/types.go:35-37 | with colons in names two different ports print alike |
| `Odometer.Advance` | pkg/endpointsgen/util.go:245-254 | the in-place byte loop computes one tick of the odometer |
| `Odometer.TickCounts` | pkg/endpointsgen/util.go:245-254 | a tick adds one to what the wheels show, modulo 254 to the number of wheels, also from bytes 0 and 255 |
| `Odometer.Distinct` | pkg/endpointsgen/util.go:245-254 | from any start, addresses fewer than 254^(n-1) ticks apart differ |
| `Odometer.CoincideExactly` | pkg/endpointsgen/util.go:245-254 | from a start with bytes 1 to 254, two addresses coincide if and only if whole turns lie between them |
| `Odometer.WheelsStay` | pkg/endpointsgen/util.go:245-254 | the first byte never moves, and a byte between 1 and 254 stays there, so zero never comes back |
| `Generator.GenAddrString` | pkg/endpointsgen/util.go:293-322 | the two printing loops produce the joined decimal, or hexadecimal, parts |
| `Generator.PrintedParses` | pkg/endpointsgen/util.go:293-322 | a dotted quad, and form 1 of section 2.2 of RFC 4291, reads back as the bytes that were printed |
| `Generator.GenerateSubsets` | pkg/endpointsgen/util.go:229-291 | subsets of the asked size whose concatenation is a prefix of the generated sequence, short of it by less than one subset; ports wrap at 16 bits |
| `Generator.GeneratedFields` | pkg/endpointsgen/util.go:255-287 | the i-th address reads back as the i-th odometer position, port and host names are it with dashes, ports count up from 16384 and wrap at 16 bits |
| `Generator.GenerateEndpoints` | pkg/endpointsgen/util.go:185-209 | the same for endpoints made of subsets, with fresh names |
| `Generator.GenerateServices` | pkg/endpointsgen/util.go:156-182 | one service per endpoints object, with its name and all its ports in order |
| `Generator.GenerateObjects` | pkg/endpointsgen/util.go:118-153 | exactly the asked numbers of services, subsets and addresses, together the generated sequence with nothing lost or reordered |
| `Generator.GeneratedDistinct` | pkg/endpointsgen/util.go:229-291 | the printed addresses are pairwise distinct up to 254^(n-1) of them, from any start |
| `Generator.DistinctExactly` | pkg/endpointsgen/util.go:229-291 | from a start with bytes 1 to 254 they are pairwise distinct if and only if there are at most that many |

## Where the code departs from what one would expect

The model follows the code in each of these cases.

* The affinity index of an endpoint is the length of its list, so it repeats after a deletion that is not
  at the tail; `Indices.ReaddedDistinctExactly` says exactly when.
* The forward chain accepts marked packets before it looks at the no-endpoints set
  (`Traffic.ForwardRejectedExactly`).
* An invalid Endpoints object is cached although nothing of it is installed
  (`EndpointSync.UpdateAfterInvalid`), and deletions work from the object passed in, not from the cached
  one (`EndpointSync.DeleteUninstalls`, `SliceSync.SliceDeleteUninstalls`).
* Deleting a port removes the nodeports of its siblings under its own protocol (`Leaks.SiblingNodePort`).
* A change of the cluster address leaves the masquerade set alone (`Leaks.ReaddressedLeak`).
* The not-ready addresses of an Endpoints object are installed like the ready ones
  (`EndpointEvents.ProcessEpSubsets`, `EndpointEvents.BindingsExactly`).
* `checkStartingIP` counts the first byte of an address, which the generator never moves; the bound proved
  here does not.

Side conditions of the runs and handlers, stated in each contract: one IP family per service port and
its endpoints, endpoint lists without duplicates, address keys distinct across service ports, services
with a cluster IP, and affinity turned on only for ports that have endpoints (the handler reads the second
handle of a chain that is otherwise empty).

## Left out

- The netlink library, its retries and its partial failures: kernel operations succeed under the preconditions of class `Kernel`, and those preconditions are proved at every call.
- SHA-256, base32 and the truncation to sixteen characters: the hashed tuple stands for its hash, so hash collisions are not modelled.
- Initialisation with only one cluster CIDR: both families are set up.
- `BootstrapRules` in pkg/proxy/tools.go: runs start from a new proxy.
- Affinity timeouts and ageing, counters, rule comments and logging.
- In-place nodeport edits of `UpdateService` (pkg/proxy/proxy_service.go:297-315): the update is stated for services without nodeports; adding and deleting services with nodeports is modelled.
- ServiceUpdate.UpdateService: requires that the service is cached and that the ports match one to one by name or by protocol and number, and that a change of affinity does not come with a change of ports.
- ServiceUpdate.ProcessServicePort: the branch for a port that is recorded but matched by no stored port is proved unreachable under those conditions.
- ServiceState.AddKeepsPlan: nodeport elements are only bounded from above, since a later deletion of a sibling port may take them; that a new service gets them is stated by `ServiceEvents.AddService`.
- ServiceEvents.AddService: is stated for a service without recorded ports or with exactly its own; an addition over a different version is left to the update handler.
- Masquerade content when an address is of two kinds, changes its kind, or is shared with another service under the same number, or after a change of cluster address, beyond `Leaks.ReaddressedLeak`.
- Locking as such: critical sections are atomic steps of a run; the set edits of the service thread that happen outside the mutex are steps of their own.
- The printed form of addresses in service and endpoint strings: any injective printing without slashes and brackets is allowed.
- `checkStartingIP`, the Kubernetes client calls of the generator, random names (a parameter), and the dual stack mode, which has no starting address.
- Topology filtering, local endpoint listing, health check ports, controller wiring, flags and metrics.
