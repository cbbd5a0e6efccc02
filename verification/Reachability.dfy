/** From objects to packets: what the objects in force mean for a packet, by its own fields. */
module Reachability {
  import opened Names
  import opened Netfilter
  import opened Ruleset
  import opened Mirror
  import opened Api
  import opened Reconciler
  import Packets
  import opened Traffic
  import opened ServiceState
  import opened ServiceEvents
  import EndpointEvents
  import EndpointSync

  type Packet = Packets.Packet

  type State = Packets.State

  function FamilyFor(svc: ServiceObject): Family {
    if svc.clusterIP.Ip6? then IPv6 else IPv4
  }

  /** The packet is for the port, whatever address it uses. */
  predicate ForPort(svc: ServiceObject, q: ServicePort, p: Packet) {
    p.family == FamilyFor(svc) && p.protocol == q.protocol && p.port == q.port
  }

  /** The service is in force and the port is one of its ports. */
  ghost predicate InForce(cluster: Cluster, b: Books, t: Tables, svc: ServiceObject, q: ServicePort) {
    && Synced(cluster, b, t) && ServiceEvents.InSync(ConfigOf(cluster, b, t), svc)
    && DistinctPorts(svc.ports) && q in svc.ports
  }

  /** The packet is sent to one of the endpoints listed for the port. */
  ghost predicate SentToPort(b: Books, n: PortName, v: Packets.Verdict) {
    n in b.endpoints && exists j :: 0 <= j < |b.endpoints[n]|
                                    && v == Packets.Redirect(b.endpoints[n][j].id.ip, b.endpoints[n][j].id.port)
  }

  /** In one verdict map, nobody but the service holds the packet's key. */
  ghost predicate Unclaimed(t: Tables, svc: ServiceObject, s: SetName, p: Packet) {
    var k := Elem(p.family, s, p.protocol, p.dst, p.port);
    k in t.elems ==> t.elems[k].ServiceChain? && t.elems[k].id.name.service == svc.name
  }

  /** The service's own elements lead to the chain of their port. */
  lemma OwnKeyLeads(cluster: Cluster, b: Books, t: Tables, svc: ServiceObject, q: ServicePort, s: SetName, a: Address)
    requires InForce(cluster, b, t, svc, q) && IpSet(s) && a in AddrsOf(svc).For(s)
    ensures var n := PortName(svc.name, q.name, q.protocol);
            var k := Elem(FamilyFor(svc), s, q.protocol, a, q.port);
            n in b.services && k in t.elems && t.elems[k] == ChainOf(n, b.services[n].base)
  {
    hide Synced, AddrsOf;
    var n, plan, cfg := PortName(svc.name, q.name, q.protocol), PlanFor(svc), ConfigOf(cluster, b, t);
    PlanUpToHas(svc, |svc.ports|);
    var i :| 0 <= i < |svc.ports| && svc.ports[i] == q;
    hide PlanUpTo, DistinctPlan, DistinctPorts;
    assert n in plan && plan[n] == StateOf(svc, q);
    assert PortHas(cfg, svc.name, FamilyOf(svc.clusterIP), NodePortsOf(svc.ports), n, plan[n]);
    var k := Elem(FamilyFor(svc), s, q.protocol, a, q.port);
    assert k == AddrKey(cfg.services[n].base, s, a);
  }

  /** An element of the service under the port's key leads to that port and no other. */
  lemma OwnKeyOnly(cluster: Cluster, b: Books, t: Tables, svc: ServiceObject, q: ServicePort, s: SetName, a: Address)
    requires InForce(cluster, b, t, svc, q) && IpSet(s)
    requires var k := Elem(FamilyFor(svc), s, q.protocol, a, q.port);
             k in t.elems && t.elems[k].ServiceChain? && t.elems[k].id.name.service == svc.name
    ensures var n := PortName(svc.name, q.name, q.protocol);
            n in b.services && t.elems[Elem(FamilyFor(svc), s, q.protocol, a, q.port)] == ChainOf(n, b.services[n].base)
  {
    var cfg, plan := ConfigOf(cluster, b, t), PlanFor(svc);
    var k := Elem(FamilyFor(svc), s, q.protocol, a, q.port);
    hide Synced, Rooted, PlanUpTo;
    RootedWhenSynced(cluster, b, t);
    PlanUpToHas(svc, |svc.ports|);
    var m := ElemOwner(cfg, svc.name, FamilyOf(svc.clusterIP), NodePortsOf(svc.ports), plan, k);
    var i :| 0 <= i < |svc.ports| && m == PortNameOf(svc.name, svc.ports[i]);
    assert plan[m] == StateOf(svc, svc.ports[i]);
    assert SamePort(svc.ports[i], q);
    var j :| 0 <= j < |svc.ports| && svc.ports[j] == q;
    assert i == j;
  }

  /** Where a packet is first offered: earlier maps have nothing for it, or lead to the same chain. */
  lemma RoutesStart(elems: map<Elem, Chain>, p: Packet, s: SetName, c: Chain)
    requires IpSet(s)
    requires var k := Elem(p.family, s, p.protocol, p.dst, p.port); k in elems && elems[k] == c
    requires s != ClusterIP ==> var k := Elem(p.family, ClusterIP, p.protocol, p.dst, p.port); k in elems ==> elems[k] == c
    requires s == LoadbalancerIP ==> var k := Elem(p.family, ExternalIP, p.protocol, p.dst, p.port); k in elems ==> elems[k] == c
    ensures Routes(elems, p) != [] && Routes(elems, p)[0] == c
  {}

  /** The first port that a packet is offered to takes it, if it has endpoints. */
  lemma FirstRouteTakes(cluster: Cluster, b: Books, t: Tables, n: PortName, hook: StaticChain, p: Packet, st: State)
    requires Synced(cluster, b, t) && (hook == NatPrerouting || hook == NatOutput)
    requires n in b.services && n in b.endpoints
    requires Routes(t.elems, p) != [] && Routes(t.elems, p)[0] == ChainOf(n, b.services[n].base)
    ensures SentToPort(b, n, AtHook(cluster, b, t, hook, p, st).verdict)
  {
    ListFacts(cluster, b, t, n);
    NatMeaning(cluster, b, t, hook, p, st);
    hide Synced, Routes;
    var es := b.endpoints[n];
    var st1 := Entering(ImageOf(t), cluster.For(p.family), p, st);
    var i := Packets.Chosen(n, ServiceOf(b.services[n]), es, p, st1);
    assert AtHook(cluster, b, t, hook, p, st).verdict == Packets.Redirect(es[i].id.ip, es[i].id.port);
  }

  /** A packet to the service's cluster address and a port of it is sent to an endpoint of that port. */
  lemma ClusterAddressReaches(cluster: Cluster, b: Books, t: Tables, svc: ServiceObject, q: ServicePort,
                              hook: StaticChain, p: Packet, st: State)
    requires InForce(cluster, b, t, svc, q) && (hook == NatPrerouting || hook == NatOutput)
    requires ForPort(svc, q, p) && p.dst == svc.clusterIP
    requires PortName(svc.name, q.name, q.protocol) in b.endpoints
    ensures SentToPort(b, PortName(svc.name, q.name, q.protocol), AtHook(cluster, b, t, hook, p, st).verdict)
  {
    hide Synced, ServiceEvents.InSync, Routes;
    var n := PortName(svc.name, q.name, q.protocol);
    OwnKeyLeads(cluster, b, t, svc, q, ClusterIP, p.dst);
    RoutesStart(t.elems, p, ClusterIP, ChainOf(n, b.services[n].base));
    FirstRouteTakes(cluster, b, t, n, hook, p, st);
  }

  /** So is one to an external address that no other service has as its cluster address. */
  lemma ExternalAddressReaches(cluster: Cluster, b: Books, t: Tables, svc: ServiceObject, q: ServicePort,
                               hook: StaticChain, p: Packet, st: State)
    requires InForce(cluster, b, t, svc, q) && (hook == NatPrerouting || hook == NatOutput)
    requires ForPort(svc, q, p) && p.dst in svc.externalIPs && Unclaimed(t, svc, ClusterIP, p)
    requires PortName(svc.name, q.name, q.protocol) in b.endpoints
    ensures SentToPort(b, PortName(svc.name, q.name, q.protocol), AtHook(cluster, b, t, hook, p, st).verdict)
  {
    hide Synced, ServiceEvents.InSync, Routes, SentToPort;
    var n := PortName(svc.name, q.name, q.protocol);
    OwnKeyLeads(cluster, b, t, svc, q, ExternalIP, p.dst);
    if Elem(p.family, ClusterIP, p.protocol, p.dst, p.port) in t.elems {
      OwnKeyOnly(cluster, b, t, svc, q, ClusterIP, p.dst);
    }
    RoutesStart(t.elems, p, ExternalIP, ChainOf(n, b.services[n].base));
    FirstRouteTakes(cluster, b, t, n, hook, p, st);
  }

  /** And one to a load-balancer address that no other service has as its cluster or external address. */
  lemma BalancerAddressReaches(cluster: Cluster, b: Books, t: Tables, svc: ServiceObject, q: ServicePort,
                               hook: StaticChain, p: Packet, st: State)
    requires InForce(cluster, b, t, svc, q) && (hook == NatPrerouting || hook == NatOutput)
    requires ForPort(svc, q, p) && p.dst in svc.ingress
    requires Unclaimed(t, svc, ClusterIP, p) && Unclaimed(t, svc, ExternalIP, p)
    requires PortName(svc.name, q.name, q.protocol) in b.endpoints
    ensures SentToPort(b, PortName(svc.name, q.name, q.protocol), AtHook(cluster, b, t, hook, p, st).verdict)
  {
    hide Synced, ServiceEvents.InSync, Routes, SentToPort;
    var n := PortName(svc.name, q.name, q.protocol);
    OwnKeyLeads(cluster, b, t, svc, q, LoadbalancerIP, p.dst);
    if Elem(p.family, ClusterIP, p.protocol, p.dst, p.port) in t.elems {
      OwnKeyOnly(cluster, b, t, svc, q, ClusterIP, p.dst);
    }
    if Elem(p.family, ExternalIP, p.protocol, p.dst, p.port) in t.elems {
      OwnKeyOnly(cluster, b, t, svc, q, ExternalIP, p.dst);
    }
    RoutesStart(t.elems, p, LoadbalancerIP, ChainOf(n, b.services[n].base));
    FirstRouteTakes(cluster, b, t, n, hook, p, st);
  }

  /** And one for this node to the port's nodeport, if no service has the node's address under it. */
  lemma NodePortReaches(cluster: Cluster, b: Books, t: Tables, svc: ServiceObject, q: ServicePort,
                        hook: StaticChain, p: Packet, st: State)
    requires InForce(cluster, b, t, svc, q) && (hook == NatPrerouting || hook == NatOutput)
    requires OnNodePort(ConfigOf(cluster, b, t), svc, q) && q.nodePort != 0
    requires p.family == FamilyFor(svc) && p.protocol == q.protocol && p.port == q.nodePort && p.local
    requires forall s :: IpSet(s) ==> Elem(p.family, s, p.protocol, p.dst, p.port) !in t.elems
    requires PortName(svc.name, q.name, q.protocol) in b.endpoints
    ensures SentToPort(b, PortName(svc.name, q.name, q.protocol), AtHook(cluster, b, t, hook, p, st).verdict)
  {
    hide Synced, ServiceEvents.InSync;
    var n := PortName(svc.name, q.name, q.protocol);
    assert IpSet(ClusterIP) && IpSet(ExternalIP) && IpSet(LoadbalancerIP);
    var k := Elem(p.family, Nodeports, p.protocol, NoAddress, p.port);
    assert k == NodeElem(svc, q) && k in t.elems && t.elems[k] == ChainOf(n, b.services[n].base);
    assert Routes(t.elems, p)[0] == t.elems[k];
    FirstRouteTakes(cluster, b, t, n, hook, p, st);
  }

  /** A port on record with its object's addresses, as it is after AddService: a packet to any of them is
      rejected at the node's own hooks if and only if it opens a connection and nothing is installed for
      the port; forwarded, it must also be unmarked. */
  lemma AddressRejects(cluster: Cluster, b: Books, t: Tables, svc: ServiceObject, q: ServicePort,
                       hook: StaticChain, p: Packet, st: State)
    requires Synced(cluster, b, t) && Recorded(ConfigOf(cluster, b, t), svc, q)
    requires ForPort(svc, q, p) && (p.dst == svc.clusterIP || p.dst in svc.externalIPs || p.dst in svc.ingress)
    ensures hook == FilterInput || hook == FilterOutput ==>
              (AtHook(cluster, b, t, hook, p, st).verdict == Packets.Rejected <==>
                 p.ct == New && PortName(svc.name, q.name, q.protocol) !in b.endpoints)
    ensures AtHook(cluster, b, t, FilterForward, p, st).verdict == Packets.Rejected <==>
              p.ct == New && PortName(svc.name, q.name, q.protocol) !in b.endpoints && st.mark != 0x4000
  {
    var n := PortName(svc.name, q.name, q.protocol);
    if n in b.endpoints {
      ListFacts(cluster, b, t, n);
    }
    hide Synced;
    assert AddressedTo(b, n, p);
    if hook == FilterInput || hook == FilterOutput {
      RejectedExactly(cluster, b, t, n, hook, p, st);
    }
    ForwardRejectedExactly(cluster, b, t, n, p, st);
  }

  /** From both objects to the packet: while a service and its Endpoints object are in force, a packet to
      the cluster address is sent to an address and port number that the Endpoints object lists, ready or
      not, for the port of that name and protocol, if it lists any. */
  lemma ObjectsReach(cluster: Cluster, b: Books, t: Tables, cache: EndpointSync.Cache, hostname: string,
                     svc: ServiceObject, q: ServicePort, hook: StaticChain, p: Packet, st: State,
                     s: Subset, ep: EndpointPort, a: EndpointAddress)
    requires InForce(cluster, b, t, svc, q) && (hook == NatPrerouting || hook == NatOutput)
    requires ForPort(svc, q, p) && p.dst == svc.clusterIP
    requires EndpointSync.InSync(cache, EndpointEvents.Installed(b.endpoints), hostname)
    requires svc.name in cache && EndpointEvents.ValidObject(cache[svc.name])
    requires s in cache[svc.name].subsets && ep in s.ports && (a in s.addresses || a in s.notReadyAddresses)
    requires ep.name == q.name && ep.protocol == q.protocol
    ensures Listed(cache[svc.name], q, AtHook(cluster, b, t, hook, p, st).verdict)
  {
    var n, obj := PortName(svc.name, q.name, q.protocol), cache[svc.name];
    var x := EndpointEvents.Binding(n, EndpointId(a.ip, ep.port, ep.protocol), a.nodeName == Some(hostname));
    assert EndpointEvents.AsksFor(obj, s, ep, a, hostname, x);
    EndpointEvents.BindingsExactly(obj, hostname, x);
    assert EndpointSync.Denoted(cache, x, hostname);
    assert x in EndpointEvents.Installed(b.endpoints) && n in b.endpoints;
    ClusterAddressReaches(cluster, b, t, svc, q, hook, p, st);
    hide InForce, Synced;
    var j :| 0 <= j < |b.endpoints[n]| && AtHook(cluster, b, t, hook, p, st).verdict
                                          == Packets.Redirect(b.endpoints[n][j].id.ip, b.endpoints[n][j].id.port);
    InstalledIsListed(cache, b.endpoints, hostname, svc.name, q, j);
  }

  /** The verdict names an address and a number that the object lists for the port. */
  ghost predicate Listed(obj: EndpointsObject, q: ServicePort, v: Packets.Verdict) {
    v.Redirect? && exists s, ep, a :: Lists(obj, s, ep, a) && ep.name == q.name && ep.protocol == q.protocol
                                      && v.addr == a.ip && v.port == ep.port
  }

  predicate Lists(obj: EndpointsObject, s: Subset, ep: EndpointPort, a: EndpointAddress) {
    s in obj.subsets && ep in s.ports && (a in s.addresses || a in s.notReadyAddresses)
  }

  lemma InstalledIsListed(cache: EndpointSync.Cache, eps: map<PortName, seq<Endpoint>>, hostname: string,
                          service: NamespacedName, q: ServicePort, j: nat)
    requires EndpointSync.InSync(cache, EndpointEvents.Installed(eps), hostname) && service in cache
    requires var n := PortName(service, q.name, q.protocol); n in eps && j < |eps[n]|
    ensures var e := eps[PortName(service, q.name, q.protocol)][j].id;
            Listed(cache[service], q, Packets.Redirect(e.ip, e.port))
  {
    var n := PortName(service, q.name, q.protocol);
    var x := EndpointEvents.Binding(n, eps[n][j].id, eps[n][j].isLocal);
    assert x in EndpointEvents.Installed(eps);
    assert EndpointSync.Denoted(cache, x, hostname);
    EndpointEvents.BindingsExactly(cache[service], hostname, x);
    var s, ep, a :| EndpointEvents.AsksFor(cache[service], s, ep, a, hostname, x);
    assert Lists(cache[service], s, ep, a);
  }
}
