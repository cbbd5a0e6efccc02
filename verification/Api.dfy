/** The Kubernetes objects the proxy reacts to, reduced to the fields it reads. */
module Api {
  import opened Names
  import opened Netfilter
  import opened Ruleset

  datatype ServicePort = ServicePort(name: string, protocol: Protocol, port: Port, nodePort: Port)

  /** `clusterIP` is NoAddress for a service without one; `clientIP` is session affinity. */
  datatype ServiceObject = ServiceObject(
    name: NamespacedName,
    version: string,
    ipFamily: Option<Family>,
    clusterIP: Address,
    externalIPs: seq<Address>,
    ingress: seq<Address>,
    ports: seq<ServicePort>,
    clientIP: bool,
    externalName: bool)

  datatype EndpointPort = EndpointPort(name: string, port: Port, protocol: Protocol)

  datatype EndpointAddress = EndpointAddress(ip: Address, nodeName: Option<string>)

  datatype Subset = Subset(
    addresses: seq<EndpointAddress>,
    notReadyAddresses: seq<EndpointAddress>,
    ports: seq<EndpointPort>)

  datatype EndpointsObject = EndpointsObject(name: NamespacedName, version: string, subsets: seq<Subset>)

  datatype SliceEndpoint = SliceEndpoint(addresses: seq<Address>, hostname: Option<string>, ready: bool)

  /** `service` is the value of the service-name label, if the slice has one. */
  datatype SliceObject = SliceObject(
    name: NamespacedName,
    version: string,
    service: Option<string>,
    endpoints: seq<SliceEndpoint>,
    ports: seq<EndpointPort>)

  function PortNameOf(service: NamespacedName, p: ServicePort): PortName {
    PortName(service, p.name, p.protocol)
  }

  function NewBaseInfo(p: ServicePort, svc: ServiceObject): BaseInfo {
    BaseInfo(svc.name,
             if svc.ipFamily.Some? then svc.ipFamily.value else IPv4,
             svc.clusterIP, p.port, p.protocol, p.nodePort, svc.externalIPs, svc.ingress)
  }

  /** Headless services and external names are not programmed. */
  predicate ShouldSkip(svc: ServiceObject) {
    svc.clusterIP == NoAddress || svc.externalName
  }

  /** A port's elements in one verdict map, with their masquerade elements. */
  function MarkedKeys(b: BaseInfo, s: SetName, addrs: seq<Address>): set<Elem> {
    AddrKeys(b, s, addrs) + AddrKeys(b, MarkMasq, addrs)
  }

  /** Verdict map elements of a port, as the add path fills them in. */
  function PortKeys(b: BaseInfo): set<Elem> {
    MarkedKeys(b, ClusterIP, [b.clusterIP]) + MarkedKeys(b, ExternalIP, b.externalIPs)
    + MarkedKeys(b, LoadbalancerIP, b.loadBalancerIPs) + NodeKeys(b, [b.nodePort])
  }

  /** Nodeport elements under the protocol of a port. */
  function NodeKeys(b: BaseInfo, nodePorts: seq<Port>): set<Elem> {
    set p | p in nodePorts && p != 0 :: Elem(TableFamily(b), Nodeports, b.protocol, NoAddress, p)
  }

  function NodePortsOf(ports: seq<ServicePort>): (nps: seq<Port>)
    ensures |nps| == |ports|
  {
    seq(|ports|, i requires 0 <= i < |ports| => ports[i].nodePort)
  }

  /** The elements the delete path removes for a port, given the cached service. */
  function RemovedKeys(b: BaseInfo, svc: ServiceObject): set<Elem> {
    (if svc.clusterIP == NoAddress then {} else MarkedKeys(b, ClusterIP, [svc.clusterIP]))
    + MarkedKeys(b, ExternalIP, svc.externalIPs) + MarkedKeys(b, LoadbalancerIP, svc.ingress)
    + NodeKeys(b, NodePortsOf(svc.ports))
  }

  /** What an element of a service port points at. */
  function Target(n: PortName, b: BaseInfo, k: Elem): Chain {
    match k.set_
    case NoEndpoints => Static(k.family, K8sFilterDoReject)
    case MarkMasq => Static(k.family, K8sNatDoMarkMasq)
    case _ => ChainOf(n, b)
  }

  /** Adds the given keys of a port; elements already there stay. */
  function Exposing(n: PortName, b: BaseInfo, keys: set<Elem>, elems: map<Elem, Chain>): map<Elem, Chain> {
    (map k | k in keys :: Target(n, b, k)) + elems
  }

  function AddOne(n: PortName, b: BaseInfo, elems: map<Elem, Chain>, k: Elem): map<Elem, Chain> {
    if k in elems then elems else elems[k := Target(n, b, k)]
  }

  lemma ExposingOneMore(n: PortName, b: BaseInfo, keys: set<Elem>, elems: map<Elem, Chain>, k: Elem)
    ensures Exposing(n, b, keys + {k}, elems) == AddOne(n, b, Exposing(n, b, keys, elems), k)
  {}

  lemma ExposingNone(n: PortName, b: BaseInfo, elems: map<Elem, Chain>)
    ensures Exposing(n, b, {}, elems) == elems
  {}

  lemma ExposingNoAddress(n: PortName, b: BaseInfo, s: SetName, elems: map<Elem, Chain>)
    ensures AddrKeys(b, s, []) == MarkedKeys(b, s, []) == {}
    ensures Exposing(n, b, {}, elems) == elems == elems - {}
  {}

  lemma ExposingTwice(n: PortName, b: BaseInfo, k1: set<Elem>, k2: set<Elem>, elems: map<Elem, Chain>)
    ensures Exposing(n, b, k2, Exposing(n, b, k1, elems)) == Exposing(n, b, k1 + k2, elems)
  {}

  lemma MarkedOneMore(n: PortName, b: BaseInfo, s: SetName, addrs: seq<Address>, i: nat, elems: map<Elem, Chain>)
    requires i < |addrs|
    ensures Exposing(n, b, MarkedKeys(b, s, addrs[..i + 1]), elems)
         == AddOne(n, b, AddOne(n, b, Exposing(n, b, MarkedKeys(b, s, addrs[..i]), elems),
                                AddrKey(b, s, addrs[i])), AddrKey(b, MarkMasq, addrs[i]))
  {
    var keys := MarkedKeys(b, s, addrs[..i]);
    var k1, k2 := AddrKey(b, s, addrs[i]), AddrKey(b, MarkMasq, addrs[i]);
    AddrKeysOneMore(b, s, addrs, i);
    AddrKeysOneMore(b, MarkMasq, addrs, i);
    ExposingOneMore(n, b, keys, elems, k1);
    ExposingOneMore(n, b, keys + {k1}, elems, k2);
    assert MarkedKeys(b, s, addrs[..i + 1]) == keys + {k1} + {k2};
  }

  lemma MarkedOneLess(b: BaseInfo, s: SetName, addrs: seq<Address>, i: nat, elems: map<Elem, Chain>)
    requires i < |addrs|
    ensures elems - MarkedKeys(b, s, addrs[..i + 1])
         == elems - MarkedKeys(b, s, addrs[..i]) - {AddrKey(b, s, addrs[i])} - {AddrKey(b, MarkMasq, addrs[i])}
  {
    AddrKeysOneMore(b, s, addrs, i);
    AddrKeysOneMore(b, MarkMasq, addrs, i);
  }

  lemma NodeOneLess(b: BaseInfo, nps: seq<Port>, i: nat, elems: map<Elem, Chain>)
    requires i < |nps|
    ensures elems - NodeKeys(b, nps[..i + 1])
         == if nps[i] == 0 then elems - NodeKeys(b, nps[..i]) else elems - NodeKeys(b, nps[..i]) - {NodeKey(b, nps[i])}
  {
    NodeKeysOneMore(b, nps, i);
  }

  /** Adding a port's elements group by group adds them all. */
  lemma ExposingGroups(n: PortName, b: BaseInfo, elems: map<Elem, Chain>)
    ensures Exposing(n, b, NodeKeys(b, [b.nodePort]),
              Exposing(n, b, MarkedKeys(b, LoadbalancerIP, b.loadBalancerIPs),
                Exposing(n, b, MarkedKeys(b, ExternalIP, b.externalIPs),
                  Exposing(n, b, MarkedKeys(b, ClusterIP, [b.clusterIP]), elems))))
         == Exposing(n, b, PortKeys(b), elems)
  {
    var k1, k2, k3 := MarkedKeys(b, ClusterIP, [b.clusterIP]), MarkedKeys(b, ExternalIP, b.externalIPs),
        MarkedKeys(b, LoadbalancerIP, b.loadBalancerIPs);
    ExposingTwice(n, b, k1, k2, elems);
    ExposingTwice(n, b, k1 + k2, k3, elems);
    ExposingTwice(n, b, k1 + k2 + k3, NodeKeys(b, [b.nodePort]), elems);
  }

  lemma RemovedGroups(b: BaseInfo, svc: ServiceObject, elems: map<Elem, Chain>)
    ensures elems - RemovedKeys(b, svc)
         == elems - (if svc.clusterIP == NoAddress then {} else MarkedKeys(b, ClusterIP, [svc.clusterIP]))
            - MarkedKeys(b, ExternalIP, svc.externalIPs) - MarkedKeys(b, LoadbalancerIP, svc.ingress)
            - NodeKeys(b, NodePortsOf(svc.ports))
    ensures elems - {} == elems
  {}

  lemma SingleNodeKey(n: PortName, b: BaseInfo, elems: map<Elem, Chain>)
    ensures Exposing(n, b, NodeKeys(b, [b.nodePort]), elems)
         == if b.nodePort == 0 then elems else AddOne(n, b, elems, NodeKey(b, b.nodePort))
  {
    if b.nodePort == 0 {
      assert NodeKeys(b, [b.nodePort]) == {};
    } else {
      ExposingOneMore(n, b, {}, elems, NodeKey(b, b.nodePort));
      assert NodeKeys(b, [b.nodePort]) == {} + {NodeKey(b, b.nodePort)};
    }
    ExposingNone(n, b, elems);
  }

  lemma AddrKeysOneMore(b: BaseInfo, s: SetName, addrs: seq<Address>, i: nat)
    requires i < |addrs|
    ensures AddrKeys(b, s, addrs[..i + 1]) == AddrKeys(b, s, addrs[..i]) + {AddrKey(b, s, addrs[i])}
  {
    assert addrs[..i + 1] == addrs[..i] + [addrs[i]];
  }

  lemma NodeKeysOneMore(b: BaseInfo, nps: seq<Port>, i: nat)
    requires i < |nps|
    ensures NodeKeys(b, nps[..i + 1])
         == NodeKeys(b, nps[..i]) + if nps[i] == 0 then {} else {NodeKey(b, nps[i])}
  {
    assert nps[..i + 1] == nps[..i] + [nps[i]];
  }

  function NodeKey(b: BaseInfo, nodePort: Port): Elem {
    Elem(TableFamily(b), Nodeports, b.protocol, NoAddress, nodePort)
  }
}
