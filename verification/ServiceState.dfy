/** What the verdict maps hold for the ports of one service, and how single edits change it. */
module ServiceState {
  import opened Names
  import opened Netfilter
  import opened Ruleset
  import opened Mirror
  import opened Api
  import opened Runs

  /** The addresses under which a port is reachable, per verdict map. */
  datatype Addrs = Addrs(cluster: set<Address>, external: set<Address>, balancer: set<Address>) {
    function For(s: SetName): set<Address> {
      match s
      case ClusterIP => cluster
      case ExternalIP => external
      case LoadbalancerIP => balancer
      case _ => {}
    }

    function Plus(s: SetName, a: Address): Addrs {
      match s
      case ClusterIP => Addrs(cluster + {a}, external, balancer)
      case ExternalIP => Addrs(cluster, external + {a}, balancer)
      case LoadbalancerIP => Addrs(cluster, external, balancer + {a})
      case _ => this
    }

    function Minus(s: SetName, a: Address): Addrs {
      match s
      case ClusterIP => Addrs(cluster - {a}, external, balancer)
      case ExternalIP => Addrs(cluster, external - {a}, balancer)
      case LoadbalancerIP => Addrs(cluster, external, balancer - {a})
      case _ => this
    }
  }

  predicate IpSet(s: SetName) {
    s.ClusterIP? || s.ExternalIP? || s.LoadbalancerIP?
  }

  function AsSet(addrs: seq<Address>): set<Address> {
    set a | a in addrs
  }

  function AddrsOf(svc: ServiceObject): Addrs {
    Addrs({svc.clusterIP}, AsSet(svc.externalIPs), AsSet(svc.ingress))
  }

  /** Exactly these addresses lead to the port. */
  ghost predicate Exposed(vmaps: map<Elem, Chain>, n: PortName, b: BaseInfo, a: Addrs) {
    forall k: Elem :: IpSet(k.set_) ==>
      ((k in vmaps && vmaps[k] == ChainOf(n, b)) <==> (k == AddrKey(b, k.set_, k.addr) && k.addr in a.For(k.set_)))
  }

  ghost predicate LiveTarget(cfg: Config, k: Elem, c: Chain) {
    && c.ServiceChain? && c.id.name in cfg.services
    && c == ChainOf(c.id.name, cfg.services[c.id.name].base) && c.family == k.family
  }

  /** Address and nodeport elements lead to the live chain of some port, and no others do. */
  ghost predicate Rooted(cfg: Config) {
    forall k :: k in cfg.vmaps ==>
      if IpSet(k.set_) || k.set_.Nodeports? then LiveTarget(cfg, k, cfg.vmaps[k])
      else k.set_.MarkMasq? && cfg.vmaps[k].Static?
  }

  lemma RootedWhenSynced(cluster: Cluster, b: Books, t: Tables)
    requires Synced(cluster, b, t)
    ensures Rooted(ConfigOf(cluster, b, t))
  {
    var cfg := ConfigOf(cluster, b, t);
    forall k | k in cfg.vmaps
      ensures if IpSet(k.set_) || k.set_.Nodeports? then LiveTarget(cfg, k, cfg.vmaps[k])
              else k.set_.MarkMasq? && cfg.vmaps[k].Static?
    {
      var c := t.elems[k];
      assert TypedElem(k, c);
      if IpSet(k.set_) || k.set_.Nodeports? {
        assert PortSynced(c.id.name, b, t) && Owns(c.id.name, c) && Live(c.id.name, b, c);
      }
    }
  }

  datatype PortState = PortState(port: ServicePort, addrs: Addrs, affinity: bool)

  /** The ports a service is to have, by name. */
  type Plan = map<PortName, PortState>

  ghost predicate PortHas(cfg: Config, service: NamespacedName, f: Family, nps: seq<Port>, n: PortName, ps: PortState) {
    && n in cfg.services
    && var b := cfg.services[n].base;
    && n == PortNameOf(service, ps.port) && cfg.services[n].affinity == ps.affinity
    && b.service == service && b.port == ps.port.port && b.protocol == ps.port.protocol && TableFamily(b) == f
    && Exposed(cfg.vmaps, n, b, ps.addrs)
    && (forall k :: k in cfg.vmaps && k.set_.Nodeports? && cfg.vmaps[k] == ChainOf(n, b) ==> k in NodeKeys(b, nps))
  }

  /** A service has exactly the ports of a plan, each reachable under exactly its addresses. */
  ghost predicate Holds(cfg: Config, service: NamespacedName, f: Family, nps: seq<Port>, plan: Plan) {
    && (forall n :: n in cfg.services && n.service == service ==> n in plan)
    && (forall n :: n in plan ==> PortHas(cfg, service, f, nps, n, plan[n]))
  }

  predicate SamePort(p: ServicePort, q: ServicePort) {
    p.protocol == q.protocol && p.port == q.port
  }

  ghost predicate DistinctPlan(plan: Plan) {
    forall n, m :: n in plan && m in plan && n != m ==> !SamePort(plan[n].port, plan[m].port)
  }

  /** No other service holds the key. */
  ghost predicate Free(cfg: Config, service: NamespacedName, k: Elem) {
    k in cfg.vmaps ==> cfg.vmaps[k].ServiceChain? && cfg.vmaps[k].id.name.service == service
  }

  /** Ports and elements of other services are as before. */
  ghost predicate NeighboursKept(service: NamespacedName, cfg0: Config, cfg1: Config) {
    && (forall m: PortName :: m.service != service ==>
          && (m in cfg1.services <==> m in cfg0.services)
          && (m in cfg0.services ==> cfg1.services[m] == cfg0.services[m]))
    && (forall k: Elem :: IpSet(k.set_) ==>
          ((k in cfg0.vmaps && !Free(cfg0, service, k)) <==> (k in cfg1.vmaps && !Free(cfg1, service, k)))
          && (k in cfg0.vmaps && !Free(cfg0, service, k) ==> k in cfg1.vmaps && cfg1.vmaps[k] == cfg0.vmaps[k]))
    && cfg1.endpoints == cfg0.endpoints && cfg1.cluster == cfg0.cluster
  }

  /** An element of the service belongs to the port with its protocol and number. */
  lemma ElemOwner(cfg: Config, service: NamespacedName, f: Family, nps: seq<Port>, plan: Plan, k: Elem) returns (m: PortName)
    requires Rooted(cfg) && Holds(cfg, service, f, nps, plan) && IpSet(k.set_)
    requires k in cfg.vmaps && Free(cfg, service, k)
    ensures m in plan && cfg.vmaps[k] == ChainOf(m, cfg.services[m].base)
    ensures k == AddrKey(cfg.services[m].base, k.set_, k.addr) && k.addr in plan[m].addrs.For(k.set_)
    ensures k.protocol == plan[m].port.protocol && k.port == plan[m].port.port
  {
    assert LiveTarget(cfg, k, cfg.vmaps[k]);
    m := cfg.vmaps[k].id.name;
    assert PortHas(cfg, service, f, nps, m, plan[m]);
  }

  /** The address elements of a port, apart from what they lead to. */
  ghost predicate OwnKeys(b: BaseInfo, a: Addrs, keys: set<Elem>) {
    forall k: Elem :: IpSet(k.set_) ==> (k in keys <==> k == AddrKey(b, k.set_, k.addr) && k.addr in a.For(k.set_))
  }

  lemma RemovalKeepsPort(cfg: Config, cfg1: Config, service: NamespacedName, f: Family, nps: seq<Port>, plan: Plan,
                         n: PortName, m: PortName, removed: set<Elem>)
    requires Holds(cfg, service, f, nps, plan) && DistinctPlan(plan) && n in plan && m in plan && m != n
    requires OwnKeys(cfg.services[n].base, plan[n].addrs, removed)
    requires cfg1.services == cfg.services - {n} && cfg1.vmaps == cfg.vmaps - removed
    ensures PortHas(cfg1, service, f, nps, m, plan[m])
  {
    assert PortHas(cfg, service, f, nps, n, plan[n]) && PortHas(cfg, service, f, nps, m, plan[m]);
    assert !SamePort(plan[n].port, plan[m].port);
    var b := cfg.services[m].base;
    forall k: Elem | IpSet(k.set_)
      ensures (k in cfg1.vmaps && cfg1.vmaps[k] == ChainOf(m, b))
              <==> (k == AddrKey(b, k.set_, k.addr) && k.addr in plan[m].addrs.For(k.set_))
    {
      assert k == AddrKey(b, k.set_, k.addr) ==> k !in removed;
    }
  }

  lemma RemovalKeepsOthers(cfg: Config, cfg1: Config, service: NamespacedName, f: Family, nps: seq<Port>, n: PortName,
                           ps: PortState, removed: set<Elem>)
    requires PortHas(cfg, service, f, nps, n, ps) && OwnKeys(cfg.services[n].base, ps.addrs, removed)
    requires cfg1 == cfg.(services := cfg.services - {n}, vmaps := cfg.vmaps - removed)
    ensures NeighboursKept(service, cfg, cfg1)
  {
    forall k: Elem | IpSet(k.set_) && k in removed ensures k in cfg.vmaps && Free(cfg, service, k) {
      assert k == AddrKey(cfg.services[n].base, k.set_, k.addr);
    }
  }

  lemma DeleteAdmissible(w: World, f: Family, nps: seq<Port>, n: PortName, ps: PortState, stored: ServiceObject)
    requires Rooted(w.cfg) && PortHas(w.cfg, stored.name, f, nps, n, ps)
    requires stored.name in w.cache && w.cache[stored.name] == stored && stored.clusterIP != NoAddress
    requires ps.addrs == AddrsOf(stored) && nps == NodePortsOf(stored.ports)
    ensures Admissible(w, DeletePort(n))
  {
    var b := w.cfg.services[n].base;
    RemovedIpKeys(b, stored);
    forall k | k in w.cfg.vmaps && w.cfg.vmaps[k] == ChainOf(n, b) ensures k in RemovedKeys(b, stored) {
      assert IpSet(k.set_) || k.set_.Nodeports?;
    }
  }

  /** Deleting a port whose elements are those of the cached service takes it out of the plan. */
  lemma DeleteKeepsPlan(w: World, f: Family, nps: seq<Port>, plan: Plan, n: PortName, stored: ServiceObject)
    requires Rooted(w.cfg) && Holds(w.cfg, stored.name, f, nps, plan) && DistinctPlan(plan) && n in plan
    requires stored.name in w.cache && w.cache[stored.name] == stored && stored.clusterIP != NoAddress
    requires plan[n].addrs == AddrsOf(stored) && nps == NodePortsOf(stored.ports)
    ensures Admissible(w, DeletePort(n))
    ensures Holds(Step(w, "", DeletePort(n)).cfg, stored.name, f, nps, plan - {n})
    ensures NeighboursKept(stored.name, w.cfg, Step(w, "", DeletePort(n)).cfg)
  {
    var cfg, cfg1 := w.cfg, Step(w, "", DeletePort(n)).cfg;
    assert PortHas(cfg, stored.name, f, nps, n, plan[n]);
    var b := cfg.services[n].base;
    var removed := RemovedKeys(b, stored);
    RemovedIpKeys(b, stored);
    DeleteAdmissible(w, f, nps, n, plan[n], stored);
    forall m | m in plan - {n} ensures PortHas(cfg1, stored.name, f, nps, m, plan[m]) {
      RemovalKeepsPort(cfg, cfg1, stored.name, f, nps, plan, n, m, removed);
    }
    RemovalKeepsOthers(cfg, cfg1, stored.name, f, nps, n, plan[n], removed);
  }

  /** Only addresses of the last known object lose their masquerade element, under the port's number. */
  lemma RemovedMasqKeys(b: BaseInfo, svc: ServiceObject, k: Elem)
    requires k.set_.MarkMasq? && k in RemovedKeys(b, svc)
    ensures k == AddrKey(b, MarkMasq, k.addr) && k.addr in {svc.clusterIP} + AsSet(svc.externalIPs) + AsSet(svc.ingress)
  {}

  lemma RemovedIpKeys(b: BaseInfo, svc: ServiceObject)
    requires svc.clusterIP != NoAddress
    ensures forall k: Elem :: IpSet(k.set_) ==>
              (k in RemovedKeys(b, svc) <==> k == AddrKey(b, k.set_, k.addr) && k.addr in AddrsOf(svc).For(k.set_))
    ensures forall k: Elem :: k.set_.Nodeports? ==> (k in RemovedKeys(b, svc) <==> k in NodeKeys(b, NodePortsOf(svc.ports)))
  {}

  lemma NeighboursKeptTwice(service: NamespacedName, cfg0: Config, cfg1: Config, cfg2: Config)
    requires NeighboursKept(service, cfg0, cfg1) && NeighboursKept(service, cfg1, cfg2)
    ensures NeighboursKept(service, cfg0, cfg2)
  {}

  /** The address keys of a new port are unused before it is added. */
  lemma UnusedKeys(cfg: Config, service: NamespacedName, f: Family, nps: seq<Port>, plan: Plan, b: BaseInfo, k: Elem)
    requires Rooted(cfg) && Holds(cfg, service, f, nps, plan) && IpSet(k.set_)
    requires forall m :: m in plan ==> !(plan[m].port.protocol == b.protocol && plan[m].port.port == b.port)
    requires k == AddrKey(b, k.set_, k.addr) && Free(cfg, service, k)
    ensures k !in cfg.vmaps
  {
    if k in cfg.vmaps {
      var m := ElemOwner(cfg, service, f, nps, plan, k);
      assert false;
    }
  }

  predicate IsKeyOf(f: Family, q: ServicePort, k: Elem) {
    k.family == f && k.protocol == q.protocol && k.port == q.port
  }

  /** The keys of some ports under some addresses are not another service's. */
  ghost predicate KeysFree(cfg: Config, service: NamespacedName, f: Family, ports: seq<ServicePort>, addrs: set<Address>) {
    forall i, k: Elem :: 0 <= i < |ports| && IpSet(k.set_) && k.addr in addrs && IsKeyOf(f, ports[i], k) ==>
      Free(cfg, service, k)
  }

  lemma KeysFreeKept(cfg0: Config, cfg1: Config, service: NamespacedName, f: Family, ports: seq<ServicePort>, addrs: set<Address>)
    requires KeysFree(cfg0, service, f, ports, addrs) && NeighboursKept(service, cfg0, cfg1)
    ensures KeysFree(cfg1, service, f, ports, addrs)
  {}

  lemma KeysFreeOne(cfg: Config, service: NamespacedName, f: Family, ports: seq<ServicePort>, addrs: set<Address>, q: ServicePort)
    requires KeysFree(cfg, service, f, ports, addrs) && q in ports
    ensures KeysFree(cfg, service, f, [q], addrs)
  {
    var i :| 0 <= i < |ports| && ports[i] == q;
    forall k: Elem | IpSet(k.set_) && k.addr in addrs && IsKeyOf(f, q, k) ensures Free(cfg, service, k) {
      assert IsKeyOf(f, ports[i], k);
    }
  }

  /** The ports that a service object asks for, up to a given one. */
  function PlanUpTo(svc: ServiceObject, i: nat): Plan
    requires i <= |svc.ports|
  {
    if i == 0 then map[]
    else PlanUpTo(svc, i - 1)[PortNameOf(svc.name, svc.ports[i - 1]) := StateOf(svc, svc.ports[i - 1])]
  }

  function StateOf(svc: ServiceObject, q: ServicePort): PortState {
    PortState(q, AddrsOf(svc), svc.clientIP)
  }

  function PlanFor(svc: ServiceObject): Plan {
    PlanUpTo(svc, |svc.ports|)
  }

  /** No two ports share their name and protocol, or their number and protocol. */
  predicate DistinctPorts(ports: seq<ServicePort>) {
    forall i, j :: 0 <= i < j < |ports| ==> ports[i].protocol == ports[j].protocol ==>
      ports[i].port != ports[j].port && ports[i].name != ports[j].name
  }

  lemma {:induction false} PlanUpToHas(svc: ServiceObject, i: nat)
    requires i <= |svc.ports| && DistinctPorts(svc.ports)
    ensures forall j :: 0 <= j < i ==> var n := PortNameOf(svc.name, svc.ports[j]);
              n in PlanUpTo(svc, i) && PlanUpTo(svc, i)[n] == StateOf(svc, svc.ports[j])
    ensures forall n :: n in PlanUpTo(svc, i) ==> exists j :: 0 <= j < i && n == PortNameOf(svc.name, svc.ports[j])
    ensures DistinctPlan(PlanUpTo(svc, i))
  {
    if i > 0 {
      PlanUpToHas(svc, i - 1);
    }
  }

  lemma InMarkedKeys(b: BaseInfo, s: SetName, addrs: seq<Address>, k: Elem)
    requires IpSet(k.set_)
    ensures k in MarkedKeys(b, s, addrs) <==> k.set_ == s && k == AddrKey(b, s, k.addr) && k.addr in addrs
  {}

  /** The element that makes a port reachable on the node itself. */
  function NodeElem(svc: ServiceObject, q: ServicePort): Elem {
    Elem(if svc.clusterIP.Ip6? then IPv6 else IPv4, Nodeports, q.protocol, NoAddress, q.nodePort)
  }

  lemma AddedKeys(b: BaseInfo, new_: ServiceObject, q: ServicePort)
    requires b == NewBaseInfo(q, new_)
    ensures OwnKeys(b, AddrsOf(new_), PortKeys(b))
    ensures forall k: Elem :: k.set_.Nodeports? ==> (k in PortKeys(b) <==> q.nodePort != 0 && k == NodeElem(new_, q))
  {
    var a := AddrsOf(new_);
    forall k: Elem | IpSet(k.set_)
      ensures k in PortKeys(b) <==> k == AddrKey(b, k.set_, k.addr) && k.addr in a.For(k.set_)
    {
      InMarkedKeys(b, ClusterIP, [b.clusterIP], k);
      InMarkedKeys(b, ExternalIP, b.externalIPs, k);
      InMarkedKeys(b, LoadbalancerIP, b.loadBalancerIPs, k);
      hide MarkedKeys;
    }
  }

  lemma AddExposes(cfg: Config, cfg1: Config, service: NamespacedName, f: Family, nps: seq<Port>, plan: Plan,
                   n: PortName, b: BaseInfo, a: Addrs)
    requires Rooted(cfg) && Holds(cfg, service, f, nps, plan) && n !in cfg.services && TableFamily(b) == f
    requires forall m :: m in plan ==> !(plan[m].port.protocol == b.protocol && plan[m].port.port == b.port)
    requires OwnKeys(b, a, PortKeys(b)) && forall k :: k in PortKeys(b) && IpSet(k.set_) ==> Free(cfg, service, k)
    requires cfg1.vmaps == Exposing(n, b, PortKeys(b), cfg.vmaps)
    ensures Exposed(cfg1.vmaps, n, b, a)
  {
    forall k: Elem | IpSet(k.set_)
      ensures (k in cfg1.vmaps && cfg1.vmaps[k] == ChainOf(n, b)) <==> (k == AddrKey(b, k.set_, k.addr) && k.addr in a.For(k.set_))
    {
      if k in PortKeys(b) {
        UnusedKeys(cfg, service, f, nps, plan, b, k);
      } else {
        assert k in cfg.vmaps ==> LiveTarget(cfg, k, cfg.vmaps[k]);
      }
    }
  }

  lemma AddKeepsPort(cfg: Config, cfg1: Config, service: NamespacedName, f: Family, nps: seq<Port>,
                     m: PortName, ps: PortState, n: PortName, s: Service)
    requires PortHas(cfg, service, f, nps, m, ps) && m != n
    requires cfg1 == cfg.(services := cfg.services[n := s], vmaps := Exposing(n, s.base, PortKeys(s.base), cfg.vmaps))
    requires forall k :: k in PortKeys(s.base) && IpSet(k.set_) ==> k !in cfg.vmaps
    ensures PortHas(cfg1, service, f, nps, m, ps)
  {
    var b := cfg.services[m].base;
    forall k: Elem | IpSet(k.set_)
      ensures (k in cfg1.vmaps && cfg1.vmaps[k] == ChainOf(m, b)) <==> (k in cfg.vmaps && cfg.vmaps[k] == ChainOf(m, b))
    {}
  }

  /** What has to hold of the state before a port of a service can be added. */
  ghost predicate Addable(cfg: Config, f: Family, nps: seq<Port>, plan: Plan, svc: ServiceObject, q: ServicePort) {
    && PortNameOf(svc.name, q) !in cfg.services && FamilyOf(svc.clusterIP) == f && (q.nodePort != 0 ==> q.nodePort in nps)
    && (forall m :: m in plan ==> !SamePort(plan[m].port, q))
    && (forall k: Elem :: IpSet(k.set_) && IsKeyOf(f, q, k) && k.addr in AddrsOf(svc).For(k.set_) ==> Free(cfg, svc.name, k))
  }

  function AddedConfig(cfg: Config, svc: ServiceObject, q: ServicePort): Config {
    var n, b := PortNameOf(svc.name, q), NewBaseInfo(q, svc);
    cfg.(services := cfg.services[n := Service(b, svc.clientIP)], vmaps := Exposing(n, b, PortKeys(b), cfg.vmaps))
  }

  lemma AddedKeysUnused(cfg: Config, f: Family, nps: seq<Port>, plan: Plan, svc: ServiceObject, q: ServicePort)
    requires Rooted(cfg) && Holds(cfg, svc.name, f, nps, plan) && Addable(cfg, f, nps, plan, svc, q)
    ensures OwnKeys(NewBaseInfo(q, svc), AddrsOf(svc), PortKeys(NewBaseInfo(q, svc)))
    ensures forall k :: k in PortKeys(NewBaseInfo(q, svc)) && IpSet(k.set_) ==> Free(cfg, svc.name, k) && k !in cfg.vmaps
  {
    var b := NewBaseInfo(q, svc);
    AddedKeys(b, svc, q);
    forall k | k in PortKeys(b) && IpSet(k.set_) ensures Free(cfg, svc.name, k) && k !in cfg.vmaps {
      assert k == AddrKey(b, k.set_, k.addr) && k.addr in AddrsOf(svc).For(k.set_) && IsKeyOf(f, q, k);
      UnusedKeys(cfg, svc.name, f, nps, plan, b, k);
    }
  }

  lemma AddedPortHas(cfg: Config, f: Family, nps: seq<Port>, plan: Plan, svc: ServiceObject, q: ServicePort)
    requires Rooted(cfg) && Holds(cfg, svc.name, f, nps, plan) && Addable(cfg, f, nps, plan, svc, q)
    ensures PortHas(AddedConfig(cfg, svc, q), svc.name, f, nps, PortNameOf(svc.name, q), StateOf(svc, q))
  {
    var n, b, cfg1 := PortNameOf(svc.name, q), NewBaseInfo(q, svc), AddedConfig(cfg, svc, q);
    AddedKeysUnused(cfg, f, nps, plan, svc, q);
    AddExposes(cfg, cfg1, svc.name, f, nps, plan, n, b, AddrsOf(svc));
    AddedKeys(b, svc, q);
    forall k | k in cfg1.vmaps && k.set_.Nodeports? && cfg1.vmaps[k] == ChainOf(n, b) ensures k in NodeKeys(b, nps) {
      assert k in cfg.vmaps ==> LiveTarget(cfg, k, cfg.vmaps[k]);
    }
  }

  lemma AddKeepsOthers(cfg: Config, svc: ServiceObject, q: ServicePort)
    requires forall k :: k in PortKeys(NewBaseInfo(q, svc)) && IpSet(k.set_) ==> k !in cfg.vmaps
    ensures NeighboursKept(svc.name, cfg, AddedConfig(cfg, svc, q))
  {
    hide PortKeys, NewBaseInfo;
  }

  /** Adding a port of a service puts it into the plan, under the addresses of the new object. */
  lemma AddKeepsPlan(cfg: Config, f: Family, nps: seq<Port>, plan: Plan, svc: ServiceObject, q: ServicePort)
    requires Rooted(cfg) && Holds(cfg, svc.name, f, nps, plan) && Addable(cfg, f, nps, plan, svc, q)
    ensures Holds(AddedConfig(cfg, svc, q), svc.name, f, nps, plan[PortNameOf(svc.name, q) := StateOf(svc, q)])
    ensures NeighboursKept(svc.name, cfg, AddedConfig(cfg, svc, q))
  {
    hide Rooted, OwnKeys, Free, Exposed, StateOf, NewBaseInfo, PortKeys, NodeKeys, AddrsOf, NeighboursKept, Exposing;
    var n, cfg1 := PortNameOf(svc.name, q), AddedConfig(cfg, svc, q);
    AddedKeysUnused(cfg, f, nps, plan, svc, q);
    AddedPortHas(cfg, f, nps, plan, svc, q);
    forall m | m in plan ensures m != n && PortHas(cfg1, svc.name, f, nps, m, plan[m]) {
      assert PortHas(cfg, svc.name, f, nps, m, plan[m]);
      AddKeepsPort(cfg, cfg1, svc.name, f, nps, m, plan[m], n, Service(NewBaseInfo(q, svc), svc.clientIP));
    }
    AddKeepsOthers(cfg, svc, q);
  }

  /** The configurations agree on every element but one, masquerading aside. */
  ghost predicate EditedAt(cfg: Config, cfg1: Config, key: Elem) {
    && cfg1 == cfg.(vmaps := cfg1.vmaps)
    && forall k: Elem :: k != key && !k.set_.MarkMasq? ==>
         (k in cfg1.vmaps <==> k in cfg.vmaps) && (k in cfg.vmaps ==> cfg1.vmaps[k] == cfg.vmaps[k])
  }

  lemma EditKeepsPort(cfg: Config, cfg1: Config, service: NamespacedName, f: Family, nps: seq<Port>, m: PortName, ps: PortState,
                      key: Elem)
    requires PortHas(cfg, service, f, nps, m, ps) && EditedAt(cfg, cfg1, key)
    requires IpSet(key.set_) && !IsKeyOf(f, ps.port, key)
    requires key in cfg1.vmaps ==> cfg1.vmaps[key] != ChainOf(m, cfg.services[m].base)
    ensures PortHas(cfg1, service, f, nps, m, ps)
  {}

  /** Editing an element of one port leaves the other ports as they are. */
  lemma EditKeepsPlan(cfg: Config, cfg1: Config, service: NamespacedName, f: Family, nps: seq<Port>, plan: Plan,
                      n: PortName, ps: PortState, key: Elem)
    requires Holds(cfg, service, f, nps, plan) && DistinctPlan(plan) && n in plan && n in cfg.services
    requires IpSet(key.set_) && IsKeyOf(f, plan[n].port, key) && EditedAt(cfg, cfg1, key)
    requires key in cfg1.vmaps ==> cfg1.vmaps[key] == ChainOf(n, cfg.services[n].base)
    requires PortHas(cfg1, service, f, nps, n, ps)
    ensures Holds(cfg1, service, f, nps, plan[n := ps])
  {
    hide Exposed;
    forall m | m in plan && m != n ensures PortHas(cfg1, service, f, nps, m, plan[m]) {
      assert PortHas(cfg, service, f, nps, m, plan[m]);
      assert !SamePort(plan[m].port, plan[n].port);
      hide Holds, DistinctPlan, EditedAt;
      EditKeepsPort(cfg, cfg1, service, f, nps, m, plan[m], key);
    }
    hide PortHas;
  }

  lemma EditKeepsNeighbours(cfg: Config, cfg1: Config, service: NamespacedName, key: Elem)
    requires EditedAt(cfg, cfg1, key) && Free(cfg, service, key) && Free(cfg1, service, key)
    ensures NeighboursKept(service, cfg, cfg1)
  {}

  /** Exposing a port under an address. */
  lemma ExposeKeepsPlan(cfg: Config, cfg1: Config, service: NamespacedName, f: Family, nps: seq<Port>, plan: Plan,
                        n: PortName, k: Elem)
    requires Rooted(cfg) && Holds(cfg, service, f, nps, plan) && DistinctPlan(plan) && n in plan
    requires IpSet(k.set_) && IsKeyOf(f, plan[n].port, k) && Free(cfg, service, k)
    requires n in cfg.services && cfg1 == cfg.(vmaps := AddOne(n, cfg.services[n].base, cfg.vmaps, k))
    ensures Holds(cfg1, service, f, nps, plan[n := plan[n].(addrs := plan[n].addrs.Plus(k.set_, k.addr))])
    ensures NeighboursKept(service, cfg, cfg1)
  {
    var now := plan[n].(addrs := plan[n].addrs.Plus(k.set_, k.addr));
    assert PortHas(cfg, service, f, nps, n, plan[n]);
    if k in cfg.vmaps {
      hide NeighboursKept, PortHas;
      var m := ElemOwner(cfg, service, f, nps, plan, k);
      assert SamePort(plan[m].port, plan[n].port);
      assert m == n;
      hide Holds, Rooted, DistinctPlan;
      AlreadyThere(plan[n].addrs, k.set_, k.addr);
      assert plan[n := now] == plan;
    } else {
      hide Holds, Rooted, DistinctPlan, NeighboursKept;
      ExposedPortHas(cfg, cfg1, service, f, nps, n, plan[n], k);
      hide PortHas;
      EditKeepsPlan(cfg, cfg1, service, f, nps, plan, n, now, k);
    }
    EditKeepsNeighbours(cfg, cfg1, service, k);
  }

  lemma AlreadyThere(a: Addrs, s: SetName, addr: Address)
    requires addr in a.For(s)
    ensures a.Plus(s, addr) == a
  {}

  lemma ExposedPortHas(cfg: Config, cfg1: Config, service: NamespacedName, f: Family, nps: seq<Port>, n: PortName,
                       ps: PortState, k: Elem)
    requires PortHas(cfg, service, f, nps, n, ps) && IpSet(k.set_) && IsKeyOf(f, ps.port, k) && k !in cfg.vmaps
    requires cfg1 == cfg.(vmaps := cfg.vmaps[k := ChainOf(n, cfg.services[n].base)])
    ensures PortHas(cfg1, service, f, nps, n, ps.(addrs := ps.addrs.Plus(k.set_, k.addr)))
  {}

  lemma HiddenPortHas(cfg: Config, cfg1: Config, service: NamespacedName, f: Family, nps: seq<Port>, n: PortName,
                      ps: PortState, k: Elem)
    requires PortHas(cfg, service, f, nps, n, ps) && IpSet(k.set_) && IsKeyOf(f, ps.port, k)
    requires cfg1 == cfg.(vmaps := cfg.vmaps - {k})
    ensures PortHas(cfg1, service, f, nps, n, ps.(addrs := ps.addrs.Minus(k.set_, k.addr)))
  {}

  /** Hiding a port under an address. */
  lemma HideKeepsPlan(cfg: Config, cfg1: Config, service: NamespacedName, f: Family, nps: seq<Port>, plan: Plan,
                      n: PortName, k: Elem)
    requires Rooted(cfg) && Holds(cfg, service, f, nps, plan) && DistinctPlan(plan) && n in plan
    requires IpSet(k.set_) && IsKeyOf(f, plan[n].port, k) && Free(cfg, service, k)
    requires cfg1 == cfg.(vmaps := cfg.vmaps - {k})
    ensures Holds(cfg1, service, f, nps, plan[n := plan[n].(addrs := plan[n].addrs.Minus(k.set_, k.addr))])
    ensures NeighboursKept(service, cfg, cfg1)
  {
    var now := plan[n].(addrs := plan[n].addrs.Minus(k.set_, k.addr));
    assert PortHas(cfg, service, f, nps, n, plan[n]);
    hide Holds, Rooted, DistinctPlan, NeighboursKept;
    HiddenPortHas(cfg, cfg1, service, f, nps, n, plan[n], k);
    EditKeepsPlan(cfg, cfg1, service, f, nps, plan, n, now, k);
    EditKeepsNeighbours(cfg, cfg1, service, k);
  }

  /** The masquerade map plays no part in where packets go. */
  lemma MasqKeepsPlan(cfg: Config, cfg1: Config, service: NamespacedName, f: Family, nps: seq<Port>, plan: Plan)
    requires Holds(cfg, service, f, nps, plan) && cfg1 == cfg.(vmaps := cfg1.vmaps)
    requires forall k: Elem :: !k.set_.MarkMasq? ==>
               (k in cfg1.vmaps <==> k in cfg.vmaps) && (k in cfg.vmaps ==> cfg1.vmaps[k] == cfg.vmaps[k])
    ensures Holds(cfg1, service, f, nps, plan) && NeighboursKept(service, cfg, cfg1)
  {
    forall m | m in plan ensures PortHas(cfg1, service, f, nps, m, plan[m]) {
      assert PortHas(cfg, service, f, nps, m, plan[m]);
    }
  }

  lemma AffinityKeepsPlan(cfg: Config, cfg1: Config, service: NamespacedName, f: Family, nps: seq<Port>, plan: Plan,
                          n: PortName, affinity: bool)
    requires Holds(cfg, service, f, nps, plan) && n in plan && n in cfg.services
    requires cfg1 == cfg.(services := cfg.services[n := Service(cfg.services[n].base, affinity)])
    ensures Holds(cfg1, service, f, nps, plan[n := plan[n].(affinity := affinity)])
    ensures NeighboursKept(service, cfg, cfg1)
  {
    hide PortHas, NeighboursKept;
    AffinityKeepsNeighbours(cfg, cfg1, service, f, nps, plan, n, affinity);
    var now := plan[n := plan[n].(affinity := affinity)];
    forall m | m in now ensures PortHas(cfg1, service, f, nps, m, now[m]) {
      AffinityKeepsPort(cfg, cfg1, service, f, nps, plan, n, affinity, m);
    }
  }

  lemma AffinityKeepsNeighbours(cfg: Config, cfg1: Config, service: NamespacedName, f: Family, nps: seq<Port>, plan: Plan,
                                n: PortName, affinity: bool)
    requires Holds(cfg, service, f, nps, plan) && n in plan && n in cfg.services
    requires cfg1 == cfg.(services := cfg.services[n := Service(cfg.services[n].base, affinity)])
    ensures NeighboursKept(service, cfg, cfg1)
  {
    assert n.service == service by { assert PortHas(cfg, service, f, nps, n, plan[n]); }
    hide Holds, PortHas;
  }

  lemma AffinityKeepsPort(cfg: Config, cfg1: Config, service: NamespacedName, f: Family, nps: seq<Port>, plan: Plan,
                          n: PortName, affinity: bool, m: PortName)
    requires Holds(cfg, service, f, nps, plan) && n in plan && n in cfg.services && m in plan
    requires cfg1 == cfg.(services := cfg.services[n := Service(cfg.services[n].base, affinity)])
    ensures PortHas(cfg1, service, f, nps, m, if m == n then plan[m].(affinity := affinity) else plan[m])
  {
    assert PortHas(cfg, service, f, nps, m, plan[m]);
  }
}
