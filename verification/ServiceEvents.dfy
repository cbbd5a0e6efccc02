/** The service thread's handlers: Service objects against the last known one. */
module ServiceEvents {
  import opened Names
  import opened Netfilter
  import opened Ruleset
  import opened Mirror
  import opened Api
  import opened Reconciler
  import opened Runs
  import opened ServiceState
  import opened Leaks

  // What a service owns, before and after a handler ---------------------------------------------

  function AllAddrs(svc: ServiceObject): set<Address> {
    {svc.clusterIP} + AsSet(svc.externalIPs) + AsSet(svc.ingress)
  }

  predicate OneFamily(svc: ServiceObject, f: Family) {
    forall a :: a in AllAddrs(svc) ==> FamilyOf(a) == f
  }

  /** The service has exactly the ports of its object, under exactly the object's addresses. */
  ghost predicate InSync(cfg: Config, svc: ServiceObject) {
    Holds(cfg, svc.name, FamilyOf(svc.clusterIP), NodePortsOf(svc.ports), PlanFor(svc))
  }

  ghost predicate NoPorts(cfg: Config, service: NamespacedName) {
    forall n :: n in cfg.services ==> n.service != service
  }

  /** A port's endpoints are of its family, and other services' rejected keys are not its own. */
  ghost predicate Clear(cfg: Config, svc: ServiceObject, q: ServicePort) {
    var b := NewBaseInfo(q, svc);
    && SameFamily(b, EpsOf(cfg.endpoints, PortNameOf(svc.name, q)))
    && forall m :: m in cfg.services && m.service != svc.name ==> RejectKeys(cfg.services[m].base) !! RejectKeys(b)
  }

  /** Keys are distinct across services, for the ports of an object under its own and some other addresses. */
  ghost predicate Placeable(cfg: Config, svc: ServiceObject, others: set<Address>) {
    && (forall i :: 0 <= i < |svc.ports| ==> Clear(cfg, svc, svc.ports[i]))
    && KeysFree(cfg, svc.name, FamilyOf(svc.clusterIP), svc.ports, AllAddrs(svc) + others)
  }

  /** Other services are untouched, and masquerade elements keep their address elements. */
  ghost predicate Carried(service: NamespacedName, cfg0: Config, cfg1: Config) {
    NeighboursKept(service, cfg0, cfg1) && (Backed(cfg0.vmaps) ==> Backed(cfg1.vmaps))
  }

  lemma CarriedTwice(service: NamespacedName, cfg0: Config, cfg1: Config, cfg2: Config)
    requires Carried(service, cfg0, cfg1) && Carried(service, cfg1, cfg2)
    ensures Carried(service, cfg0, cfg2)
  {
    NeighboursKeptTwice(service, cfg0, cfg1, cfg2);
  }

  lemma CarriedNowhere(service: NamespacedName, cfg: Config)
    ensures Carried(service, cfg, cfg)
  {}

  lemma PlaceableKept(svc: ServiceObject, others: set<Address>, cfg0: Config, cfg1: Config)
    requires Placeable(cfg0, svc, others) && NeighboursKept(svc.name, cfg0, cfg1)
    ensures Placeable(cfg1, svc, others)
  {
    forall i | 0 <= i < |svc.ports| ensures Clear(cfg1, svc, svc.ports[i]) {
      assert Clear(cfg0, svc, svc.ports[i]);
    }
  }

  // Adding and deleting one port ----------------------------------------------------------------

  lemma RejectsApart(b: BaseInfo, c: BaseInfo)
    requires !(b.protocol == c.protocol && b.port == c.port)
    ensures RejectKeys(b) !! RejectKeys(c)
  {}

  lemma AddAdmissible(cfg: Config, f: Family, nps: seq<Port>, plan: Plan, svc: ServiceObject, q: ServicePort)
    requires Holds(cfg, svc.name, f, nps, plan) && Addable(cfg, f, nps, plan, svc, q) && Clear(cfg, svc, q)
    ensures SameFamily(NewBaseInfo(q, svc), EpsOf(cfg.endpoints, PortNameOf(svc.name, q)))
    ensures forall m :: m in cfg.services ==> RejectKeys(cfg.services[m].base) !! RejectKeys(NewBaseInfo(q, svc))
  {
    forall m | m in cfg.services ensures RejectKeys(cfg.services[m].base) !! RejectKeys(NewBaseInfo(q, svc)) {
      if m.service == svc.name {
        assert PortHas(cfg, svc.name, f, nps, m, plan[m]) && !SamePort(plan[m].port, q);
        RejectsApart(cfg.services[m].base, NewBaseInfo(q, svc));
      }
    }
  }

  /** Adds a port, or finds it there. */
  method InstallPort(p: Proxy, svc: ServiceObject, q: ServicePort, ghost f: Family, ghost nps: seq<Port>, ghost plan: Plan,
                     ghost fresh_: bool)
    requires p.Valid()
    requires if fresh_
             then Holds(p.GetConfig(), svc.name, f, nps, plan) && Addable(p.GetConfig(), f, nps, plan, svc, q)
                  && Clear(p.GetConfig(), svc, q)
             else PortNameOf(svc.name, q) in p.GetConfig().services
    modifies p`serviceMap, p`epRules, p.nft
    ensures p.Valid() && old(p.nft.history) <= p.nft.history
    ensures fresh_ ==>
              && p.GetConfig() == AddedConfig(old(p.GetConfig()), svc, q)
              && Holds(p.GetConfig(), svc.name, f, nps, plan[PortNameOf(svc.name, q) := StateOf(svc, q)])
              && Carried(svc.name, old(p.GetConfig()), p.GetConfig())
              && (Covered(old(p.GetConfig()).vmaps) ==> Covered(p.GetConfig().vmaps))
    ensures !fresh_ ==> p.GetConfig() == old(p.GetConfig())
  {
    hide Synced;
    ghost var cfg := p.GetConfig();
    if fresh_ {
      RootedWhenSynced(p.cluster, p.GetBooks(), p.nft.tables);
      AddKeepsPlan(cfg, f, nps, plan, svc, q);
      AddAdmissible(cfg, f, nps, plan, svc, q);
      if Backed(cfg.vmaps) {
        AddBacks(PortNameOf(svc.name, q), NewBaseInfo(q, svc), cfg.vmaps);
      }
      if Covered(cfg.vmaps) {
        AddCovers(PortNameOf(svc.name, q), NewBaseInfo(q, svc), cfg.vmaps);
      }
    }
    ServicesListed(p);
    hide Holds, Addable, Clear, NeighboursKept, Backed, Covered, PortKeys, Exposing, RejectKeys, SameFamily;
    p.AddServicePort(PortNameOf(svc.name, q), NewBaseInfo(q, svc), svc.clientIP);
  }

  method UninstallPort(p: Proxy, ghost stored: ServiceObject, n: PortName, ghost f: Family, ghost nps: seq<Port>, ghost plan: Plan)
    requires p.Valid() && Holds(p.GetConfig(), stored.name, f, nps, plan) && DistinctPlan(plan) && n in plan
    requires stored.name in p.svcCache && p.svcCache[stored.name] == stored && stored.clusterIP != NoAddress
    requires plan[n].addrs == AddrsOf(stored) && nps == NodePortsOf(stored.ports)
    modifies p`serviceMap, p`epRules, p.nft
    ensures p.Valid() && old(p.nft.history) <= p.nft.history
    ensures Holds(p.GetConfig(), stored.name, f, nps, plan - {n})
    ensures Carried(stored.name, old(p.GetConfig()), p.GetConfig())
    ensures Covered(old(p.GetConfig()).vmaps) && KeysFree(old(p.GetConfig()), stored.name, f, [plan[n].port], AllAddrs(stored)) ==>
              Covered(p.GetConfig().vmaps)
  {
    hide Synced;
    ghost var w := WorldOf(p);
    RootedWhenSynced(p.cluster, p.GetBooks(), p.nft.tables);
    DeleteKeepsPlan(w, f, nps, plan, n, stored);
    if Backed(w.cfg.vmaps) {
      StepBacks(w, "", DeletePort(n));
    }
    if Covered(w.cfg.vmaps) && KeysFree(w.cfg, stored.name, f, [plan[n].port], AllAddrs(stored)) {
      UninstallCovers(w.cfg, f, nps, plan, n, stored);
    }
    DetachableInWorld(p, n);
    ServicesListed(p);
    p.DeleteServicePort(n);
    assert p.GetConfig() == Step(w, "", DeletePort(n)).cfg;
  }

  lemma UninstallCovers(cfg: Config, f: Family, nps: seq<Port>, plan: Plan, n: PortName, stored: ServiceObject)
    requires Rooted(cfg) && Holds(cfg, stored.name, f, nps, plan) && DistinctPlan(plan) && n in plan && n in cfg.services
    requires stored.clusterIP != NoAddress && plan[n].addrs == AddrsOf(stored)
    requires Covered(cfg.vmaps) && KeysFree(cfg, stored.name, f, [plan[n].port], AllAddrs(stored))
    ensures Covered(cfg.vmaps - RemovedKeys(cfg.services[n].base, stored))
  {
    var b := cfg.services[n].base;
    var removed := RemovedKeys(b, stored);
    assert PortHas(cfg, stored.name, f, nps, n, plan[n]);
    RemovedIpKeys(b, stored);
    hide RemovedKeys, Exposed;
    forall k | k in cfg.vmaps && IpSet(k.set_) && Sibling(k, MarkMasq) in removed ensures k in removed {
      RemovedMasqKeys(b, stored, Sibling(k, MarkMasq));
      assert IsKeyOf(f, [plan[n].port][0], k) && k.addr in AllAddrs(stored);
      var m := ElemOwner(cfg, stored.name, f, nps, plan, k);
      assert SamePort(plan[m].port, plan[n].port);
      assert m == n;
    }
    DeleteCovers(cfg.vmaps, removed);
  }

  // AddService and DeleteService ----------------------------------------------------------------

  lemma AddableNext(cfg: Config, svc: ServiceObject, others: set<Address>, i: nat)
    requires i < |svc.ports| && DistinctPorts(svc.ports) && Placeable(cfg, svc, others)
    requires Holds(cfg, svc.name, FamilyOf(svc.clusterIP), NodePortsOf(svc.ports), PlanUpTo(svc, i))
    ensures Addable(cfg, FamilyOf(svc.clusterIP), NodePortsOf(svc.ports), PlanUpTo(svc, i), svc, svc.ports[i])
  {
    hide Free, PlanUpTo, DistinctPlan;
    PlanUpToHas(svc, i);
    assert NodePortsOf(svc.ports)[i] == svc.ports[i].nodePort;
  }

  lemma NothingPlanned(cfg: Config, svc: ServiceObject)
    requires NoPorts(cfg, svc.name)
    ensures Holds(cfg, svc.name, FamilyOf(svc.clusterIP), NodePortsOf(svc.ports), PlanUpTo(svc, 0))
  {}

  /** The service as it is after its first i ports: new so far, or there all along. */
  ghost predicate Installing(cfg0: Config, cfg: Config, svc: ServiceObject, i: nat)
    requires i <= |svc.ports|
  {
    if NoPorts(cfg0, svc.name)
    then && Holds(cfg, svc.name, FamilyOf(svc.clusterIP), NodePortsOf(svc.ports), PlanUpTo(svc, i))
         && Carried(svc.name, cfg0, cfg) && Detailed(cfg0, cfg, svc, i) && (Covered(cfg0.vmaps) ==> Covered(cfg.vmaps))
    else cfg == cfg0
  }

  /** The port is on record with every field of the object that the program keeps. */
  ghost predicate Recorded(cfg: Config, svc: ServiceObject, q: ServicePort) {
    var n := PortName(svc.name, q.name, q.protocol);
    && n in cfg.services
    && cfg.services[n] == Service(
         BaseInfo(svc.name, if svc.ipFamily == None then IPv4 else svc.ipFamily.value, svc.clusterIP, q.port, q.protocol, q.nodePort,
                  svc.externalIPs, svc.ingress),
         svc.clientIP)
  }

  /** A port with a nodeport is reachable on it. */
  ghost predicate OnNodePort(cfg: Config, svc: ServiceObject, q: ServicePort) {
    q.nodePort != 0 ==>
      var n := PortName(svc.name, q.name, q.protocol);
      && n in cfg.services && NodeElem(svc, q) in cfg.vmaps
      && cfg.vmaps[NodeElem(svc, q)] == ChainOf(n, cfg.services[n].base)
  }

  /** Nobody holds the nodeports of the object, and no two of its ports share one. */
  ghost predicate NodePortsUnused(cfg: Config, svc: ServiceObject) {
    && (forall i :: 0 <= i < |svc.ports| && svc.ports[i].nodePort != 0 ==> NodeElem(svc, svc.ports[i]) !in cfg.vmaps)
    && (forall i, j :: 0 <= i < j < |svc.ports| && svc.ports[i].nodePort != 0 ==>
          NodeElem(svc, svc.ports[i]) != NodeElem(svc, svc.ports[j]))
  }

  /** What is on record, and on nodeports, once the first i ports of a new service are added. */
  ghost predicate Detailed(cfg0: Config, cfg: Config, svc: ServiceObject, i: nat)
    requires i <= |svc.ports|
  {
    && (forall j :: 0 <= j < i ==> Recorded(cfg, svc, svc.ports[j]))
    && (NodePortsUnused(cfg0, svc) ==>
          && (forall j :: 0 <= j < i ==> OnNodePort(cfg, svc, svc.ports[j]))
          && (forall j :: i <= j < |svc.ports| && svc.ports[j].nodePort != 0 ==> NodeElem(svc, svc.ports[j]) !in cfg.vmaps))
  }

  lemma DetailedNext(cfg0: Config, cfg: Config, svc: ServiceObject, i: nat)
    requires i < |svc.ports| && DistinctPorts(svc.ports) && Detailed(cfg0, cfg, svc, i)
    ensures Detailed(cfg0, AddedConfig(cfg, svc, svc.ports[i]), svc, i + 1)
  {
    hide AddedConfig, Recorded, OnNodePort, NodeElem;
    var q, cfg1 := svc.ports[i], AddedConfig(cfg, svc, svc.ports[i]);
    forall j | 0 <= j < i
      ensures Recorded(cfg1, svc, svc.ports[j]) && (OnNodePort(cfg, svc, svc.ports[j]) ==> OnNodePort(cfg1, svc, svc.ports[j]))
    {
      DetailedKept(cfg, svc, svc.ports[j], q);
    }
    DetailedNew(cfg, svc, q);
    hide DistinctPorts;
    if NodePortsUnused(cfg0, svc) {
      forall j | i < j < |svc.ports| && svc.ports[j].nodePort != 0 ensures NodeElem(svc, svc.ports[j]) !in cfg1.vmaps {
        StillUnused(cfg, svc, svc.ports[j], q);
      }
    }
  }

  lemma DetailedNew(cfg: Config, svc: ServiceObject, q: ServicePort)
    ensures Recorded(AddedConfig(cfg, svc, q), svc, q)
    ensures (q.nodePort != 0 ==> NodeElem(svc, q) !in cfg.vmaps) ==> OnNodePort(AddedConfig(cfg, svc, q), svc, q)
  {
    AddedKeys(NewBaseInfo(q, svc), svc, q);
    hide PortKeys, OwnKeys;
    assert Recorded(AddedConfig(cfg, svc, q), svc, q);
  }

  lemma StillUnused(cfg: Config, svc: ServiceObject, r: ServicePort, q: ServicePort)
    requires NodeElem(svc, r) !in cfg.vmaps && (q.nodePort != 0 ==> NodeElem(svc, q) != NodeElem(svc, r))
    ensures NodeElem(svc, r) !in AddedConfig(cfg, svc, q).vmaps
  {
    AddedKeys(NewBaseInfo(q, svc), svc, q);
    hide PortKeys, OwnKeys;
  }

  /** Adding one port leaves what is on record of another, and its nodeport. */
  lemma DetailedKept(cfg: Config, svc: ServiceObject, r: ServicePort, q: ServicePort)
    requires Recorded(cfg, svc, r) && !(r.name == q.name && r.protocol == q.protocol)
    ensures Recorded(AddedConfig(cfg, svc, q), svc, r)
    ensures OnNodePort(cfg, svc, r) ==> OnNodePort(AddedConfig(cfg, svc, q), svc, r)
  {
    hide PortKeys, NewBaseInfo;
  }

  method InstallNext(p: Proxy, svc: ServiceObject, i: nat, ghost cfg0: Config)
    requires p.Valid() && i < |svc.ports| && DistinctPorts(svc.ports) && Installing(cfg0, p.GetConfig(), svc, i)
    requires if NoPorts(cfg0, svc.name) then Placeable(cfg0, svc, {}) else InSync(cfg0, svc)
    modifies p`serviceMap, p`epRules, p.nft
    ensures p.Valid() && old(p.nft.history) <= p.nft.history
    ensures Installing(cfg0, p.GetConfig(), svc, i + 1)
  {
    hide Synced, Holds, NoPorts, Placeable, DistinctPorts, Detailed, AddedConfig, Covered;
    ghost var cfg1 := p.GetConfig();
    if NoPorts(cfg0, svc.name) {
      PlaceableKept(svc, {}, cfg0, cfg1);
      AddableNext(cfg1, svc, {}, i);
      PlaceableNext(cfg1, svc, i);
      DetailedNext(cfg0, cfg1, svc, i);
    } else {
      AlreadyListed(cfg1, svc, i);
    }
    InstallPort(p, svc, svc.ports[i], FamilyOf(svc.clusterIP), NodePortsOf(svc.ports), PlanUpTo(svc, i), NoPorts(cfg0, svc.name));
    if NoPorts(cfg0, svc.name) {
      CarriedTwice(svc.name, cfg0, cfg1, p.GetConfig());
    }
  }

  lemma NothingDetailed(cfg: Config, svc: ServiceObject)
    ensures Detailed(cfg, cfg, svc, 0)
  {}

  lemma PlaceableNext(cfg: Config, svc: ServiceObject, i: nat)
    requires i < |svc.ports| && Placeable(cfg, svc, {})
    ensures Clear(cfg, svc, svc.ports[i])
  {}

  lemma AlreadyListed(cfg: Config, svc: ServiceObject, i: nat)
    requires i < |svc.ports| && DistinctPorts(svc.ports) && InSync(cfg, svc)
    ensures PortNameOf(svc.name, svc.ports[i]) in cfg.services
  {
    PlanUpToHas(svc, |svc.ports|);
    var n, plan := PortNameOf(svc.name, svc.ports[i]), PlanFor(svc);
    assert PortHas(cfg, svc.name, FamilyOf(svc.clusterIP), NodePortsOf(svc.ports), n, plan[n]);
  }

  method InstallPorts(p: Proxy, svc: ServiceObject)
    requires p.Valid() && DistinctPorts(svc.ports)
    requires if NoPorts(p.GetConfig(), svc.name) then Placeable(p.GetConfig(), svc, {}) else InSync(p.GetConfig(), svc)
    modifies p`serviceMap, p`epRules, p.nft
    ensures p.Valid() && old(p.nft.history) <= p.nft.history
    ensures Installing(old(p.GetConfig()), p.GetConfig(), svc, |svc.ports|)
  {
    hide Synced, Holds, Carried, Placeable, NoPorts, DistinctPorts, PlanUpTo, InSync, Detailed, Covered;
    ghost var cfg0 := p.GetConfig();
    CarriedNowhere(svc.name, cfg0);
    if NoPorts(cfg0, svc.name) {
      NothingPlanned(cfg0, svc);
      NothingDetailed(cfg0, svc);
    }
    for i := 0 to |svc.ports|
      invariant p.Valid() && old(p.nft.history) <= p.nft.history
      invariant Installing(cfg0, p.GetConfig(), svc, i)
    {
      InstallNext(p, svc, i, cfg0);
    }
  }

  /** A new service ends up with exactly its ports under its addresses, a known one stays as it is, and
      a skipped one is only remembered. */
  method AddService(p: Proxy, svc: ServiceObject)
    requires p.Valid() && DistinctPorts(svc.ports)
    requires !ShouldSkip(svc) ==>
               if NoPorts(p.GetConfig(), svc.name) then Placeable(p.GetConfig(), svc, {}) else InSync(p.GetConfig(), svc)
    modifies p`svcCache, p`serviceMap, p`epRules, p.nft
    ensures p.Valid() && old(p.nft.history) <= p.nft.history
    ensures p.svcCache == old(p.svcCache)[svc.name := svc]
    ensures svc.clusterIP != NoAddress && !svc.externalName ==> InSync(p.GetConfig(), svc)
    ensures svc.clusterIP != NoAddress && !svc.externalName && NoPorts(old(p.GetConfig()), svc.name) ==>
              forall i :: 0 <= i < |svc.ports| ==> Recorded(p.GetConfig(), svc, svc.ports[i])
    ensures svc.clusterIP != NoAddress && !svc.externalName && NoPorts(old(p.GetConfig()), svc.name)
            && NodePortsUnused(old(p.GetConfig()), svc) ==>
              forall i :: 0 <= i < |svc.ports| ==> OnNodePort(p.GetConfig(), svc, svc.ports[i])
    ensures svc.clusterIP == NoAddress || svc.externalName || !NoPorts(old(p.GetConfig()), svc.name) ==>
              p.GetConfig() == old(p.GetConfig())
    ensures Carried(svc.name, old(p.GetConfig()), p.GetConfig())
    ensures Covered(old(p.GetConfig()).vmaps) ==> Covered(p.GetConfig().vmaps)
  {
    hide Synced, Holds, Carried, Placeable, NoPorts, DistinctPorts, Recorded, OnNodePort, NodePortsUnused, Covered;
    CarriedNowhere(svc.name, p.GetConfig());
    p.svcCache := p.svcCache[svc.name := svc];
    if ShouldSkip(svc) {
      return;
    }
    InstallPorts(p, svc);
  }

  /** What is left of a plan once the given ports are deleted. */
  function Deleted(service: NamespacedName, ports: seq<ServicePort>, plan: Plan): Plan {
    map n | n in plan && (forall i :: 0 <= i < |ports| ==> n != PortNameOf(service, ports[i])) :: plan[n]
  }

  lemma DeletedNext(service: NamespacedName, ports: seq<ServicePort>, plan: Plan, i: nat)
    requires i < |ports|
    ensures Deleted(service, ports[..i + 1], plan) == Deleted(service, ports[..i], plan) - {PortNameOf(service, ports[i])}
  {}

  lemma DeletedNone(service: NamespacedName, plan: Plan)
    ensures Deleted(service, [], plan) == plan
  {}

  /** The ports installed for the last known object of a service. */
  function KnownPlan(stored: ServiceObject): Plan {
    if ShouldSkip(stored) then map[] else PlanFor(stored)
  }

  lemma DeletedStays(stored: ServiceObject, ports: seq<ServicePort>, n: PortName)
    requires DistinctPorts(stored.ports)
    ensures DistinctPlan(Deleted(stored.name, ports, KnownPlan(stored)))
    ensures n in Deleted(stored.name, ports, KnownPlan(stored)) ==>
              && !ShouldSkip(stored) && Deleted(stored.name, ports, KnownPlan(stored))[n].addrs == AddrsOf(stored)
              && Deleted(stored.name, ports, KnownPlan(stored))[n].port in stored.ports
  {
    PlanUpToHas(stored, |stored.ports|);
  }

  /** The last known object of a service; without one, an object of which nothing is installed. */
  function LastKnown(cache: map<NamespacedName, ServiceObject>, svc: ServiceObject): ServiceObject {
    if svc.name in cache then cache[svc.name] else svc.(clusterIP := NoAddress, ports := [])
  }

  /** Masquerading stays complete, if no other service has an address of this one under one of its ports. */
  ghost predicate StaysCovered(stored: ServiceObject, cfg0: Config, cfg: Config) {
    Covered(cfg0.vmaps) && KeysFree(cfg0, stored.name, FamilyOf(stored.clusterIP), stored.ports, AllAddrs(stored)) ==>
      Covered(cfg.vmaps)
  }

  lemma StaysCoveredNext(stored: ServiceObject, cfg0: Config, cfg1: Config, cfg2: Config, q: ServicePort)
    requires StaysCovered(stored, cfg0, cfg1) && NeighboursKept(stored.name, cfg0, cfg1) && q in stored.ports
    requires Covered(cfg1.vmaps) && KeysFree(cfg1, stored.name, FamilyOf(stored.clusterIP), [q], AllAddrs(stored)) ==>
               Covered(cfg2.vmaps)
    ensures StaysCovered(stored, cfg0, cfg2)
  {
    hide Covered, KeysFree, NeighboursKept;
    if Covered(cfg0.vmaps) && KeysFree(cfg0, stored.name, FamilyOf(stored.clusterIP), stored.ports, AllAddrs(stored)) {
      KeysFreeKept(cfg0, cfg1, stored.name, FamilyOf(stored.clusterIP), stored.ports, AllAddrs(stored));
      KeysFreeOne(cfg1, stored.name, FamilyOf(stored.clusterIP), stored.ports, AllAddrs(stored), q);
    }
  }

  /** Deletes a port of the service, if it is there. */
  method UninstallNamed(p: Proxy, ghost stored: ServiceObject, n: PortName, ghost ports: seq<ServicePort>, ghost cfg0: Config)
    requires p.Valid() && DistinctPorts(stored.ports)
    requires ShouldSkip(stored) || (stored.name in p.svcCache && p.svcCache[stored.name] == stored)
    requires n.service == stored.name && Carried(stored.name, cfg0, p.GetConfig()) && StaysCovered(stored, cfg0, p.GetConfig())
    requires Holds(p.GetConfig(), stored.name, FamilyOf(stored.clusterIP), NodePortsOf(stored.ports),
                   Deleted(stored.name, ports, KnownPlan(stored)))
    modifies p`serviceMap, p`epRules, p.nft
    ensures p.Valid() && old(p.nft.history) <= p.nft.history
    ensures Holds(p.GetConfig(), stored.name, FamilyOf(stored.clusterIP), NodePortsOf(stored.ports),
                  Deleted(stored.name, ports, KnownPlan(stored)) - {n})
    ensures Carried(stored.name, cfg0, p.GetConfig()) && StaysCovered(stored, cfg0, p.GetConfig())
  {
    hide Synced;
    ghost var cfg1, plan := p.GetConfig(), Deleted(stored.name, ports, KnownPlan(stored));
    DeletedStays(stored, ports, n);
    ServicesListed(p);
    assert n in p.serviceMap ==> n in plan;
    hide PlanUpTo, Deleted, DistinctPorts, Covered, KeysFree, AllAddrs;
    if n in p.serviceMap {
      UninstallPort(p, stored, n, FamilyOf(stored.clusterIP), NodePortsOf(stored.ports), plan);
      StaysCoveredNext(stored, cfg0, cfg1, p.GetConfig(), plan[n].port);
      CarriedTwice(stored.name, cfg0, cfg1, p.GetConfig());
    } else {
      p.DeleteServicePort(n);
      assert plan - {n} == plan;
    }
  }

  /** Deletes the ports of the object passed in, under the addresses of the one remembered. */
  method DeleteService(p: Proxy, svc: ServiceObject)
    requires p.Valid()
    requires var stored := LastKnown(p.svcCache, svc);
             && stored.name == svc.name && DistinctPorts(stored.ports)
             && Holds(p.GetConfig(), svc.name, FamilyOf(stored.clusterIP), NodePortsOf(stored.ports), KnownPlan(stored))
    modifies p`svcCache, p`serviceMap, p`epRules, p.nft
    ensures p.Valid() && old(p.nft.history) <= p.nft.history
    ensures p.svcCache == old(p.svcCache) - {svc.name}
    ensures var stored := LastKnown(old(p.svcCache), svc);
            Holds(p.GetConfig(), svc.name, FamilyOf(stored.clusterIP), NodePortsOf(stored.ports),
                  Deleted(svc.name, svc.ports, KnownPlan(stored)))
    ensures Carried(svc.name, old(p.GetConfig()), p.GetConfig())
    ensures StaysCovered(LastKnown(old(p.svcCache), svc), old(p.GetConfig()), p.GetConfig())
  {
    hide Synced, Holds, Carried, Deleted, KnownPlan, DistinctPorts, Covered, KeysFree, AllAddrs;
    ghost var cfg0 := p.GetConfig();
    ghost var stored := LastKnown(p.svcCache, svc);
    CarriedNowhere(svc.name, cfg0);
    DeletedNone(svc.name, KnownPlan(stored));
    for i := 0 to |svc.ports|
      invariant p.Valid() && old(p.nft.history) <= p.nft.history && p.svcCache == old(p.svcCache)
      invariant Holds(p.GetConfig(), svc.name, FamilyOf(stored.clusterIP), NodePortsOf(stored.ports),
                      Deleted(svc.name, svc.ports[..i], KnownPlan(stored)))
      invariant Carried(svc.name, cfg0, p.GetConfig()) && StaysCovered(stored, cfg0, p.GetConfig())
    {
      UninstallNamed(p, stored, PortNameOf(svc.name, svc.ports[i]), svc.ports[..i], cfg0);
      DeletedNext(svc.name, svc.ports, KnownPlan(stored), i);
    }
    assert svc.ports[..|svc.ports|] == svc.ports;
    p.svcCache := p.svcCache - {svc.name};
  }

  lemma DeletedAll(svc: ServiceObject)
    requires DistinctPorts(svc.ports)
    ensures Deleted(svc.name, svc.ports, PlanFor(svc)) == map[]
  {
    PlanUpToHas(svc, |svc.ports|);
  }
}
