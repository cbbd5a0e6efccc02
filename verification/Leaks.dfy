/** Nothing is left behind: when every service and endpoint is gone, so is everything made for them. */
module Leaks {
  import opened Names
  import opened Netfilter
  import opened Ruleset
  import opened Mirror
  import opened Api
  import opened Reconciler
  import opened Runs
  import opened ServiceState

  function Sibling(k: Elem, s: SetName): Elem {
    k.(set_ := s)
  }

  /** Every masquerade element has an address element with the same key. */
  ghost predicate Backed(vmaps: map<Elem, Chain>) {
    forall k :: k in vmaps && k.set_.MarkMasq? ==>
      Sibling(k, ClusterIP) in vmaps || Sibling(k, ExternalIP) in vmaps || Sibling(k, LoadbalancerIP) in vmaps
  }

  lemma AddBacks(n: PortName, b: BaseInfo, vmaps: map<Elem, Chain>)
    requires Backed(vmaps)
    ensures Backed(Exposing(n, b, PortKeys(b), vmaps))
  {
    hide NodeKeys;
    var now := Exposing(n, b, PortKeys(b), vmaps);
    forall k | k in now && k.set_.MarkMasq? && k !in vmaps
      ensures Sibling(k, ClusterIP) in now || Sibling(k, ExternalIP) in now || Sibling(k, LoadbalancerIP) in now
    {
      NodeKeysPlain(b, [b.nodePort], k);
      if k in MarkedKeys(b, ClusterIP, [b.clusterIP]) {
        MarkedSibling(b, ClusterIP, [b.clusterIP], k);
      } else if k in MarkedKeys(b, ExternalIP, b.externalIPs) {
        MarkedSibling(b, ExternalIP, b.externalIPs, k);
      } else {
        MarkedSibling(b, LoadbalancerIP, b.loadBalancerIPs, k);
      }
      hide MarkedKeys;
    }
  }

  /** Every address element has a masquerade element with the same key. */
  ghost predicate Covered(vmaps: map<Elem, Chain>) {
    forall k :: k in vmaps && IpSet(k.set_) ==> Sibling(k, MarkMasq) in vmaps
  }

  lemma AddCovers(n: PortName, b: BaseInfo, vmaps: map<Elem, Chain>)
    requires Covered(vmaps)
    ensures Covered(Exposing(n, b, PortKeys(b), vmaps))
  {
    hide NodeKeys;
    var now := Exposing(n, b, PortKeys(b), vmaps);
    forall k | k in now && IpSet(k.set_) && k !in vmaps ensures Sibling(k, MarkMasq) in now {
      NodeKeysPlain(b, [b.nodePort], k);
      if k in MarkedKeys(b, ClusterIP, [b.clusterIP]) {
        SiblingMarked(b, ClusterIP, [b.clusterIP], k);
      } else if k in MarkedKeys(b, ExternalIP, b.externalIPs) {
        SiblingMarked(b, ExternalIP, b.externalIPs, k);
      } else {
        SiblingMarked(b, LoadbalancerIP, b.loadBalancerIPs, k);
      }
      hide MarkedKeys;
    }
  }

  lemma ExposeCovers(n: PortName, b: BaseInfo, vmaps: map<Elem, Chain>, k: Elem)
    requires Covered(vmaps) && IpSet(k.set_)
    ensures Covered(AddOne(n, b, AddOne(n, b, vmaps, k), Sibling(k, MarkMasq)))
  {}

  /** Hiding an address takes its masquerade element along; that is right if the address is in no other set. */
  lemma HideCovers(vmaps: map<Elem, Chain>, k: Elem)
    requires Covered(vmaps) && IpSet(k.set_)
    requires forall s :: IpSet(s) && s != k.set_ ==> Sibling(k, s) !in vmaps
    ensures Covered(vmaps - {k} - {Sibling(k, MarkMasq)})
  {
    forall m | m in vmaps - {k} - {Sibling(k, MarkMasq)} && IpSet(m.set_) ensures Sibling(m, MarkMasq) != Sibling(k, MarkMasq) {
      assert Sibling(m, MarkMasq) == Sibling(k, MarkMasq) ==> m == Sibling(k, m.set_);
    }
  }

  lemma DeleteCovers(vmaps: map<Elem, Chain>, removed: set<Elem>)
    requires Covered(vmaps)
    requires forall k :: k in vmaps && IpSet(k.set_) && Sibling(k, MarkMasq) in removed ==> k in removed
    ensures Covered(vmaps - removed)
  {}

  lemma SiblingMarked(b: BaseInfo, s: SetName, addrs: seq<Address>, k: Elem)
    requires IpSet(k.set_) && k in MarkedKeys(b, s, addrs)
    ensures Sibling(k, MarkMasq) in MarkedKeys(b, s, addrs)
  {
    assert k == AddrKey(b, k.set_, k.addr);
    assert Sibling(k, MarkMasq) == AddrKey(b, MarkMasq, k.addr);
  }

  lemma NodeKeysPlain(b: BaseInfo, nps: seq<Port>, k: Elem)
    requires !k.set_.Nodeports?
    ensures k !in NodeKeys(b, nps)
  {}

  lemma MarkedSibling(b: BaseInfo, s: SetName, addrs: seq<Address>, k: Elem)
    requires IpSet(s) && k.set_.MarkMasq? && k in MarkedKeys(b, s, addrs)
    ensures Sibling(k, s) in MarkedKeys(b, s, addrs)
  {
    assert k == AddrKey(b, MarkMasq, k.addr);
    assert Sibling(k, s) == AddrKey(b, s, k.addr);
  }

  /** The delete path removes address elements together with their masquerade elements. */
  lemma DeleteBacks(b: BaseInfo, svc: ServiceObject, vmaps: map<Elem, Chain>)
    requires Backed(vmaps)
    ensures Backed(vmaps - RemovedKeys(b, svc))
  {
    var removed := RemovedKeys(b, svc);
    forall k: Elem, s | k.set_.MarkMasq? && IpSet(s) && Sibling(k, s) in removed ensures k in removed {
      assert Sibling(k, s) !in NodeKeys(b, NodePortsOf(svc.ports));
      if svc.clusterIP != NoAddress && Sibling(k, s) in MarkedKeys(b, ClusterIP, [svc.clusterIP]) {
        MarkedTogether(b, ClusterIP, [svc.clusterIP], k, s);
      } else if Sibling(k, s) in MarkedKeys(b, ExternalIP, svc.externalIPs) {
        MarkedTogether(b, ExternalIP, svc.externalIPs, k, s);
      } else {
        MarkedTogether(b, LoadbalancerIP, svc.ingress, k, s);
      }
    }
    forall k | k in vmaps - removed && k.set_.MarkMasq?
      ensures Sibling(k, ClusterIP) in vmaps - removed || Sibling(k, ExternalIP) in vmaps - removed
              || Sibling(k, LoadbalancerIP) in vmaps - removed
    {
      assert IpSet(ClusterIP) && IpSet(ExternalIP) && IpSet(LoadbalancerIP);
    }
  }

  lemma MarkedTogether(b: BaseInfo, set_: SetName, addrs: seq<Address>, k: Elem, s: SetName)
    requires k.set_.MarkMasq? && IpSet(s) && IpSet(set_) && Sibling(k, s) in MarkedKeys(b, set_, addrs)
    ensures k in MarkedKeys(b, set_, addrs)
  {
    assert Sibling(k, s) == AddrKey(b, s, k.addr);
    assert k == AddrKey(b, MarkMasq, k.addr);
  }

  lemma ExposeBacks(n: PortName, b: BaseInfo, vmaps: map<Elem, Chain>, k: Elem)
    requires Backed(vmaps) && IpSet(k.set_)
    ensures Backed(AddOne(n, b, vmaps, k))
    ensures Backed(AddOne(n, b, AddOne(n, b, vmaps, k), Sibling(k, MarkMasq)))
  {
    assert Sibling(Sibling(k, MarkMasq), k.set_) == k;
  }

  lemma HideBacks(vmaps: map<Elem, Chain>, k: Elem)
    requires Backed(vmaps)
    ensures Backed(vmaps - {k} - {Sibling(k, MarkMasq)})
  {
    forall m: Elem, s | m.set_.MarkMasq? && Sibling(m, s) == k ensures m == Sibling(k, MarkMasq) {}
  }

  /** Address elements are exposed before, and hidden together with, their masquerade elements. */
  predicate Tidy(evs: seq<Event>)
    decreases |evs|
  {
    if evs == [] then true
    else match evs[0]
      case Hide(k) =>
        if k.set_.MarkMasq? || k.set_.Nodeports? then Tidy(evs[1..])
        else |evs| > 1 && evs[1] == Hide(Sibling(k, MarkMasq)) && Tidy(evs[2..])
      case Expose(n, k) =>
        if k.set_.MarkMasq? then false
        else if |evs| > 1 && evs[1] == Expose(n, Sibling(k, MarkMasq)) then IpSet(k.set_) && Tidy(evs[2..])
        else Tidy(evs[1..])
      case _ => Tidy(evs[1..])
  }

  lemma StepBacks(w: World, hostname: string, ev: Event)
    requires Backed(w.cfg.vmaps)
    requires ev.Hide? ==> ev.k.set_.MarkMasq? || ev.k.set_.Nodeports?
    requires ev.Expose? ==> !ev.k.set_.MarkMasq?
    ensures Backed(Step(w, hostname, ev).cfg.vmaps)
  {
    match ev
    case AddPort(n, b, _) => AddBacks(n, b, w.cfg.vmaps);
    case DeletePort(n) =>
      if n in w.cfg.services && w.cfg.services[n].base.service in w.cache {
        DeleteBacks(w.cfg.services[n].base, w.cache[w.cfg.services[n].base.service], w.cfg.vmaps);
      }
    case _ =>
  }

  lemma {:induction false} TidyBacks(w: World, hostname: string, evs: seq<Event>)
    requires Backed(w.cfg.vmaps) && Tidy(evs)
    ensures Backed(Run(w, hostname, evs).cfg.vmaps)
    decreases |evs|
  {
    if evs != [] {
      var w1 := Step(w, hostname, evs[0]);
      if evs[0].Hide? && !evs[0].k.set_.MarkMasq? && !evs[0].k.set_.Nodeports? {
        HideBacks(w.cfg.vmaps, evs[0].k);
        assert evs[1..][0] == evs[1] && evs[1..][1..] == evs[2..];
        TidyBacks(Step(w1, hostname, evs[1]), hostname, evs[2..]);
      } else if evs[0].Expose? && |evs| > 1 && evs[1] == Expose(evs[0].n, Sibling(evs[0].k, MarkMasq)) {
        if evs[0].n in w.cfg.services {
          ExposeBacks(evs[0].n, w.cfg.services[evs[0].n].base, w.cfg.vmaps, evs[0].k);
        }
        assert evs[1..][0] == evs[1] && evs[1..][1..] == evs[2..];
        TidyBacks(Step(w1, hostname, evs[1]), hostname, evs[2..]);
      } else {
        StepBacks(w, hostname, evs[0]);
        TidyBacks(w1, hostname, evs[1..]);
      }
    }
  }

  /** With no port left, nothing is left for an element to lead to. */
  lemma NothingLeft(cfg: Config)
    requires Rooted(cfg) && Backed(cfg.vmaps) && cfg.services == map[] && cfg.endpoints == map[]
    ensures cfg == InitialConfig(cfg.cluster)
  {
    forall k | k in cfg.vmaps ensures false {
      assert !LiveTarget(cfg, k, cfg.vmaps[k]);
      assert k.set_.MarkMasq?;
      assert forall s :: IpSet(s) && Sibling(k, s) in cfg.vmaps ==> !LiveTarget(cfg, Sibling(k, s), cfg.vmaps[Sibling(k, s)]);
    }
    assert cfg.vmaps == map[];
  }

  /** Any run, interleaved in any way, that ends with every service and endpoint deleted leaves the
      kernel as it was after initialisation. */
  method NoLeak(p: Proxy, evs: seq<Event>)
    requires p.Valid() && AllAdmissible(WorldOf(p), p.hostname, evs) && p.GetConfig() == InitialConfig(p.cluster)
    requires Tidy(Select(evs, false))
    modifies p, p.nft
    ensures p.Valid() && WorldOf(p) == Run(old(WorldOf(p)), p.hostname, evs)
    ensures p.serviceMap == map[] && p.endpointsMap == map[] ==> ImageOf(p.nft.tables) == Compile(InitialConfig(p.cluster))
  {
    ghost var w := WorldOf(p);
    Execute(p, evs);
    assert Merge(w, w) == w;
    RunSeparates(w, w, p.hostname, evs);
    TidyBacks(w, p.hostname, Select(evs, false));
    if p.serviceMap == map[] && p.endpointsMap == map[] {
      RootedWhenSynced(p.cluster, p.GetBooks(), p.nft.tables);
      NothingLeft(p.GetConfig());
    }
  }

  /** The critical sections of one port's life during which its service changes its cluster address. */
  function Readdressed(svc: ServiceObject, svc': ServiceObject, q: ServicePort): seq<Event> {
    var n, b := PortNameOf(svc.name, q), NewBaseInfo(q, svc);
    [StoreService(svc), AddPort(n, b, svc.clientIP),
     Expose(n, AddrKey(b, ClusterIP, svc'.clusterIP)), Hide(AddrKey(b, ClusterIP, svc.clusterIP)),
     StoreService(svc'), DeletePort(n)]
  }

  lemma RunSixth(w: World, hostname: string, evs: seq<Event>)
    requires |evs| == 6
    ensures var w3 := Step(Step(Step(w, hostname, evs[0]), hostname, evs[1]), hostname, evs[2]);
            Run(w, hostname, evs) == Step(Step(Step(w3, hostname, evs[3]), hostname, evs[4]), hostname, evs[5])
  {
    hide Step;
    var w1 := Step(w, hostname, evs[0]);
    var w2 := Step(w1, hostname, evs[1]);
    var w3 := Step(w2, hostname, evs[2]);
    var w4 := Step(w3, hostname, evs[3]);
    var w5 := Step(w4, hostname, evs[4]);
    RunFrom(w, hostname, evs, 0);
    RunFrom(w1, hostname, evs, 1);
    RunFrom(w2, hostname, evs, 2);
    RunFrom(w3, hostname, evs, 3);
    RunFrom(w4, hostname, evs, 4);
    RunFrom(w5, hostname, evs, 5);
    assert evs[0..] == evs && evs[6..] == [];
  }

  lemma RunFrom(w: World, hostname: string, evs: seq<Event>, i: nat)
    requires i < |evs|
    ensures Run(w, hostname, evs[i..]) == Run(Step(w, hostname, evs[i]), hostname, evs[i + 1..])
  {
    assert evs[i..][0] == evs[i] && evs[i..][1..] == evs[i + 1..];
  }

  /** A change of the cluster address leaves the masquerade set alone: the element of the old address
      outlives the port exactly when the old address is no address of the service any more. */
  lemma ReaddressedLeak(w: World, hostname: string, svc: ServiceObject, svc': ServiceObject, q: ServicePort)
    requires svc.name == svc'.name && svc'.clusterIP != NoAddress && PortNameOf(svc.name, q) !in w.cfg.services
    ensures AddrKey(NewBaseInfo(q, svc), MarkMasq, svc.clusterIP) in Run(w, hostname, Readdressed(svc, svc', q)).cfg.vmaps
            <==> svc.clusterIP !in [svc'.clusterIP] + svc'.externalIPs + svc'.ingress
  {
    var n, b := PortNameOf(svc.name, q), NewBaseInfo(q, svc);
    RunSixth(w, hostname, Readdressed(svc, svc', q));
    var w1 := Step(w, hostname, StoreService(svc));
    var w2 := Step(w1, hostname, AddPort(n, b, svc.clientIP));
    assert n !in w1.cfg.services;
    hide Step, RemovedKeys, Run;
    AddedMasq(w1, hostname, n, b, svc.clientIP);
    EditedMasq(w2, hostname, n, svc', svc.clusterIP);
    MasqRemoved(b, svc', svc.clusterIP);
  }

  lemma EditedMasq(w: World, hostname: string, n: PortName, svc: ServiceObject, a: Address)
    requires n in w.cfg.services && w.cfg.services[n].base.service == svc.name
    requires AddrKey(w.cfg.services[n].base, MarkMasq, a) in w.cfg.vmaps
    ensures var b := w.cfg.services[n].base;
            var w3 := Step(w, hostname, Expose(n, AddrKey(b, ClusterIP, svc.clusterIP)));
            var w5 := Step(Step(w3, hostname, Hide(AddrKey(b, ClusterIP, a))), hostname, StoreService(svc));
            AddrKey(b, MarkMasq, a) in Step(w5, hostname, DeletePort(n)).cfg.vmaps
            <==> AddrKey(b, MarkMasq, a) !in RemovedKeys(b, svc)
  {
    hide RemovedKeys;
  }

  lemma AddedMasq(w: World, hostname: string, n: PortName, b: BaseInfo, affinity: bool)
    requires n !in w.cfg.services
    ensures var cfg := Step(w, hostname, AddPort(n, b, affinity)).cfg;
            && AddrKey(b, MarkMasq, b.clusterIP) in cfg.vmaps
            && n in cfg.services && cfg.services[n].base == b
  {
    assert AddrKey(b, MarkMasq, b.clusterIP) in MarkedKeys(b, ClusterIP, [b.clusterIP]);
    hide MarkedKeys, NodeKeys;
  }

  lemma MasqRemoved(b: BaseInfo, svc: ServiceObject, a: Address)
    requires svc.clusterIP != NoAddress
    ensures AddrKey(b, MarkMasq, a) in RemovedKeys(b, svc) <==> a in [svc.clusterIP] + svc.externalIPs + svc.ingress
  {}

  /** The nodeports that go with a port, field by field: all of the last known object's, under the
      protocol and in the table of this port. */
  lemma NodePortsRemovedExactly(b: BaseInfo, svc: ServiceObject, k: Elem)
    requires k.set_.Nodeports?
    ensures k in RemovedKeys(b, svc) <==>
              && k.family == (if b.clusterIP.Ip6? then IPv6 else IPv4) && k.protocol == b.protocol && k.addr == NoAddress
              && k.port != 0 && exists q :: q in svc.ports && q.nodePort == k.port
  {
    hide MarkedKeys;
    MarkedPlain(b, ClusterIP, [svc.clusterIP], k);
    MarkedPlain(b, ExternalIP, svc.externalIPs, k);
    MarkedPlain(b, LoadbalancerIP, svc.ingress, k);
    if q :| q in svc.ports && q.nodePort == k.port {
      var i :| 0 <= i < |svc.ports| && svc.ports[i] == q;
      assert NodePortsOf(svc.ports)[i] == k.port;
    }
    if k.port in NodePortsOf(svc.ports) {
      var i :| 0 <= i < |svc.ports| && NodePortsOf(svc.ports)[i] == k.port;
      assert svc.ports[i] in svc.ports;
    }
  }

  lemma MarkedPlain(b: BaseInfo, s: SetName, addrs: seq<Address>, k: Elem)
    requires k.set_.Nodeports? && IpSet(s)
    ensures k !in MarkedKeys(b, s, addrs)
  {}

  /** Deleting one port takes the nodeport of another port of the service with it exactly when the two
      ports use the same protocol. */
  lemma SiblingNodePort(w: World, hostname: string, n: PortName, q: ServicePort)
    requires n in w.cfg.services && w.cfg.services[n].base.service in w.cache
    requires q in w.cache[w.cfg.services[n].base.service].ports && q.nodePort != 0
    requires var b := w.cfg.services[n].base; Elem(TableFamily(b), Nodeports, q.protocol, NoAddress, q.nodePort) in w.cfg.vmaps
    ensures var b := w.cfg.services[n].base;
            Elem(TableFamily(b), Nodeports, q.protocol, NoAddress, q.nodePort) in Step(w, hostname, DeletePort(n)).cfg.vmaps
            <==> q.protocol != b.protocol
  {
    var b := w.cfg.services[n].base;
    var svc := w.cache[b.service];
    var i :| 0 <= i < |svc.ports| && svc.ports[i] == q;
    assert NodePortsOf(svc.ports)[i] == q.nodePort;
    assert q.nodePort in NodePortsOf(svc.ports);
  }
}
