/** How the proxy's books and the kernel tables hang together between two critical sections,
    and what follows from it. */
module Mirror {
  import opened Names
  import opened Netfilter
  import opened Ruleset

  datatype SvcNft = SvcNft(id: ServiceId, withEndpoints: bool, withAffinity: bool, ruleID: seq<Handle>)

  datatype ServiceInfo = ServiceInfo(base: BaseInfo, nft: SvcNft)

  datatype EpRule = EpRule(ruleID: seq<Handle>, withAffinity: bool)

  /** The service map, the endpoints map, and the nftables record of every endpoint (which the
      program reaches through the endpoint itself, here through its chain). */
  datatype Books = Books(
    services: map<PortName, ServiceInfo>,
    endpoints: map<PortName, seq<Endpoint>>,
    epRules: map<Chain, EpRule>)

  function ServiceOf(si: ServiceInfo): Service {
    Service(si.base, si.nft.withAffinity)
  }

  function ServicesOf(svcs: map<PortName, ServiceInfo>): map<PortName, Service> {
    map n | n in svcs :: ServiceOf(svcs[n])
  }

  function VMaps(elems: map<Elem, Chain>): map<Elem, Chain> {
    map k | k in elems && k.set_ != NoEndpoints :: elems[k]
  }

  function ConfigOf(cluster: Cluster, b: Books, t: Tables): Config {
    Config(cluster, ServicesOf(b.services), b.endpoints, VMaps(t.elems))
  }

  function StickyOf(svcs: map<PortName, ServiceInfo>, n: PortName): Option<AffinityMap> {
    if n in svcs && svcs[n].nft.withAffinity then Some(MapOf(n, svcs[n].base)) else None
  }

  ghost predicate Owns(n: PortName, c: Chain) {
    match c
    case Static(_, _) => false
    case ServiceChain(_, id) => id.name == n
    case EndpointChain(_, m, _) => m == n
  }

  ghost predicate DistinctIds(es: seq<Endpoint>) {
    forall i, j :: 0 <= i < j < |es| ==> es[i].id != es[j].id
  }

  ghost predicate SameFamily(b: BaseInfo, es: seq<Endpoint>) {
    forall i :: 0 <= i < |es| ==> FamilyOf(es[i].id.ip) == TableFamily(b)
  }

  /** A service port's flags, its chain content and its handle slice. */
  ghost predicate ServiceSynced(n: PortName, si: ServiceInfo, es: seq<Endpoint>, t: Tables) {
    var c := ChainOf(n, si.base);
    && si.nft.id == IdOf(n, si.base)
    && (si.nft.withEndpoints <==> es != [])
    && c in t.chains
    && Rules(t.chains[c]) == ServiceRules(n, ServiceOf(si), es)
    && Handles(t.chains[c]) == si.nft.ruleID
    && (si.nft.withAffinity ==> MapOf(n, si.base) in t.maps)
    && SameFamily(si.base, es)
  }

  ghost predicate EndpointSynced(n: PortName, e: Endpoint, m: Option<AffinityMap>,
                                 epRules: map<Chain, EpRule>, t: Tables) {
    var c := EpChain(n, e);
    && c in t.chains && c in epRules
    && Rules(t.chains[c]) == EndpointRules(e, m)
    && Handles(t.chains[c]) == epRules[c].ruleID
    && (epRules[c].withAffinity <==> m.Some?)
  }

  ghost predicate EndpointsSynced(n: PortName, es: seq<Endpoint>, m: Option<AffinityMap>,
                                  epRules: map<Chain, EpRule>, t: Tables) {
    forall i :: 0 <= i < |es| ==> EndpointSynced(n, es[i], m, epRules, t)
  }

  ghost predicate Live(n: PortName, b: Books, c: Chain) {
    match c
    case Static(_, _) => true
    case ServiceChain(_, _) => n in b.services && c == ChainOf(n, b.services[n].base)
    case EndpointChain(_, _, _) => n in b.endpoints && c in EpChains(n, b.endpoints[n])
  }

  ghost predicate ServicePart(n: PortName, b: Books, t: Tables) {
    n in b.services ==> ServiceSynced(n, b.services[n], EpsOf(b.endpoints, n), t)
  }

  ghost predicate EndpointPart(n: PortName, b: Books, t: Tables) {
    n in b.endpoints ==>
      && b.endpoints[n] != []
      && DistinctIds(b.endpoints[n])
      && EndpointsSynced(n, b.endpoints[n], StickyOf(b.services, n), b.epRules, t)
  }

  /** No chain of the port is left over. */
  ghost predicate ChainPart(n: PortName, b: Books, t: Tables) {
    forall c :: c in t.chains && Owns(n, c) ==> Live(n, b, c)
  }

  ghost predicate RecordPart(n: PortName, b: Books, t: Tables) {
    forall c :: c in b.epRules && Owns(n, c) ==> c.EndpointChain? && c in t.chains
  }

  ghost predicate MapPart(n: PortName, b: Books, t: Tables) {
    forall m :: m in t.maps && m.id.name == n ==> StickyOf(b.services, n) == Some(m)
  }

  /** Everything the books and the tables say about one port name. */
  ghost predicate PortSynced(n: PortName, b: Books, t: Tables) {
    && ServicePart(n, b, t)
    && EndpointPart(n, b, t)
    && ChainPart(n, b, t)
    && RecordPart(n, b, t)
    && MapPart(n, b, t)
  }

  ghost predicate StaticSynced(cluster: Cluster, t: Tables) {
    forall f: Family, s: StaticChain ::
      Static(f, s) in t.chains && Rules(t.chains[Static(f, s)]) == StaticRules(f, cluster.For(f), s)
  }

  /** What the elements of each verdict map may point at. */
  ghost predicate TypedElem(k: Elem, c: Chain) {
    match k.set_
    case NoEndpoints => c == Static(k.family, K8sFilterDoReject)
    case MarkMasq => c == Static(k.family, K8sNatDoMarkMasq)
    case _ => c.ServiceChain? && c.family == k.family
  }

  ghost predicate TypedElems(elems: map<Elem, Chain>) {
    forall k :: k in elems ==> TypedElem(k, elems[k])
  }

  ghost predicate RejectsFor(n: PortName, b: Books, elems: map<Elem, Chain>) {
    n in b.services && EpsOf(b.endpoints, n) == [] ==> RejectKeys(b.services[n].base) <= elems.Keys
  }

  ghost predicate RejectOwner(n: PortName, b: Books, k: Elem) {
    n in b.services && EpsOf(b.endpoints, n) == [] && k in RejectKeys(b.services[n].base)
  }

  /** The no-endpoints set holds the keys of exactly the ports without endpoints. */
  ghost predicate RejectsSynced(b: Books, elems: map<Elem, Chain>) {
    && (forall n :: RejectsFor(n, b, elems))
    && (forall k :: k in elems && k.set_ == NoEndpoints ==> exists n :: RejectOwner(n, b, k))
  }

  ghost predicate Apart(svcs: map<PortName, ServiceInfo>) {
    forall n, m :: n in svcs && m in svcs && n != m ==> RejectKeys(svcs[n].base) !! RejectKeys(svcs[m].base)
  }

  ghost predicate Synced(cluster: Cluster, b: Books, t: Tables) {
    && Closed(t)
    && StaticSynced(cluster, t)
    && TypedElems(t.elems)
    && Apart(b.services)
    && RejectsSynced(b, t.elems)
    && (forall c :: c in b.epRules ==> c.EndpointChain?)
    && (forall n :: PortSynced(n, b, t))
  }

  lemma {:induction false} FindDistinct(es: seq<Endpoint>, i: nat)
    requires i < |es| && DistinctIds(es)
    ensures Find(es, es[i].id) == Some(es[i])
  {
    if i > 0 {
      FindDistinct(es[1..], i - 1);
    }
  }

  /** Convergence: whatever the history, a synced kernel is the from-scratch compilation. */
  lemma Converged(cluster: Cluster, b: Books, t: Tables)
    requires Synced(cluster, b, t)
    ensures ImageOf(t) == Compile(ConfigOf(cluster, b, t))
  {
    var cfg := ConfigOf(cluster, b, t);
    forall c | c in t.chains
      ensures c in LiveChains(cfg) && Rules(t.chains[c]) == RulesFor(cfg, c)
    {
      LiveAsCompiled(cluster, b, t, c);
    }
    forall c | c in LiveChains(cfg) ensures c in t.chains {
      LiveIsPresent(cluster, b, t, c);
    }
    ElemsAsCompiled(cluster, b, t);
    MapsAsCompiled(cluster, b, t);
    assert ImageOf(t).chains == Compile(cfg).chains;
  }

  lemma LiveAsCompiled(cluster: Cluster, b: Books, t: Tables, c: Chain)
    requires Synced(cluster, b, t) && c in t.chains
    ensures c in LiveChains(ConfigOf(cluster, b, t))
    ensures Rules(t.chains[c]) == RulesFor(ConfigOf(cluster, b, t), c)
  {
    match c
    case Static(f, s) =>
      assert StaticSynced(cluster, t);
      hide Synced, StaticRules;
    case ServiceChain(_, id) =>
      assert PortSynced(id.name, b, t);
      hide Synced;
      ServiceAsCompiled(cluster, b, t, c);
    case EndpointChain(_, n, id) =>
      assert PortSynced(n, b, t);
      hide Synced;
      EndpointAsCompiled(cluster, b, t, c);
  }

  lemma ServiceAsCompiled(cluster: Cluster, b: Books, t: Tables, c: Chain)
    requires c in t.chains && c.ServiceChain? && PortSynced(c.id.name, b, t)
    ensures c in LiveServiceChains(ConfigOf(cluster, b, t))
    ensures Rules(t.chains[c]) == RulesFor(ConfigOf(cluster, b, t), c)
  {
    hide EndpointPart, RecordPart, MapPart, ServiceRules;
    var cfg, n := ConfigOf(cluster, b, t), c.id.name;
    assert Owns(n, c) && Live(n, b, c);
    assert c == ChainOf(n, cfg.services[n].base);
  }

  lemma EndpointAsCompiled(cluster: Cluster, b: Books, t: Tables, c: Chain)
    requires c in t.chains && c.EndpointChain? && PortSynced(c.port, b, t)
    ensures c in LiveEndpointChains(ConfigOf(cluster, b, t))
    ensures Rules(t.chains[c]) == RulesFor(ConfigOf(cluster, b, t), c)
  {
    hide ServicePart, RecordPart, MapPart, EndpointRules;
    var cfg, n := ConfigOf(cluster, b, t), c.port;
    assert Owns(n, c) && Live(n, b, c);
    var es := b.endpoints[n];
    var i :| 0 <= i < |es| && EpChains(n, es)[i] == c;
    FindDistinct(es, i);
    assert EndpointSynced(n, es[i], StickyOf(b.services, n), b.epRules, t);
    assert EpChain(n, cfg.endpoints[n][i]) in LiveEndpointChains(cfg);
  }

  lemma LiveIsPresent(cluster: Cluster, b: Books, t: Tables, c: Chain)
    requires Synced(cluster, b, t) && c in LiveChains(ConfigOf(cluster, b, t))
    ensures c in t.chains
  {
    var cfg := ConfigOf(cluster, b, t);
    if c in LiveServiceChains(cfg) {
      var n :| n in cfg.services && c == ChainOf(n, cfg.services[n].base);
      assert PortSynced(n, b, t);
    } else if c in LiveEndpointChains(cfg) {
      var n, i :| n in cfg.endpoints && 0 <= i < |cfg.endpoints[n]| && c == EpChain(n, cfg.endpoints[n][i]);
      assert PortSynced(n, b, t);
      assert EndpointSynced(n, b.endpoints[n][i], StickyOf(b.services, n), b.epRules, t);
    }
  }

  lemma ElemsAsCompiled(cluster: Cluster, b: Books, t: Tables)
    requires Synced(cluster, b, t)
    ensures t.elems == VMaps(t.elems) + RejectMap(ConfigOf(cluster, b, t))
  {
    var rejects := RejectMap(ConfigOf(cluster, b, t));
    forall k
      ensures k in rejects <==> k in t.elems && k.set_ == NoEndpoints
      ensures k in rejects ==> rejects[k] == t.elems[k]
    {
      RejectAsCompiled(cluster, b, t, k);
    }
    SplitElems(t.elems, rejects);
  }

  lemma SplitElems(elems: map<Elem, Chain>, rejects: map<Elem, Chain>)
    requires forall k :: k in rejects <==> k in elems && k.set_ == NoEndpoints
    requires forall k :: k in rejects ==> rejects[k] == elems[k]
    ensures elems == VMaps(elems) + rejects
  {}

  lemma RejectAsCompiled(cluster: Cluster, b: Books, t: Tables, k: Elem)
    requires RejectsSynced(b, t.elems) && TypedElems(t.elems)
    ensures var rejects := RejectMap(ConfigOf(cluster, b, t));
            && (k in rejects <==> k in t.elems && k.set_ == NoEndpoints)
            && (k in rejects ==> rejects[k] == t.elems[k])
  {
    var cfg := ConfigOf(cluster, b, t);
    forall n ensures RejectOwner(n, b, k) <==>
      n in cfg.services && EpsOf(cfg.endpoints, n) == [] && k in RejectKeys(cfg.services[n].base) {}
    if n :| RejectOwner(n, b, k) {
      assert RejectsFor(n, b, t.elems);
      assert k.set_ == NoEndpoints;
    }
    if k in t.elems && k.set_ == NoEndpoints {
      assert TypedElem(k, t.elems[k]);
    }
  }

  lemma MapsAsCompiled(cluster: Cluster, b: Books, t: Tables)
    requires Synced(cluster, b, t)
    ensures t.maps == LiveMaps(ConfigOf(cluster, b, t))
  {
    var cfg := ConfigOf(cluster, b, t);
    forall m | m in t.maps ensures m in LiveMaps(cfg) {
      assert PortSynced(m.id.name, b, t);
      assert m.id.name in cfg.services && cfg.services[m.id.name].affinity;
    }
    forall m | m in LiveMaps(cfg) ensures m in t.maps {
      var n :| n in cfg.services && cfg.services[n].affinity && m == MapOf(n, cfg.services[n].base);
      assert PortSynced(n, b, t);
    }
  }

  /** A step on one port leaves the books and tables of every other port alone. */
  ghost predicate OthersKept(n: PortName, b0: Books, t0: Tables, b1: Books, t1: Tables) {
    && (forall m :: m != n ==>
          && (m in b1.services <==> m in b0.services)
          && (m in b0.services ==> b1.services[m] == b0.services[m])
          && (m in b1.endpoints <==> m in b0.endpoints)
          && (m in b0.endpoints ==> b1.endpoints[m] == b0.endpoints[m]))
    && (forall c :: !Owns(n, c) ==>
          && (c in t1.chains <==> c in t0.chains)
          && (c in t0.chains ==> t1.chains[c] == t0.chains[c])
          && (c in b1.epRules <==> c in b0.epRules)
          && (c in b0.epRules ==> b1.epRules[c] == b0.epRules[c]))
    && (forall a: AffinityMap :: a.id.name != n ==> (a in t1.maps <==> a in t0.maps))
  }

  lemma OtherPortKept(n: PortName, m: PortName, b0: Books, t0: Tables, b1: Books, t1: Tables)
    requires n != m && OthersKept(n, b0, t0, b1, t1) && PortSynced(m, b0, t0)
    ensures PortSynced(m, b1, t1)
  {
    if m in b0.services {
      assert !Owns(n, ChainOf(m, b0.services[m].base));
      assert MapOf(m, b0.services[m].base).id.name != n;
    }
    assert StickyOf(b1.services, m) == StickyOf(b0.services, m);
    if m in b1.endpoints {
      var es := b0.endpoints[m];
      forall i | 0 <= i < |es|
        ensures EndpointSynced(m, es[i], StickyOf(b1.services, m), b1.epRules, t1)
      {
        assert EndpointSynced(m, es[i], StickyOf(b0.services, m), b0.epRules, t0);
        assert !Owns(n, EpChain(m, es[i]));
      }
    }
    forall c | c in t1.chains && Owns(m, c) ensures Live(m, b1, c) {
      assert !Owns(n, c) && Live(m, b0, c);
    }
    forall c | c in b1.epRules && Owns(m, c) ensures c.EndpointChain? && c in t1.chains {
      assert !Owns(n, c);
    }
  }

  /** The frame rule: to re-establish the invariant, look at the port the step worked on. */
  lemma PortStep(cluster: Cluster, n: PortName, b0: Books, t0: Tables, b1: Books, t1: Tables)
    requires Synced(cluster, b0, t0)
    requires OthersKept(n, b0, t0, b1, t1)
    requires Closed(t1) && TypedElems(t1.elems) && Apart(b1.services)
    requires RejectsSynced(b1, t1.elems)
    requires forall c :: c in b1.epRules ==> c.EndpointChain?
    requires PortSynced(n, b1, t1)
    ensures Synced(cluster, b1, t1)
  {
    forall m ensures PortSynced(m, b1, t1) {
      if m != n {
        OtherPortKept(n, m, b0, t0, b1, t1);
      }
    }
    forall f: Family, s: StaticChain
      ensures Static(f, s) in t1.chains && Rules(t1.chains[Static(f, s)]) == StaticRules(f, cluster.For(f), s)
    {
      assert !Owns(n, Static(f, s));
    }
  }
}
