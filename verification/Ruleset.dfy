/** The ruleset that a given set of services and endpoints calls for, compiled from scratch.
    The program never computes this; it is what its incremental edits are measured against. */
module Ruleset {
  import opened Names
  import opened Netfilter

  const MASQ_MARK: nat := 0x4000
  const DROP_MARK: nat := 0x8000

  /** What the proxy records about a service port when it is created. */
  datatype BaseInfo = BaseInfo(
    service: NamespacedName,
    ipFamily: Family,
    clusterIP: Address,
    port: Port,
    protocol: Protocol,
    nodePort: Port,
    externalIPs: seq<Address>,
    loadBalancerIPs: seq<Address>)

  datatype Service = Service(base: BaseInfo, affinity: bool)

  datatype Cluster = Cluster(v4: Cidr, v6: Cidr) {
    function For(f: Family): Cidr {
      if f == IPv6 then v6 else v4
    }
  }

  /** All the state that decides the ruleset.  `vmaps` holds the elements of every verdict map
      except no-endpoints, whose content follows from services and endpoints. */
  datatype Config = Config(
    cluster: Cluster,
    services: map<PortName, Service>,
    endpoints: map<PortName, seq<Endpoint>>,
    vmaps: map<Elem, Chain>)

  /** Kernel state up to rule handles. */
  datatype Image = Image(chains: map<Chain, seq<Rule>>, elems: map<Elem, Chain>, maps: set<AffinityMap>)

  function ImageOf(t: Tables): Image {
    Image(map c | c in t.chains :: Rules(t.chains[c]), t.elems, t.maps)
  }

  function TableFamily(b: BaseInfo): Family {
    FamilyOf(b.clusterIP)
  }

  function IdOf(n: PortName, b: BaseInfo): ServiceId {
    ServiceId(n, b.protocol, b.ipFamily, b.clusterIP, b.port)
  }

  function ChainOf(n: PortName, b: BaseInfo): Chain {
    ServiceChain(TableFamily(b), IdOf(n, b))
  }

  function MapOf(n: PortName, b: BaseInfo): AffinityMap {
    AffinityMap(TableFamily(b), IdOf(n, b))
  }

  function EpChain(n: PortName, e: Endpoint): Chain {
    EndpointChain(FamilyOf(e.id.ip), n, e.id)
  }

  function EpChains(n: PortName, es: seq<Endpoint>): (cs: seq<Chain>)
    ensures |cs| == |es|
  {
    seq(|es|, i requires 0 <= i < |es| => EpChain(n, es[i]))
  }

  function EpsOf(eps: map<PortName, seq<Endpoint>>, n: PortName): seq<Endpoint> {
    if n in eps then eps[n] else []
  }

  /** Affinity index to endpoint chain; a later endpoint with the same index wins. */
  function ActOf(n: PortName, es: seq<Endpoint>): map<nat, Chain> {
    if es == [] then map[] else
      var last := es[|es| - 1];
      ActOf(n, es[..|es| - 1])[last.index := EpChain(n, last)]
  }

  const CounterRule := Rule([], Count)

  function StickyRule(m: AffinityMap, n: PortName, es: seq<Endpoint>): Rule {
    Rule([], Sticky(m, ActOf(n, es)))
  }

  function BalanceRule(n: PortName, es: seq<Endpoint>): Rule {
    Rule([], Balance(EpChains(n, es)))
  }

  function ServiceRules(n: PortName, s: Service, es: seq<Endpoint>): seq<Rule> {
    if es == [] then []
    else if s.affinity then [CounterRule, StickyRule(MapOf(n, s.base), n, es), BalanceRule(n, es)]
    else [CounterRule, BalanceRule(n, es)]
  }

  function TouchRule(m: AffinityMap, index: nat): Rule {
    Rule([], Touch(m, index))
  }

  function DnatRules(id: EndpointId): seq<Rule> {
    [CounterRule, Rule([SrcIs(id.ip)], SetMark(MASQ_MARK)), Rule([], Dnat(id.ip, id.port))]
  }

  function EndpointRules(e: Endpoint, m: Option<AffinityMap>): seq<Rule> {
    match m
    case None => DnatRules(e.id)
    case Some(am) => [TouchRule(am, e.index)] + DnatRules(e.id)
  }

  /** The affinity map that the endpoints of a port refresh, if any. */
  function StickyMap(svcs: map<PortName, Service>, n: PortName): Option<AffinityMap> {
    if n in svcs && svcs[n].affinity then Some(MapOf(n, svcs[n].base)) else None
  }

  function JumpTo(f: Family, c: StaticChain): Action {
    Jump(Static(f, c))
  }

  function StaticRules(f: Family, cidr: Cidr, c: StaticChain): seq<Rule> {
    match c
    case NatPrerouting => [CounterRule, Rule([], JumpTo(f, K8sNatServices))]
    case NatOutput => [CounterRule, Rule([], JumpTo(f, K8sNatServices))]
    case NatPostrouting => [CounterRule, Rule([], JumpTo(f, K8sNatPostrouting))]
    case K8sNatMarkDrop => [CounterRule, Rule([], SetMark(DROP_MARK))]
    case K8sNatDoMasquerade => [CounterRule, Rule([], Masquerade)]
    case K8sNatPostrouting =>
      [ CounterRule,
        Rule([SrcNotIn(cidr)], JumpTo(f, K8sNatDoMasquerade)),
        Rule([MarkIs(MASQ_MARK)], JumpTo(f, K8sNatDoMasquerade))]
    case K8sNatServices =>
      [ CounterRule,
        Rule([SrcNotIn(cidr)], JumpTo(f, K8sNatMarkMasq)),
        Rule([], Lookup(ClusterIP)),
        Rule([], Lookup(ExternalIP)),
        Rule([], Lookup(LoadbalancerIP)),
        Rule([DstLocal], JumpTo(f, K8sNatNodeports))]
    case K8sNatNodeports => [CounterRule, Rule([], Lookup(Nodeports))]
    case K8sNatDoMarkMasq => [CounterRule, Rule([], SetMarkAndReturn(MASQ_MARK))]
    case K8sNatMarkMasq => [CounterRule, Rule([], Lookup(MarkMasq)), Rule([], Return)]
    case FilterInput =>
      [ CounterRule,
        Rule([CtIn({New})], JumpTo(f, K8sFilterServices)),
        Rule([], JumpTo(f, K8sFilterFirewall))]
    case FilterForward =>
      [ CounterRule,
        Rule([], JumpTo(f, K8sFilterForward)),
        Rule([CtIn({New})], JumpTo(f, K8sFilterServices))]
    case FilterOutput =>
      [ CounterRule,
        Rule([CtIn({New})], JumpTo(f, K8sFilterServices)),
        Rule([], JumpTo(f, K8sFilterFirewall))]
    case K8sFilterFirewall => [CounterRule, Rule([MarkIs(DROP_MARK)], Drop)]
    case K8sFilterForward =>
      [ CounterRule,
        Rule([CtIn({Invalid})], Drop),
        Rule([MarkIs(MASQ_MARK)], Accept),
        Rule([SrcIn(cidr), CtIn({Related, Established})], Accept),
        Rule([DstIn(cidr), CtIn({Related, Established})], Accept)]
    case K8sFilterDoReject => [CounterRule, Rule([], Reject)]
    case K8sFilterServices => [CounterRule, Rule([], Lookup(NoEndpoints))]
  }

  function StaticChains(): set<Chain> {
    set f: Family, c: StaticChain :: Static(f, c)
  }

  function LiveServiceChains(cfg: Config): set<Chain> {
    set n | n in cfg.services :: ChainOf(n, cfg.services[n].base)
  }

  function LiveEndpointChains(cfg: Config): set<Chain> {
    set n, i | n in cfg.endpoints && 0 <= i < |cfg.endpoints[n]| :: EpChain(n, cfg.endpoints[n][i])
  }

  function LiveChains(cfg: Config): set<Chain> {
    StaticChains() + LiveServiceChains(cfg) + LiveEndpointChains(cfg)
  }

  function Find(es: seq<Endpoint>, id: EndpointId): Option<Endpoint> {
    if es == [] then None
    else if es[0].id == id then Some(es[0])
    else Find(es[1..], id)
  }

  function RulesFor(cfg: Config, c: Chain): seq<Rule> {
    match c
    case Static(f, s) => StaticRules(f, cfg.cluster.For(f), s)
    case ServiceChain(_, id) =>
      if id.name in cfg.services
      then ServiceRules(id.name, cfg.services[id.name], EpsOf(cfg.endpoints, id.name))
      else []
    case EndpointChain(_, n, id) =>
      match Find(EpsOf(cfg.endpoints, n), id)
      case None => []
      case Some(e) => EndpointRules(e, StickyMap(cfg.services, n))
  }

  function AddrKey(b: BaseInfo, s: SetName, a: Address): Elem {
    Elem(TableFamily(b), s, b.protocol, a, b.port)
  }

  /** The elements of a port in one verdict map, one per address. */
  function AddrKeys(b: BaseInfo, s: SetName, addrs: seq<Address>): set<Elem> {
    set a | a in addrs :: AddrKey(b, s, a)
  }

  /** The keys under which a service port is rejected while it has no endpoints. */
  function RejectKeys(b: BaseInfo): set<Elem> {
    AddrKeys(b, NoEndpoints, [b.clusterIP])
    + AddrKeys(b, NoEndpoints, b.externalIPs) + AddrKeys(b, NoEndpoints, b.loadBalancerIPs)
  }

  /** Field by field: all the addresses a port was created with, under its protocol and number. */
  lemma RejectKeysExactly(b: BaseInfo, k: Elem)
    ensures k in RejectKeys(b) <==>
              && k.set_ == NoEndpoints && k.family == (if b.clusterIP.Ip6? then IPv6 else IPv4)
              && k.protocol == b.protocol && k.port == b.port
              && k.addr in [b.clusterIP] + b.externalIPs + b.loadBalancerIPs
  {
    assert k == AddrKey(b, NoEndpoints, k.addr) <==>
        k.set_ == NoEndpoints && k.family == TableFamily(b) && k.protocol == b.protocol && k.port == b.port;
  }

  function RejectMap(cfg: Config): map<Elem, Chain> {
    map n, k | n in cfg.services && EpsOf(cfg.endpoints, n) == [] && k in RejectKeys(cfg.services[n].base) ::
      k := Static(k.family, K8sFilterDoReject)
  }

  function LiveMaps(cfg: Config): set<AffinityMap> {
    set n | n in cfg.services && cfg.services[n].affinity :: MapOf(n, cfg.services[n].base)
  }

  function Compile(cfg: Config): Image {
    Image(map c | c in LiveChains(cfg) :: RulesFor(cfg, c), cfg.vmaps + RejectMap(cfg), LiveMaps(cfg))
  }

  function InitialConfig(cluster: Cluster): Config {
    Config(cluster, map[], map[], map[])
  }
}
