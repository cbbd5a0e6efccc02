/** Initialisation: the static chains and rules of both tables. */
module Setup {
  import opened Names
  import opened Netfilter
  import opened Ruleset
  import opened Programming
  import opened Steps

  /** The order in which the chains are created. */
  const CHAINS: seq<StaticChain> :=
    [ FilterInput, FilterOutput, FilterForward,
      K8sFilterFirewall, K8sFilterServices, K8sFilterForward, K8sFilterDoReject,
      NatPrerouting, NatOutput, NatPostrouting,
      K8sNatMarkDrop, K8sNatDoMarkMasq, K8sNatMarkMasq, K8sNatDoMasquerade,
      K8sNatServices, K8sNatNodeports, K8sNatPostrouting ]

  /** The order in which they are filled: filter rules, the no-endpoints lookup, NAT rules. */
  const PROGRAM: seq<StaticChain> :=
    [ FilterInput, FilterForward, FilterOutput, K8sFilterFirewall, K8sFilterForward, K8sFilterDoReject,
      K8sFilterServices,
      NatPrerouting, NatOutput, NatPostrouting, K8sNatMarkDrop, K8sNatDoMasquerade, K8sNatPostrouting,
      K8sNatServices, K8sNatNodeports, K8sNatDoMarkMasq, K8sNatMarkMasq ]

  lemma EveryChainListed(s: StaticChain)
    ensures s in CHAINS && s in PROGRAM
  {}

  lemma FilledOnce(i: nat, j: nat)
    requires i < j < |PROGRAM|
    ensures PROGRAM[i] != PROGRAM[j]
  {}

  ghost predicate OtherFamilyKept(f: Family, t0: Tables, t1: Tables) {
    && t1.elems == t0.elems && t1.maps == t0.maps
    && (forall c: Chain :: !(c.Static? && c.family == f) ==>
          (c in t1.chains <==> c in t0.chains) && (c in t0.chains ==> t1.chains[c] == t0.chains[c]))
  }

  method SetupChains(k: Kernel, f: Family)
    requires k.Valid() && forall s: StaticChain :: Static(f, s) !in k.tables.chains
    modifies k
    ensures k.Valid() && old(k.history) <= k.history && OtherFamilyKept(f, old(k.tables), k.tables)
    ensures forall s: StaticChain :: Static(f, s) in k.tables.chains && k.tables.chains[Static(f, s)] == []
  {
    for i := 0 to |CHAINS|
      invariant k.Valid() && old(k.history) <= k.history && OtherFamilyKept(f, old(k.tables), k.tables)
      invariant forall s: StaticChain :: Static(f, s) in k.tables.chains <==> s in CHAINS[..i]
      invariant forall s: StaticChain :: Static(f, s) in k.tables.chains ==> k.tables.chains[Static(f, s)] == []
    {
      k.CreateChain(Static(f, CHAINS[i]));
      assert CHAINS[..i + 1] == CHAINS[..i] + [CHAINS[i]];
    }
    assert CHAINS[..|CHAINS|] == CHAINS;
    forall s: StaticChain ensures s in CHAINS { EveryChainListed(s); }
  }

  method SetupRules(k: Kernel, f: Family, cidr: Cidr)
    requires k.Valid()
    requires forall s: StaticChain :: Static(f, s) in k.tables.chains && k.tables.chains[Static(f, s)] == []
    modifies k
    ensures k.Valid() && old(k.history) <= k.history && OtherFamilyKept(f, old(k.tables), k.tables)
    ensures forall s: StaticChain ::
              Static(f, s) in k.tables.chains && Rules(k.tables.chains[Static(f, s)]) == StaticRules(f, cidr, s)
  {
    for i := 0 to |PROGRAM|
      invariant k.Valid() && old(k.history) <= k.history && OtherFamilyKept(f, old(k.tables), k.tables)
      invariant forall s: StaticChain :: Static(f, s) in k.tables.chains
      invariant forall j :: 0 <= j < i ==> Rules(k.tables.chains[Static(f, PROGRAM[j])]) == StaticRules(f, cidr, PROGRAM[j])
      invariant forall j :: i <= j < |PROGRAM| ==> k.tables.chains[Static(f, PROGRAM[j])] == []
    {
      var s := PROGRAM[i];
      var rules := StaticRules(f, cidr, s);
      StaticResolve(k.tables, f, cidr, s);
      var ids := ProgramChainRules(k, Static(f, s), rules, 0);
      assert k.tables.chains[Static(f, s)] == Zip(ids, rules);
      assert Rules(Zip(ids, rules)) == rules;
      forall j | 0 <= j < |PROGRAM| && j != i ensures PROGRAM[j] != s {
        FilledOnce(if i < j then i else j, if i < j then j else i);
      }
    }
    forall s: StaticChain ensures Rules(k.tables.chains[Static(f, s)]) == StaticRules(f, cidr, s) {
      EveryChainListed(s);
      var j :| 0 <= j < |PROGRAM| && PROGRAM[j] == s;
    }
  }

  lemma StaticResolve(t: Tables, f: Family, cidr: Cidr, s: StaticChain)
    requires forall x: StaticChain :: Static(f, x) in t.chains
    ensures forall i :: 0 <= i < |StaticRules(f, cidr, s)| ==> Resolves(t, StaticRules(f, cidr, s)[i])
  {
    forall i | 0 <= i < |StaticRules(f, cidr, s)| ensures Resolves(t, StaticRules(f, cidr, s)[i]) {
      StaticReferences(f, cidr, s, i);
      forall d | d in Targets(StaticRules(f, cidr, s)[i]) ensures d in t.chains {
        assert d == Static(f, d.base);
      }
    }
  }

  /** Both tables, set up from nothing, hold the compilation of a cluster without services. */
  method InitTables(cluster: Cluster) returns (k: Kernel)
    ensures fresh(k) && k.Valid()
    ensures ImageOf(k.tables) == Compile(InitialConfig(cluster))
  {
    k := new Kernel();
    SetupChains(k, IPv4);
    SetupRules(k, IPv4, cluster.v4);
    SetupChains(k, IPv6);
    SetupRules(k, IPv6, cluster.v6);
    InitialImage(cluster, k.tables);
  }

  lemma InitialImage(cluster: Cluster, t: Tables)
    requires t.elems == map[] && t.maps == {}
    requires forall c :: c in t.chains ==> c.Static?
    requires forall s: StaticChain ::
               Static(IPv4, s) in t.chains && Rules(t.chains[Static(IPv4, s)]) == StaticRules(IPv4, cluster.v4, s)
    requires forall s: StaticChain ::
               Static(IPv6, s) in t.chains && Rules(t.chains[Static(IPv6, s)]) == StaticRules(IPv6, cluster.v6, s)
    ensures ImageOf(t) == Compile(InitialConfig(cluster))
  {
    var cfg := InitialConfig(cluster);
    assert RejectMap(cfg) == map[] && LiveMaps(cfg) == {};
    assert LiveServiceChains(cfg) == {} && LiveEndpointChains(cfg) == {};
    forall c: Chain ensures c in t.chains <==> c in LiveChains(cfg) {
      if c.Static? {
        assert c == Static(c.family, c.base) && Static(c.family, c.base) in StaticChains();
        assert c.family == IPv4 || c.family == IPv6;
      }
    }
    forall c | c in t.chains ensures Rules(t.chains[c]) == RulesFor(cfg, c) {
      assert c == Static(c.family, c.base);
    }
  }
}
