/** What each critical section does to the invariant, on values. */
module Steps {
  import opened Names
  import opened Netfilter
  import opened Ruleset
  import opened Mirror
  import opened Programming

  /** The no-endpoints set holds a port's keys if and only if the port has no endpoints. */
  lemma NoEndpointsAgree(n: PortName, b: Books, elems: map<Elem, Chain>, k: Elem)
    requires RejectsSynced(b, elems) && Apart(b.services)
    requires n in b.services && k in RejectKeys(b.services[n].base)
    ensures k in elems <==> EpsOf(b.endpoints, n) == []
  {
    assert RejectsFor(n, b, elems);
    if k in elems {
      assert k.set_ == NoEndpoints;
      var m :| RejectOwner(m, b, k);
      assert m == n;
    }
  }

  /** The same by fields: every address the port was created with, and no key left out. */
  lemma NoEndpointsAt(n: PortName, b: Books, elems: map<Elem, Chain>, a: Address)
    requires RejectsSynced(b, elems) && Apart(b.services) && n in b.services
    requires var x := b.services[n].base; a in [x.clusterIP] + x.externalIPs + x.loadBalancerIPs
    ensures var x := b.services[n].base;
            Elem(if x.clusterIP.Ip6? then IPv6 else IPv4, NoEndpoints, x.protocol, a, x.port) in elems
            <==> EpsOf(b.endpoints, n) == []
  {
    var x := b.services[n].base;
    var k := Elem(if x.clusterIP.Ip6? then IPv6 else IPv4, NoEndpoints, x.protocol, a, x.port);
    RejectKeysExactly(x, k);
    NoEndpointsAgree(n, b, elems, k);
  }

  /** When the step on port n rejects exactly n's keys if n ends up without endpoints, and
      touches no other key of the no-endpoints set, that set stays right. */
  lemma RejectsStep(n: PortName, b0: Books, e0: map<Elem, Chain>, b1: Books, e1: map<Elem, Chain>, keys: set<Elem>)
    requires RejectsSynced(b0, e0)
    requires forall m :: m != n ==>
               && (m in b1.services <==> m in b0.services)
               && (m in b0.services ==> b1.services[m].base == b0.services[m].base)
               && EpsOf(b1.endpoints, m) == EpsOf(b0.endpoints, m)
    requires n in b0.services ==> RejectKeys(b0.services[n].base) == keys
    requires n in b1.services ==> RejectKeys(b1.services[n].base) == keys
    requires forall m :: m in b0.services && m != n ==> RejectKeys(b0.services[m].base) !! keys
    requires forall k: Elem :: k.set_ == NoEndpoints ==>
               (k in e1 <==> if k in keys then n in b1.services && EpsOf(b1.endpoints, n) == [] else k in e0)
    ensures RejectsSynced(b1, e1)
  {
    forall m ensures RejectsFor(m, b1, e1) {
      if m != n {
        assert RejectsFor(m, b0, e0);
      }
      if m in b1.services && EpsOf(b1.endpoints, m) == [] {
        forall k | k in RejectKeys(b1.services[m].base) ensures k in e1 {
          assert k.set_ == NoEndpoints;
        }
      }
    }
    forall k | k in e1 && k.set_ == NoEndpoints ensures exists m :: RejectOwner(m, b1, k) {
      if k in keys {
        assert RejectOwner(n, b1, k);
      } else {
        var m :| RejectOwner(m, b0, k);
        assert m != n;
        assert RejectOwner(m, b1, k);
      }
    }
  }

  lemma StaticReferences(f: Family, cidr: Cidr, s: StaticChain, i: nat)
    requires i < |StaticRules(f, cidr, s)|
    ensures forall d :: d in Targets(StaticRules(f, cidr, s)[i]) ==> d.Static? && d.family == f
    ensures MapRefs(StaticRules(f, cidr, s)[i]) == {}
  {}

  lemma ServiceReferences(n: PortName, s: Service, es: seq<Endpoint>, i: nat)
    requires i < |ServiceRules(n, s, es)|
    ensures forall d :: d in Targets(ServiceRules(n, s, es)[i]) ==> d in EpChains(n, es)
    ensures forall m :: m in MapRefs(ServiceRules(n, s, es)[i]) ==> m == MapOf(n, s.base)
  {
    ActTargets(n, es);
  }

  lemma EndpointReferences(e: Endpoint, m: Option<AffinityMap>, i: nat)
    requires i < |EndpointRules(e, m)|
    ensures Targets(EndpointRules(e, m)[i]) == {}
    ensures forall a :: a in MapRefs(EndpointRules(e, m)[i]) ==> m == Some(a)
  {}

  /** Rules jump to static chains, or from a service chain to an endpoint chain of the same port,
      and only the chains of a port mention its affinity map. */
  lemma RuleReferences(cluster: Cluster, b: Books, t: Tables, c: Chain, i: nat)
    requires StaticSynced(cluster, t) && (forall n :: PortSynced(n, b, t))
    requires c in t.chains && i < |t.chains[c]|
    ensures forall d :: d in Targets(t.chains[c][i].rule) ==>
              d.Static? || (d.EndpointChain? && c.ServiceChain? && Owns(d.port, c))
    ensures forall m :: m in MapRefs(t.chains[c][i].rule) ==> Owns(m.id.name, c)
  {
    assert t.chains[c][i].rule == Rules(t.chains[c])[i];
    match c
    case Static(f, s) =>
      StaticReferences(f, cluster.For(f), s, i);
    case ServiceChain(_, id) =>
      assert PortSynced(id.name, b, t) && Owns(id.name, c);
      ServiceReferences(id.name, ServiceOf(b.services[id.name]), EpsOf(b.endpoints, id.name), i);
    case EndpointChain(_, n, id) =>
      assert PortSynced(n, b, t) && Owns(n, c);
      var j := EpChainIndex(n, b.endpoints[n], c);
      assert EndpointSynced(n, b.endpoints[n][j], StickyOf(b.services, n), b.epRules, t);
      EndpointReferences(b.endpoints[n][j], StickyOf(b.services, n), i);
  }

  function RemovedEp(es: seq<Endpoint>, i: nat): seq<Endpoint>
    requires i < |es|
  {
    es[..i] + es[i + 1..]
  }

  lemma EpChainIndex(n: PortName, es: seq<Endpoint>, c: Chain) returns (i: nat)
    requires c in EpChains(n, es)
    ensures i < |es| && c == EpChain(n, es[i])
  {
    i :| i < |es| && EpChains(n, es)[i] == c;
  }

  lemma RemovedChain(n: PortName, es: seq<Endpoint>, i: nat)
    requires i < |es| && DistinctIds(es)
    ensures EpChain(n, es[i]) !in EpChains(n, RemovedEp(es, i))
  {
    var rest := RemovedEp(es, i);
    forall j | 0 <= j < |rest| ensures EpChains(n, rest)[j] != EpChain(n, es[i]) {
      assert rest[j] == es[if j < i then j else j + 1];
    }
  }

  /** Once the service chain is reprogrammed without it, nothing refers to an endpoint's chain. */
  lemma EndpointUnreferenced(cluster: Cluster, b: Books, t0: Tables, t1: Tables, n: PortName, i: nat)
    requires Synced(cluster, b, t0) && n in b.endpoints && i < |b.endpoints[n]|
    requires TypedElems(t1.elems)
    requires EpChain(n, b.endpoints[n][i]) in t1.chains && t1.chains[EpChain(n, b.endpoints[n][i])] == []
    requires n in b.services ==>
               && ChainOf(n, b.services[n].base) in t1.chains
               && Rules(t1.chains[ChainOf(n, b.services[n].base)])
                  == ServiceRules(n, ServiceOf(b.services[n]), RemovedEp(b.endpoints[n], i))
    requires forall c :: c in t1.chains && c != EpChain(n, b.endpoints[n][i])
                         && !(n in b.services && c == ChainOf(n, b.services[n].base)) ==>
               c in t0.chains && t1.chains[c] == t0.chains[c]
    ensures ChainUnreferenced(t1, EpChain(n, b.endpoints[n][i]))
  {
    var es := b.endpoints[n];
    var gone := EpChain(n, es[i]);
    assert PortSynced(n, b, t0);
    forall d, j | d in t1.chains && 0 <= j < |t1.chains[d]| ensures gone !in Targets(t1.chains[d][j].rule) {
      if n in b.services && d == ChainOf(n, b.services[n].base) {
        assert t1.chains[d][j].rule == Rules(t1.chains[d])[j];
        RemovedChain(n, es, i);
        ServiceReferences(n, ServiceOf(b.services[n]), RemovedEp(es, i), j);
      } else {
        RuleReferences(cluster, b, t0, d, j);
        assert Owns(n, d) ==> Live(n, b, d);
      }
    }
    forall k | k in t1.elems ensures t1.elems[k] != gone {
      assert TypedElem(k, t1.elems[k]);
    }
  }

  /** The effect of adding endpoint e to port n: one new endpoint chain, and the port's service
      chain, if it exists, reprogrammed. */
  ghost predicate EndpointAdded(b0: Books, t0: Tables, b1: Books, t1: Tables, n: PortName, e: Endpoint) {
    var es := EpsOf(b0.endpoints, n);
    var c := EpChain(n, e);
    && (forall i :: 0 <= i < |es| ==> es[i].id != e.id)
    && t1.maps == t0.maps
    && b1.endpoints == b0.endpoints[n := es + [e]]
    && c in b1.epRules && b1.epRules == b0.epRules[c := b1.epRules[c]]
    && EndpointSynced(n, e, StickyOf(b0.services, n), b1.epRules, t1)
    && ServiceReprogrammed(b0, b1, t1, n, es + [e])
    && t1.chains.Keys == t0.chains.Keys + {c}
    && (forall d :: d in t0.chains && d != c && !IsServiceChainOf(b0, n, d) ==> t1.chains[d] == t0.chains[d])
    && t1.elems == if n in b0.services && es == [] then t0.elems - RejectKeys(b0.services[n].base) else t0.elems
  }

  ghost predicate IsServiceChainOf(b: Books, n: PortName, c: Chain) {
    n in b.services && c == ChainOf(n, b.services[n].base)
  }

  /** The service map changes at most in the bookkeeping of port n, which fits its endpoints. */
  ghost predicate ServiceReprogrammed(b0: Books, b1: Books, t1: Tables, n: PortName, es: seq<Endpoint>) {
    if n !in b0.services then b1.services == b0.services
    else
      && n in b1.services
      && b1.services == b0.services[n := b1.services[n]]
      && ServiceOf(b1.services[n]) == ServiceOf(b0.services[n])
      && ServiceSynced(n, b1.services[n], es, t1)
  }

  lemma EndpointAddedList(b0: Books, t0: Tables, b1: Books, t1: Tables, n: PortName, e: Endpoint)
    requires EndpointPart(n, b0, t0) && EndpointAdded(b0, t0, b1, t1, n, e)
    ensures EndpointPart(n, b1, t1)
  {
    var es := EpsOf(b0.endpoints, n);
    var m := StickyOf(b0.services, n);
    assert StickyOf(b1.services, n) == m;
    forall i | 0 <= i < |es| ensures EndpointSynced(n, es[i], m, b1.epRules, t1) {
      assert EndpointSynced(n, es[i], m, b0.epRules, t0);
      assert EpChain(n, es[i]) != EpChain(n, e);
    }
  }

  lemma EndpointAddedChains(b0: Books, t0: Tables, b1: Books, t1: Tables, n: PortName, e: Endpoint)
    requires ChainPart(n, b0, t0) && EndpointAdded(b0, t0, b1, t1, n, e)
    ensures ChainPart(n, b1, t1)
  {
    var es := EpsOf(b0.endpoints, n);
    assert EpChains(n, es + [e]) == EpChains(n, es) + [EpChain(n, e)];
    forall d | d in t1.chains && Owns(n, d) ensures Live(n, b1, d) {
      if d != EpChain(n, e) {
        assert Live(n, b0, d);
      }
    }
  }

  lemma EndpointAddedOthers(b0: Books, t0: Tables, b1: Books, t1: Tables, n: PortName, e: Endpoint)
    requires EndpointAdded(b0, t0, b1, t1, n, e)
    ensures OthersKept(n, b0, t0, b1, t1)
  {
    hide RejectKeys, EndpointSynced, ServiceSynced, TypedElems;
  }

  lemma EndpointAddedRejects(b0: Books, t0: Tables, b1: Books, t1: Tables, n: PortName, e: Endpoint)
    requires RejectsSynced(b0, t0.elems) && Apart(b0.services) && EndpointAdded(b0, t0, b1, t1, n, e)
    ensures RejectsSynced(b1, t1.elems)
  {
    var keys := if n in b0.services then RejectKeys(b0.services[n].base) else {};
    forall k | k in keys ensures k in t0.elems <==> EpsOf(b0.endpoints, n) == [] {
      NoEndpointsAgree(n, b0, t0.elems, k);
    }
    RejectsStep(n, b0, t0.elems, b1, t1.elems, keys);
  }

  lemma AddEndpointSynced(cluster: Cluster, b0: Books, t0: Tables, b1: Books, t1: Tables, n: PortName, e: Endpoint)
    requires Synced(cluster, b0, t0) && Closed(t1) && EndpointAdded(b0, t0, b1, t1, n, e)
    ensures Synced(cluster, b1, t1)
  {
    hide Closed, OthersKept, RejectKeys, EndpointSynced;
    assert PortSynced(n, b0, t0);
    EndpointAddedList(b0, t0, b1, t1, n, e);
    EndpointAddedChains(b0, t0, b1, t1, n, e);
    EndpointAddedOthers(b0, t0, b1, t1, n, e);
    EndpointAddedRejects(b0, t0, b1, t1, n, e);
    PortStep(cluster, n, b0, t0, b1, t1);
  }

  function WithList(eps: map<PortName, seq<Endpoint>>, n: PortName, es: seq<Endpoint>): map<PortName, seq<Endpoint>> {
    if es == [] then eps - {n} else eps[n := es]
  }

  /** The effect of deleting the i-th endpoint of port n. */
  ghost predicate EndpointDeleted(b0: Books, t0: Tables, b1: Books, t1: Tables, n: PortName, i: nat) {
    && n in b0.endpoints && i < |b0.endpoints[n]|
    && var rest := RemovedEp(b0.endpoints[n], i);
    var gone := EpChain(n, b0.endpoints[n][i]);
    && t1.maps == t0.maps
    && b1.endpoints == WithList(b0.endpoints, n, rest)
    && b1.epRules == b0.epRules - {gone}
    && ServiceReprogrammed(b0, b1, t1, n, rest)
    && t1.chains.Keys == t0.chains.Keys - {gone}
    && (forall d :: d in t1.chains && !IsServiceChainOf(b0, n, d) ==> t1.chains[d] == t0.chains[d])
    && TypedElems(t1.elems)
    && (forall k :: k in t1.elems <==>
          k in t0.elems || (n in b0.services && rest == [] && k in RejectKeys(b0.services[n].base)))
  }

  lemma EndpointDeletedList(b0: Books, t0: Tables, b1: Books, t1: Tables, n: PortName, i: nat)
    requires EndpointPart(n, b0, t0) && EndpointDeleted(b0, t0, b1, t1, n, i)
    ensures EndpointPart(n, b1, t1)
  {
    var es := b0.endpoints[n];
    var rest := RemovedEp(es, i);
    var m := StickyOf(b0.services, n);
    assert StickyOf(b1.services, n) == m;
    forall j | 0 <= j < |rest| ensures EndpointSynced(n, rest[j], m, b1.epRules, t1) {
      var x := if j < i then j else j + 1;
      assert rest[j] == es[x];
      assert EndpointSynced(n, es[x], m, b0.epRules, t0);
      assert EpChain(n, es[x]) != EpChain(n, es[i]);
    }
    forall j, k | 0 <= j < k < |rest| ensures rest[j].id != rest[k].id {
      assert rest[j] == es[if j < i then j else j + 1] && rest[k] == es[if k < i then k else k + 1];
    }
  }

  lemma EndpointDeletedChains(b0: Books, t0: Tables, b1: Books, t1: Tables, n: PortName, i: nat)
    requires ChainPart(n, b0, t0) && EndpointDeleted(b0, t0, b1, t1, n, i)
    ensures ChainPart(n, b1, t1)
  {
    var es := b0.endpoints[n];
    var rest := RemovedEp(es, i);
    forall d | d in t1.chains && Owns(n, d) ensures Live(n, b1, d) {
      assert Live(n, b0, d);
      if d.EndpointChain? {
        var x := EpChainIndex(n, es, d);
        assert EpChains(n, rest)[if x < i then x else x - 1] == d;
      }
    }
  }

  lemma EndpointDeletedOthers(b0: Books, t0: Tables, b1: Books, t1: Tables, n: PortName, i: nat)
    requires EndpointDeleted(b0, t0, b1, t1, n, i)
    ensures OthersKept(n, b0, t0, b1, t1)
  {}

  lemma EndpointDeletedRejects(b0: Books, t0: Tables, b1: Books, t1: Tables, n: PortName, i: nat)
    requires RejectsSynced(b0, t0.elems) && Apart(b0.services) && EndpointDeleted(b0, t0, b1, t1, n, i)
    ensures RejectsSynced(b1, t1.elems)
  {
    var keys := if n in b0.services then RejectKeys(b0.services[n].base) else {};
    forall k | k in keys ensures k !in t0.elems {
      NoEndpointsAgree(n, b0, t0.elems, k);
    }
    RejectsStep(n, b0, t0.elems, b1, t1.elems, keys);
  }

  lemma DeleteEndpointSynced(cluster: Cluster, b0: Books, t0: Tables, b1: Books, t1: Tables, n: PortName, i: nat)
    requires Synced(cluster, b0, t0) && Closed(t1) && EndpointDeleted(b0, t0, b1, t1, n, i)
    ensures Synced(cluster, b1, t1)
  {
    hide Closed, OthersKept, RejectKeys, EndpointSynced;
    assert PortSynced(n, b0, t0);
    EndpointDeletedList(b0, t0, b1, t1, n, i);
    EndpointDeletedChains(b0, t0, b1, t1, n, i);
    EndpointDeletedOthers(b0, t0, b1, t1, n, i);
    EndpointDeletedRejects(b0, t0, b1, t1, n, i);
    PortStep(cluster, n, b0, t0, b1, t1);
  }

  /** The effect of any step of the service thread on port n: the service map and the tables change
      for n only, and what they hold for n afterwards fits n's endpoint list. */
  ghost predicate ServiceStep(b0: Books, t0: Tables, b1: Books, t1: Tables, n: PortName) {
    var es := EpsOf(b0.endpoints, n);
    && b1.endpoints == b0.endpoints
    && (forall m :: m != n ==>
          && (m in b1.services <==> m in b0.services)
          && (m in b0.services ==> b1.services[m] == b0.services[m]))
    && ServicePart(n, b1, t1)
    && EndpointsSynced(n, es, StickyOf(b1.services, n), b1.epRules, t1)
    && b1.epRules.Keys == b0.epRules.Keys
    && (forall d :: d in b0.epRules && d !in EpChains(n, es) ==> b1.epRules[d] == b0.epRules[d])
    && (forall d :: d in t1.chains <==> if d.ServiceChain? && Owns(n, d) then IsServiceChainOf(b1, n, d) else d in t0.chains)
    && (forall d :: d in t0.chains && !(d.ServiceChain? && Owns(n, d)) && d !in EpChains(n, es) ==>
          t1.chains[d] == t0.chains[d])
    && (forall m: AffinityMap :: m in t1.maps <==>
          if m.id.name == n then StickyOf(b1.services, n) == Some(m) else m in t0.maps)
  }

  /** The effect of a step of the service thread on the no-endpoints set. */
  ghost predicate ServiceRejects(b0: Books, e0: map<Elem, Chain>, b1: Books, e1: map<Elem, Chain>,
                                 n: PortName, base: BaseInfo) {
    && (n in b0.services ==> b0.services[n].base == base)
    && (n in b1.services ==> b1.services[n].base == base)
    && (forall m :: m in b0.services && m != n ==> RejectKeys(b0.services[m].base) !! RejectKeys(base))
    && (forall k: Elem :: k.set_ == NoEndpoints ==>
          (k in e1 <==> if k in RejectKeys(base) then n in b1.services && EpsOf(b1.endpoints, n) == [] else k in e0))
  }

  lemma ServiceStepPort(b0: Books, t0: Tables, b1: Books, t1: Tables, n: PortName)
    requires PortSynced(n, b0, t0) && ServiceStep(b0, t0, b1, t1, n)
    ensures PortSynced(n, b1, t1)
  {
    forall d | d in t1.chains && Owns(n, d) ensures Live(n, b1, d) {
      if d.EndpointChain? {
        assert Live(n, b0, d);
      }
    }
  }

  lemma ServiceStepOthers(b0: Books, t0: Tables, b1: Books, t1: Tables, n: PortName)
    requires ServiceStep(b0, t0, b1, t1, n)
    ensures OthersKept(n, b0, t0, b1, t1)
  {
    var es := EpsOf(b0.endpoints, n);
    forall c | c in EpChains(n, es) ensures Owns(n, c) {
      var i := EpChainIndex(n, es, c);
    }
  }

  lemma ServiceStepSynced(cluster: Cluster, b0: Books, t0: Tables, b1: Books, t1: Tables, n: PortName, base: BaseInfo)
    requires Synced(cluster, b0, t0) && Closed(t1) && TypedElems(t1.elems)
    requires ServiceStep(b0, t0, b1, t1, n)
    requires ServiceRejects(b0, t0.elems, b1, t1.elems, n, base)
    ensures Synced(cluster, b1, t1)
  {
    assert PortSynced(n, b0, t0);
    ServiceStepPort(b0, t0, b1, t1, n);
    ServiceStepOthers(b0, t0, b1, t1, n);
    RejectsStep(n, b0, t0.elems, b1, t1.elems, RejectKeys(base));
    PortStep(cluster, n, b0, t0, b1, t1);
  }

  /** After a service port's rules are drained, or reprogrammed without affinity, no rule jumps to
      its chain and no rule mentions its affinity map. */
  lemma DrainedReferences(cluster: Cluster, b: Books, t0: Tables, epRules: map<Chain, EpRule>, t1: Tables,
                          n: PortName, left: seq<Endpoint>, d: Chain, j: nat)
    requires Synced(cluster, b, t0) && n in b.services
    requires ChainOf(n, b.services[n].base) in t1.chains
    requires Rules(t1.chains[ChainOf(n, b.services[n].base)])
             == ServiceRules(n, Service(b.services[n].base, false), left)
    requires EndpointsSynced(n, EpsOf(b.endpoints, n), None, epRules, t1)
    requires forall c :: c in t1.chains && !IsServiceChainOf(b, n, c) && c !in EpChains(n, EpsOf(b.endpoints, n)) ==>
               c in t0.chains && t1.chains[c] == t0.chains[c]
    requires d in t1.chains && j < |t1.chains[d]|
    ensures forall c :: c in Targets(t1.chains[d][j].rule) ==> !c.ServiceChain?
    ensures MapOf(n, b.services[n].base) !in MapRefs(t1.chains[d][j].rule)
  {
    var es := EpsOf(b.endpoints, n);
    assert t1.chains[d][j].rule == Rules(t1.chains[d])[j];
    if IsServiceChainOf(b, n, d) {
      ServiceReferences(n, Service(b.services[n].base, false), left, j);
      forall c | c in EpChains(n, left) ensures !c.ServiceChain? {
        var i := EpChainIndex(n, left, c);
      }
    } else if d in EpChains(n, es) {
      var i := EpChainIndex(n, es, d);
      assert EndpointSynced(n, es[i], None, epRules, t1);
      EndpointReferences(es[i], None, j);
    } else {
      RuleReferences(cluster, b, t0, d, j);
      assert PortSynced(n, b, t0);
      assert Owns(n, d) ==> Live(n, b, d);
    }
  }
}
