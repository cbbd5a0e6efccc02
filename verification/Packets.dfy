/** What the ruleset does to packets: an evaluator for chains, and what it yields on synced tables. */
module Packets {
  import opened Names
  import opened Netfilter
  import opened Ruleset
  import opened Mirror
  import opened Programming
  import opened Steps

  /** `local` is the routing decision for the destination; `pick` is the random number that the
      load balancer draws. */
  datatype Packet = Packet(
    family: Family,
    protocol: Protocol,
    src: Address,
    dst: Address,
    port: Port,
    local: bool,
    ct: CtState,
    pick: nat)

  /** The packet mark and the content of the affinity maps. */
  datatype State = State(mark: nat, affinity: map<(AffinityMap, Address), nat>)

  datatype Verdict = Pass | Redirect(addr: Address, port: Port) | Masqueraded | Dropped | Accepted | Rejected

  datatype Outcome = Outcome(state: State, verdict: Verdict)

  function Bits(a: Address): nat {
    match a
    case NoAddress => 0
    case Ip4(n) => n
    case Ip6(n) => n
  }

  predicate InCidr(a: Address, c: Cidr) {
    FamilyOf(a) == c.family && c.first <= Bits(a) < c.first + c.size
  }

  predicate Holds(g: Guard, p: Packet, st: State) {
    match g
    case SrcIs(a) => p.src == a
    case SrcIn(c) => InCidr(p.src, c)
    case SrcNotIn(c) => !InCidr(p.src, c)
    case DstIn(c) => InCidr(p.dst, c)
    case DstLocal => p.local
    case MarkIs(m) => st.mark == m
    case CtIn(states) => p.ct in states
  }

  predicate AllHold(gs: seq<Guard>, p: Packet, st: State) {
    forall i :: 0 <= i < |gs| ==> Holds(gs[i], p, st)
  }

  function KeyOf(p: Packet, s: SetName): Elem {
    Elem(p.family, s, p.protocol, if s == Nodeports then NoAddress else p.dst, p.port)
  }

  /** Jumps only ever go down in rank. */
  function Rank(c: Chain): nat {
    match c
    case EndpointChain(_, _, _) => 0
    case ServiceChain(_, _) => 1
    case Static(_, s) =>
      match s
      case K8sNatMarkDrop => 0
      case K8sNatDoMarkMasq => 0
      case K8sNatDoMasquerade => 0
      case K8sFilterFirewall => 0
      case K8sFilterForward => 0
      case K8sFilterDoReject => 0
      case K8sNatMarkMasq => 1
      case K8sNatPostrouting => 1
      case K8sFilterServices => 1
      case K8sNatNodeports => 2
      case K8sNatServices => 3
      case _ => 4
  }

  ghost predicate Below(img: Image, c: Chain, d: Chain) {
    d in img.chains && d.family == c.family && Rank(d) < Rank(c)
  }

  ghost predicate RankedRule(img: Image, c: Chain, r: Rule) {
    && (forall d :: d in Targets(r) ==> Below(img, c, d))
    && (r.action.Lookup? ==>
          forall k :: k in img.elems && k.set_ == r.action.vmap && k.family == c.family ==> Below(img, c, img.elems[k]))
  }

  ghost predicate Ranked(img: Image) {
    forall c, i :: c in img.chains && 0 <= i < |img.chains[c]| ==> RankedRule(img, c, img.chains[c][i])
  }

  /** What one rule does to a packet. */
  datatype Effect = Next(state: State) | Leave(state: State) | Decide(verdict: Verdict) | Call(chain: Chain)

  function Fire(img: Image, r: Rule, p: Packet, st: State): Effect {
    if !AllHold(r.guards, p, st) then Next(st) else
    match r.action
    case Count => Next(st)
    case SetMark(v) => Next(st.(mark := v))
    case SetMarkAndReturn(v) => Leave(st.(mark := v))
    case Jump(d) => Call(d)
    case Lookup(s) => if KeyOf(p, s) in img.elems then Call(img.elems[KeyOf(p, s)]) else Next(st)
    case Return => Leave(st)
    case Dnat(a, port) => Decide(Redirect(a, port))
    case Masquerade => Decide(Masqueraded)
    case Drop => Decide(Dropped)
    case Accept => Decide(Accepted)
    case Reject => Decide(Rejected)
    case Touch(m, x) => Next(st.(affinity := st.affinity[(m, p.src) := x]))
    case Sticky(m, act) =>
      if (m, p.src) in st.affinity && st.affinity[(m, p.src)] in act
      then Call(act[st.affinity[(m, p.src)]]) else Next(st)
    case Balance(ds) => if ds == [] then Next(st) else Call(ds[p.pick % |ds|])
  }

  lemma CallsGoDown(img: Image, c: Chain, r: Rule, p: Packet, st: State)
    requires RankedRule(img, c, r) && p.family == c.family && Fire(img, r, p, st).Call?
    ensures Below(img, c, Fire(img, r, p, st).chain)
  {
    var d := Fire(img, r, p, st).chain;
    if !r.action.Lookup? {
      assert d in Targets(r);
    }
  }

  /** Evaluates a chain from rule i on.  `Pass` means the chain was left without a final verdict;
      a chain that was called and left resumes at the next rule of its caller. */
  ghost function Eval(img: Image, c: Chain, i: nat, p: Packet, st: State): Outcome
    requires Ranked(img) && c in img.chains && i <= |img.chains[c]| && p.family == c.family
    decreases Rank(c), |img.chains[c]| - i
  {
    if i == |img.chains[c]| then Outcome(st, Pass) else
    match Fire(img, img.chains[c][i], p, st)
    case Next(st') => Eval(img, c, i + 1, p, st')
    case Leave(st') => Outcome(st', Pass)
    case Decide(v) => Outcome(st, v)
    case Call(d) =>
      assert RankedRule(img, c, img.chains[c][i]);
      CallsGoDown(img, c, img.chains[c][i], p, st);
      var o := Eval(img, d, 0, p, st);
      if o.verdict == Pass then Eval(img, c, i + 1, p, o.state) else o
  }

  /** Evaluation is defined, hence ends, for every packet in every synced state. */
  lemma SyncedRanked(cluster: Cluster, b: Books, t: Tables)
    requires Synced(cluster, b, t)
    ensures Ranked(ImageOf(t))
  {
    forall c, i | c in t.chains && 0 <= i < |t.chains[c]|
      ensures RankedRule(ImageOf(t), c, Rules(t.chains[c])[i])
    {
      RuleRanked(cluster, b, t, c, i);
    }
  }

  lemma RuleRanked(cluster: Cluster, b: Books, t: Tables, c: Chain, i: nat)
    requires StaticSynced(cluster, t) && TypedElems(t.elems) && (forall k :: k in t.elems ==> t.elems[k] in t.chains)
    requires forall n :: PortSynced(n, b, t)
    requires c in t.chains && i < |t.chains[c]|
    ensures RankedRule(ImageOf(t), c, Rules(t.chains[c])[i])
  {
    match c
    case Static(f, s) =>
      StaticRanked(cluster, b, t, f, s, i);
    case ServiceChain(f, id) =>
      assert PortSynced(id.name, b, t) && Owns(id.name, c) && Live(id.name, b, c);
      ServiceRanked(b, t, id.name, i);
    case EndpointChain(_, n, id) =>
      assert PortSynced(n, b, t) && Owns(n, c) && Live(n, b, c);
      var j := EpChainIndex(n, b.endpoints[n], c);
      assert EndpointSynced(n, b.endpoints[n][j], StickyOf(b.services, n), b.epRules, t);
      EndpointReferences(b.endpoints[n][j], StickyOf(b.services, n), i);
  }

  /** Static rules jump down, and look up in maps whose elements lead down. */
  lemma StaticJumpsDown(f: Family, cidr: Cidr, s: StaticChain, i: nat)
    requires i < |StaticRules(f, cidr, s)|
    ensures forall d :: d in Targets(StaticRules(f, cidr, s)[i]) ==>
              d.Static? && d.family == f && Rank(d) < Rank(Static(f, s))
  {}

  lemma StaticLooksDown(f: Family, cidr: Cidr, s: StaticChain, i: nat)
    requires i < |StaticRules(f, cidr, s)| && StaticRules(f, cidr, s)[i].action.Lookup?
    ensures var v := StaticRules(f, cidr, s)[i].action.vmap;
            (if v.NoEndpoints? || v.MarkMasq? then 0 else 1) < Rank(Static(f, s))
  {}

  lemma StaticRanked(cluster: Cluster, b: Books, t: Tables, f: Family, s: StaticChain, i: nat)
    requires StaticSynced(cluster, t) && TypedElems(t.elems) && (forall k :: k in t.elems ==> t.elems[k] in t.chains)
    requires i < |StaticRules(f, cluster.For(f), s)|
    ensures RankedRule(ImageOf(t), Static(f, s), StaticRules(f, cluster.For(f), s)[i])
  {
    var r := StaticRules(f, cluster.For(f), s)[i];
    var img := ImageOf(t);
    StaticJumpsDown(f, cluster.For(f), s, i);
    forall d | d in Targets(r) ensures Below(img, Static(f, s), d) {
      assert d == Static(d.family, d.base) && Static(d.family, d.base) in t.chains;
    }
    if r.action.Lookup? {
      StaticLooksDown(f, cluster.For(f), s, i);
      forall k | k in img.elems && k.set_ == r.action.vmap && k.family == f
        ensures Below(img, Static(f, s), img.elems[k])
      {
        assert TypedElem(k, t.elems[k]);
      }
    }
  }

  lemma ServiceRanked(b: Books, t: Tables, n: PortName, i: nat)
    requires PortSynced(n, b, t) && n in b.services
    requires i < |ServiceRules(n, ServiceOf(b.services[n]), EpsOf(b.endpoints, n))|
    ensures RankedRule(ImageOf(t), ChainOf(n, b.services[n].base),
                       ServiceRules(n, ServiceOf(b.services[n]), EpsOf(b.endpoints, n))[i])
  {
    var es := EpsOf(b.endpoints, n);
    var c := ChainOf(n, b.services[n].base);
    ServiceReferences(n, ServiceOf(b.services[n]), es, i);
    forall d | d in EpChains(n, es) ensures Below(ImageOf(t), c, d) {
      var j := EpChainIndex(n, es, d);
      assert EndpointSynced(n, es[j], StickyOf(b.services, n), b.epRules, t);
    }
  }

  /** A packet's state when it leaves an endpoint chain: marked if it came from the endpoint itself,
      and remembered under the endpoint's index if the port has affinity. */
  function Arrived(e: Endpoint, m: Option<AffinityMap>, p: Packet, st: State): State {
    State(if p.src == e.id.ip then MASQ_MARK else st.mark,
          if m.Some? then st.affinity[(m.value, p.src) := e.index] else st.affinity)
  }

  lemma EvalEndpoint(img: Image, c: Chain, e: Endpoint, m: Option<AffinityMap>, p: Packet, st: State)
    requires Ranked(img) && c in img.chains && p.family == c.family
    requires img.chains[c] == EndpointRules(e, m)
    ensures Eval(img, c, 0, p, st) == Outcome(Arrived(e, m, p, st), Redirect(e.id.ip, e.id.port))
  {
    var i := if m.Some? then 1 else 0;
    var st1 := if m.Some? then st.(affinity := st.affinity[(m.value, p.src) := e.index]) else st;
    var rules := img.chains[c];
    assert Eval(img, c, 0, p, st) == Eval(img, c, i, p, st1);
    assert rules[i] == CounterRule && Fire(img, rules[i], p, st1) == Next(st1);
    var st2 := if p.src == e.id.ip then st1.(mark := MASQ_MARK) else st1;
    assert Fire(img, rules[i + 1], p, st1) == Next(st2) by {
      assert rules[i + 1].guards == [SrcIs(e.id.ip)];
      assert AllHold([SrcIs(e.id.ip)], p, st1) <==> Holds([SrcIs(e.id.ip)][0], p, st1);
    }
    assert Fire(img, rules[i + 2], p, st2) == Decide(Redirect(e.id.ip, e.id.port));
    assert Eval(img, c, i + 1, p, st1) == Eval(img, c, i + 2, p, st2);
  }

  /** The last endpoint with a given affinity index. */
  function LastWith(es: seq<Endpoint>, x: nat): (i: Option<nat>)
    ensures i.Some? ==> i.value < |es| && es[i.value].index == x
    ensures i.Some? ==> forall j :: i.value < j < |es| ==> es[j].index != x
    ensures i.None? ==> forall j :: 0 <= j < |es| ==> es[j].index != x
  {
    if es == [] then None
    else if es[|es| - 1].index == x then Some(|es| - 1)
    else LastWith(es[..|es| - 1], x)
  }

  lemma {:induction false} ActIsLast(n: PortName, es: seq<Endpoint>, x: nat)
    ensures x in ActOf(n, es) <==> LastWith(es, x).Some?
    ensures x in ActOf(n, es) ==> ActOf(n, es)[x] == EpChain(n, es[LastWith(es, x).value])
  {
    if es != [] {
      ActIsLast(n, es[..|es| - 1], x);
    }
  }

  /** The endpoint a service chain sends a packet to: the remembered one, or a random one. */
  function Chosen(n: PortName, s: Service, es: seq<Endpoint>, p: Packet, st: State): (i: nat)
    requires es != []
    ensures i < |es|
  {
    var key := (MapOf(n, s.base), p.src);
    if s.affinity && key in st.affinity && LastWith(es, st.affinity[key]).Some?
    then LastWith(es, st.affinity[key]).value
    else p.pick % |es|
  }

  /** A service chain and its endpoint chains as the compilation has them. */
  ghost predicate Installed(img: Image, n: PortName, s: Service, es: seq<Endpoint>) {
    && ChainOf(n, s.base) in img.chains
    && img.chains[ChainOf(n, s.base)] == ServiceRules(n, s, es)
    && (forall i :: 0 <= i < |es| ==>
          && EpChain(n, es[i]) in img.chains
          && EpChain(n, es[i]).family == TableFamily(s.base)
          && img.chains[EpChain(n, es[i])] == EndpointRules(es[i], if s.affinity then Some(MapOf(n, s.base)) else None))
  }

  lemma EvalService(img: Image, n: PortName, s: Service, es: seq<Endpoint>, p: Packet, st: State)
    requires Ranked(img) && Installed(img, n, s, es) && p.family == TableFamily(s.base)
    ensures var o := Eval(img, ChainOf(n, s.base), 0, p, st);
            if es == [] then o == Outcome(st, Pass)
            else var e := es[Chosen(n, s, es, p, st)];
                 && o.verdict == Redirect(e.id.ip, e.id.port)
                 && o.state == Arrived(e, if s.affinity then Some(MapOf(n, s.base)) else None, p, st)
  {
    var c := ChainOf(n, s.base);
    var rules := img.chains[c];
    if es != [] {
      var m := if s.affinity then Some(MapOf(n, s.base)) else None;
      var e := es[Chosen(n, s, es, p, st)];
      assert EpChains(n, es)[p.pick % |es|] == EpChain(n, es[p.pick % |es|]);
      EvalEndpoint(img, EpChain(n, e), e, m, p, st);
      assert Fire(img, rules[0], p, st) == Next(st);
      assert Eval(img, c, 0, p, st) == Eval(img, c, 1, p, st);
      if s.affinity {
        var key := (MapOf(n, s.base), p.src);
        if key in st.affinity {
          ActIsLast(n, es, st.affinity[key]);
        }
        if key in st.affinity && LastWith(es, st.affinity[key]).Some? {
          assert Fire(img, rules[1], p, st) == Call(EpChain(n, e));
        } else {
          assert Fire(img, rules[1], p, st) == Next(st);
          assert Fire(img, rules[2], p, st) == Call(EpChain(n, e));
          assert Eval(img, c, 1, p, st) == Eval(img, c, 2, p, st);
        }
      } else {
        assert Fire(img, rules[1], p, st) == Call(EpChain(n, e));
      }
    }
  }
}
