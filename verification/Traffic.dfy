/** Where packets end up, in every state the proxy can be in between two critical sections. */
module Traffic {
  import opened Names
  import opened Netfilter
  import opened Ruleset
  import opened Mirror
  import opened Steps
  import opened Packets

  lemma InstalledWhenSynced(cluster: Cluster, b: Books, t: Tables, n: PortName)
    requires Synced(cluster, b, t) && n in b.services
    ensures Installed(ImageOf(t), n, ServiceOf(b.services[n]), EpsOf(b.endpoints, n))
  {
    assert PortSynced(n, b, t);
    var es := EpsOf(b.endpoints, n);
    forall i | 0 <= i < |es| ensures EndpointSynced(n, es[i], StickyOf(b.services, n), b.epRules, t) {}
  }

  ghost predicate StaticInstalled(img: Image, f: Family, cidr: Cidr) {
    forall s: StaticChain :: Static(f, s) in img.chains && img.chains[Static(f, s)] == StaticRules(f, cidr, s)
  }

  ghost predicate TypedImage(img: Image) {
    forall k :: k in img.elems ==> TypedElem(k, img.elems[k])
  }

  /** The mark of a packet after the masquerade chain. */
  function MaybeMarked(img: Image, p: Packet, st: State): State {
    if KeyOf(p, MarkMasq) in img.elems then st.(mark := MASQ_MARK) else st
  }

  lemma EvalMarkMasq(img: Image, cidr: Cidr, p: Packet, st: State)
    requires Ranked(img) && StaticInstalled(img, p.family, cidr) && TypedImage(img)
    ensures Eval(img, Static(p.family, K8sNatMarkMasq), 0, p, st) == Outcome(MaybeMarked(img, p, st), Pass)
  {
    var c, d := Static(p.family, K8sNatMarkMasq), Static(p.family, K8sNatDoMarkMasq);
    var rules := img.chains[c];
    assert rules == [CounterRule, Rule([], Lookup(MarkMasq)), Rule([], Return)];
    assert img.chains[d] == [CounterRule, Rule([], SetMarkAndReturn(MASQ_MARK))];
    assert Eval(img, c, 0, p, st) == Eval(img, c, 1, p, st);
    var marked := st.(mark := MASQ_MARK);
    assert Eval(img, c, 2, p, st) == Outcome(st, Pass);
    assert Eval(img, c, 2, p, marked) == Outcome(marked, Pass);
    if KeyOf(p, MarkMasq) in img.elems {
      assert TypedElem(KeyOf(p, MarkMasq), img.elems[KeyOf(p, MarkMasq)]);
      assert Fire(img, rules[1], p, st) == Call(d);
      assert Fire(img, img.chains[d][1], p, st) == Leave(marked);
      assert Eval(img, d, 0, p, st) == Eval(img, d, 1, p, st) == Outcome(marked, Pass);
    } else {
      assert Fire(img, rules[1], p, st) == Next(st);
    }
  }

  /** A packet's state when the lookups of the services chain begin. */
  function Entering(img: Image, cidr: Cidr, p: Packet, st: State): State {
    if InCidr(p.src, cidr) then st else MaybeMarked(img, p, st)
  }

  lemma EvalServicesHead(img: Image, cidr: Cidr, p: Packet, st: State)
    requires Ranked(img) && StaticInstalled(img, p.family, cidr) && TypedImage(img)
    ensures |img.chains[Static(p.family, K8sNatServices)]| == 6
    ensures Eval(img, Static(p.family, K8sNatServices), 0, p, st)
         == Eval(img, Static(p.family, K8sNatServices), 2, p, Entering(img, cidr, p, st))
  {
    var c := Static(p.family, K8sNatServices);
    var rules := img.chains[c];
    assert rules == StaticRules(p.family, cidr, K8sNatServices);
    assert Eval(img, c, 0, p, st) == Eval(img, c, 1, p, st);
    EvalMarkMasq(img, cidr, p, st);
    assert rules[1].guards == [SrcNotIn(cidr)];
    assert AllHold([SrcNotIn(cidr)], p, st) <==> Holds([SrcNotIn(cidr)][0], p, st);
  }

  lemma EvalLookup(img: Image, c: Chain, i: nat, s: SetName, p: Packet, st: State)
    requires Ranked(img) && c in img.chains && i < |img.chains[c]| && p.family == c.family
    requires img.chains[c][i] == Rule([], Lookup(s))
    ensures KeyOf(p, s) !in img.elems ==> Eval(img, c, i, p, st) == Eval(img, c, i + 1, p, st)
    ensures KeyOf(p, s) in img.elems ==>
              var d := img.elems[KeyOf(p, s)];
              && d in img.chains && d.family == p.family
              && var o := Eval(img, d, 0, p, st);
              Eval(img, c, i, p, st) == if o.verdict == Pass then Eval(img, c, i + 1, p, o.state) else o
  {
    assert RankedRule(img, c, img.chains[c][i]);
    if KeyOf(p, s) in img.elems {
      assert Fire(img, img.chains[c][i], p, st) == Call(img.elems[KeyOf(p, s)]);
    } else {
      assert Fire(img, img.chains[c][i], p, st) == Next(st);
    }
  }

  /** The chain that a verdict map has for a packet: by protocol, destination and destination port. */
  function Route(elems: map<Elem, Chain>, p: Packet, s: SetName): seq<Chain> {
    var k := Elem(p.family, s, p.protocol, if s == Nodeports then NoAddress else p.dst, p.port);
    if k in elems then [elems[k]] else []
  }

  /** The service chains a packet is offered to, in order. */
  function Routes(elems: map<Elem, Chain>, p: Packet): seq<Chain> {
    Route(elems, p, ClusterIP) + ExternalRoutes(elems, p)
  }

  ghost predicate LiveRoute(b: Books, f: Family, c: Chain) {
    && c.ServiceChain? && c.id.name in b.services
    && c == ChainOf(c.id.name, b.services[c.id.name].base) && c.family == f
  }

  ghost predicate LiveRoutes(b: Books, f: Family, cs: seq<Chain>) {
    forall i :: 0 <= i < |cs| ==> LiveRoute(b, f, cs[i])
  }

  lemma LiveRoutesConcat(b: Books, f: Family, cs: seq<Chain>, ds: seq<Chain>)
    requires LiveRoutes(b, f, cs) && LiveRoutes(b, f, ds)
    ensures LiveRoutes(b, f, cs + ds)
  {}

  /** The first port with endpoints takes the packet. */
  ghost function Delivered(b: Books, routes: seq<Chain>, p: Packet, st: State): Outcome
    requires LiveRoutes(b, p.family, routes)
  {
    if routes == [] then Outcome(st, Pass) else
    assert LiveRoute(b, p.family, routes[0]);
    var n := routes[0].id.name;
    var es := EpsOf(b.endpoints, n);
    if es == [] then Delivered(b, routes[1..], p, st) else
    var e := es[Chosen(n, ServiceOf(b.services[n]), es, p, st)];
    Outcome(Arrived(e, StickyOf(b.services, n), p, st), Redirect(e.id.ip, e.id.port))
  }

  predicate ServiceSet(s: SetName) {
    s.ClusterIP? || s.ExternalIP? || s.LoadbalancerIP? || s.Nodeports?
  }

  lemma RouteLive(cluster: Cluster, b: Books, t: Tables, p: Packet, s: SetName)
    requires Synced(cluster, b, t) && ServiceSet(s)
    ensures LiveRoutes(b, p.family, Route(t.elems, p, s))
  {
    var k := KeyOf(p, s);
    if k in t.elems {
      var c := t.elems[k];
      assert TypedElem(k, c);
      assert PortSynced(c.id.name, b, t) && Owns(c.id.name, c) && Live(c.id.name, b, c);
    }
  }

  /** Offering the packet to one more port. */
  lemma OfferNext(cluster: Cluster, b: Books, t: Tables, c: Chain, i: nat, s: SetName, rest: seq<Chain>, p: Packet, st: State)
    requires Synced(cluster, b, t) && Ranked(ImageOf(t))
    requires ServiceSet(s)
    requires c in t.chains && i < |t.chains[c]| && c.family == p.family
    requires ImageOf(t).chains[c][i] == Rule([], Lookup(s))
    requires LiveRoutes(b, p.family, rest)
    requires Eval(ImageOf(t), c, i + 1, p, st) == Delivered(b, rest, p, st)
    ensures LiveRoutes(b, p.family, Route(t.elems, p, s) + rest)
    ensures Eval(ImageOf(t), c, i, p, st) == Delivered(b, Route(t.elems, p, s) + rest, p, st)
  {
    var img := ImageOf(t);
    var routes := Route(t.elems, p, s) + rest;
    RouteLive(cluster, b, t, p, s);
    LiveRoutesConcat(b, p.family, Route(t.elems, p, s), rest);
    EvalLookup(img, c, i, s, p, st);
    if KeyOf(p, s) in t.elems {
      var d := t.elems[KeyOf(p, s)];
      assert routes[0] == d == Route(t.elems, p, s)[0] && routes[1..] == rest;
      assert LiveRoute(b, p.family, d);
      var n := d.id.name;
      InstalledWhenSynced(cluster, b, t, n);
      EvalService(img, n, ServiceOf(b.services[n]), EpsOf(b.endpoints, n), p, st);
    } else {
      assert routes == rest;
    }
  }

  lemma EvalNodeports(cluster: Cluster, b: Books, t: Tables, p: Packet, st: State)
    requires Synced(cluster, b, t) && Ranked(ImageOf(t))
    ensures LiveRoutes(b, p.family, Route(t.elems, p, Nodeports))
    ensures Static(p.family, K8sNatNodeports) in t.chains
    ensures Eval(ImageOf(t), Static(p.family, K8sNatNodeports), 0, p, st)
         == Delivered(b, Route(t.elems, p, Nodeports), p, st)
  {
    var c := Static(p.family, K8sNatNodeports);
    var img := ImageOf(t);
    assert img.chains[c] == StaticRules(p.family, cluster.For(p.family), K8sNatNodeports);
    assert Eval(img, c, 0, p, st) == Eval(img, c, 1, p, st);
    assert Eval(img, c, 2, p, st) == Delivered(b, [], p, st);
    OfferNext(cluster, b, t, c, 1, Nodeports, [], p, st);
    assert Route(t.elems, p, Nodeports) + [] == Route(t.elems, p, Nodeports);
  }

  function LocalRoutes(elems: map<Elem, Chain>, p: Packet): seq<Chain> {
    if p.local then Route(elems, p, Nodeports) else []
  }

  lemma EvalServicesLocal(cluster: Cluster, b: Books, t: Tables, p: Packet, st: State)
    requires Synced(cluster, b, t) && Ranked(ImageOf(t))
    ensures LiveRoutes(b, p.family, LocalRoutes(t.elems, p))
    ensures Static(p.family, K8sNatServices) in t.chains && |t.chains[Static(p.family, K8sNatServices)]| == 6
    ensures Eval(ImageOf(t), Static(p.family, K8sNatServices), 5, p, st) == Delivered(b, LocalRoutes(t.elems, p), p, st)
  {
    hide Synced, Ranked, Rank, Delivered, LiveRoutes, StaticRules, Eval, Route;
    var img := ImageOf(t);
    var c := Static(p.family, K8sNatServices);
    EvalNodeports(cluster, b, t, p, st);
    LocalJump(cluster, b, t, p.family);
    EvalGuardedJump(img, c, 5, DstLocal, Static(p.family, K8sNatNodeports), p, st);
    NowhereDelivered(b, p, st);
    EvalEnd(img, c, p, st);
    EvalEnd(img, c, p, Delivered(b, LocalRoutes(t.elems, p), p, st).state);
    NowhereElse(b, LocalRoutes(t.elems, p), p, st);
  }

  lemma LocalJump(cluster: Cluster, b: Books, t: Tables, f: Family)
    requires Synced(cluster, b, t)
    ensures var c := Static(f, K8sNatServices);
            && c in t.chains && |t.chains[c]| == 6
            && ImageOf(t).chains[c][5] == Rule([DstLocal], JumpTo(f, K8sNatNodeports))
  {
    assert ImageOf(t).chains[Static(f, K8sNatServices)] == StaticRules(f, cluster.For(f), K8sNatServices);
  }

  lemma NowhereDelivered(b: Books, p: Packet, st: State)
    ensures LiveRoutes(b, p.family, []) && Delivered(b, [], p, st) == Outcome(st, Pass)
  {}

  /** A packet that no port took has nothing done to it. */
  lemma {:induction false} NowhereElse(b: Books, routes: seq<Chain>, p: Packet, st: State)
    requires LiveRoutes(b, p.family, routes)
    ensures Delivered(b, routes, p, st).verdict == Pass ==> Delivered(b, routes, p, st) == Outcome(st, Pass)
  {
    if routes != [] {
      assert LiveRoute(b, p.family, routes[0]);
      NowhereElse(b, routes[1..], p, st);
    }
  }

  lemma EvalEnd(img: Image, c: Chain, p: Packet, st: State)
    requires Ranked(img) && c in img.chains && p.family == c.family
    ensures Eval(img, c, |img.chains[c]|, p, st) == Outcome(st, Pass)
  {}

  lemma EvalGuardedJump(img: Image, c: Chain, i: nat, g: Guard, d: Chain, p: Packet, st: State)
    requires Ranked(img) && c in img.chains && i < |img.chains[c]| && p.family == c.family
    requires img.chains[c][i] == Rule([g], Jump(d))
    ensures !Holds(g, p, st) ==> Eval(img, c, i, p, st) == Eval(img, c, i + 1, p, st)
    ensures Holds(g, p, st) ==>
              && d in img.chains && d.family == p.family
              && var o := Eval(img, d, 0, p, st);
              Eval(img, c, i, p, st) == if o.verdict == Pass then Eval(img, c, i + 1, p, o.state) else o
  {
    assert RankedRule(img, c, img.chains[c][i]);
    assert [g][0] == g;
    if Holds(g, p, st) {
      assert Fire(img, img.chains[c][i], p, st) == Call(d);
      CallsGoDown(img, c, img.chains[c][i], p, st);
    } else {
      assert Fire(img, img.chains[c][i], p, st) == Next(st);
    }
  }

  function LoadbalancerRoutes(elems: map<Elem, Chain>, p: Packet): seq<Chain> {
    Route(elems, p, LoadbalancerIP) + LocalRoutes(elems, p)
  }

  function ExternalRoutes(elems: map<Elem, Chain>, p: Packet): seq<Chain> {
    Route(elems, p, ExternalIP) + LoadbalancerRoutes(elems, p)
  }

  lemma ServicesLookups(cluster: Cluster, t: Tables, f: Family)
    requires StaticSynced(cluster, t)
    ensures var c := Static(f, K8sNatServices);
            && c in t.chains && |t.chains[c]| == 6
            && ImageOf(t).chains[c][2] == Rule([], Lookup(ClusterIP))
            && ImageOf(t).chains[c][3] == Rule([], Lookup(ExternalIP))
            && ImageOf(t).chains[c][4] == Rule([], Lookup(LoadbalancerIP))
  {
    assert ImageOf(t).chains[Static(f, K8sNatServices)] == StaticRules(f, cluster.For(f), K8sNatServices);
  }

  lemma EvalServicesLoadbalancer(cluster: Cluster, b: Books, t: Tables, p: Packet, st: State)
    requires Synced(cluster, b, t) && Ranked(ImageOf(t))
    ensures LiveRoutes(b, p.family, LoadbalancerRoutes(t.elems, p))
    ensures Static(p.family, K8sNatServices) in t.chains && |t.chains[Static(p.family, K8sNatServices)]| == 6
    ensures Eval(ImageOf(t), Static(p.family, K8sNatServices), 4, p, st)
         == Delivered(b, LoadbalancerRoutes(t.elems, p), p, st)
  {
    ServicesLookups(cluster, t, p.family);
    EvalServicesLocal(cluster, b, t, p, st);
    OfferNext(cluster, b, t, Static(p.family, K8sNatServices), 4, LoadbalancerIP, LocalRoutes(t.elems, p), p, st);
  }

  lemma EvalServicesExternal(cluster: Cluster, b: Books, t: Tables, p: Packet, st: State)
    requires Synced(cluster, b, t) && Ranked(ImageOf(t))
    ensures LiveRoutes(b, p.family, ExternalRoutes(t.elems, p))
    ensures Static(p.family, K8sNatServices) in t.chains && |t.chains[Static(p.family, K8sNatServices)]| == 6
    ensures Eval(ImageOf(t), Static(p.family, K8sNatServices), 3, p, st)
         == Delivered(b, ExternalRoutes(t.elems, p), p, st)
  {
    ServicesLookups(cluster, t, p.family);
    EvalServicesLoadbalancer(cluster, b, t, p, st);
    OfferNext(cluster, b, t, Static(p.family, K8sNatServices), 3, ExternalIP, LoadbalancerRoutes(t.elems, p), p, st);
  }

  lemma EvalServicesTail(cluster: Cluster, b: Books, t: Tables, p: Packet, st: State)
    requires Synced(cluster, b, t) && Ranked(ImageOf(t))
    ensures LiveRoutes(b, p.family, Routes(t.elems, p))
    ensures Static(p.family, K8sNatServices) in t.chains && |t.chains[Static(p.family, K8sNatServices)]| == 6
    ensures Eval(ImageOf(t), Static(p.family, K8sNatServices), 2, p, st) == Delivered(b, Routes(t.elems, p), p, st)
  {
    ServicesLookups(cluster, t, p.family);
    EvalServicesExternal(cluster, b, t, p, st);
    OfferNext(cluster, b, t, Static(p.family, K8sNatServices), 2, ClusterIP, ExternalRoutes(t.elems, p), p, st);
  }

  predicate NatHook(hook: StaticChain) {
    hook.NatPrerouting? || hook.NatOutput?
  }

  ghost function AtHook(cluster: Cluster, b: Books, t: Tables, hook: StaticChain, p: Packet, st: State): Outcome
    requires Synced(cluster, b, t)
  {
    SyncedRanked(cluster, b, t);
    Eval(ImageOf(t), Static(p.family, hook), 0, p, st)
  }

  lemma EvalHook(img: Image, cidr: Cidr, hook: StaticChain, p: Packet, st: State)
    requires Ranked(img) && StaticInstalled(img, p.family, cidr) && NatHook(hook)
    ensures Eval(img, Static(p.family, hook), 0, p, st) == Eval(img, Static(p.family, K8sNatServices), 0, p, st)
  {
    var c := Static(p.family, hook);
    assert img.chains[c] == [CounterRule, Rule([], JumpTo(p.family, K8sNatServices))];
    assert Eval(img, c, 0, p, st) == Eval(img, c, 1, p, st);
    assert Fire(img, img.chains[c][1], p, st) == Call(Static(p.family, K8sNatServices));
    var o := Eval(img, Static(p.family, K8sNatServices), 0, p, st);
    assert Eval(img, c, 2, p, o.state) == Outcome(o.state, Pass);
  }

  /** The meaning of the whole NAT ruleset, for every packet: it is offered to the cluster IP,
      external IP and load-balancer entries of its key and, if it is for this node, to the nodeport
      entry, and the first of these ports that has endpoints takes it. */
  lemma NatMeaning(cluster: Cluster, b: Books, t: Tables, hook: StaticChain, p: Packet, st: State)
    requires Synced(cluster, b, t) && NatHook(hook)
    ensures LiveRoutes(b, p.family, Routes(t.elems, p))
    ensures AtHook(cluster, b, t, hook, p, st)
         == Delivered(b, Routes(t.elems, p), p, Entering(ImageOf(t), cluster.For(p.family), p, st))
  {
    SyncedRanked(cluster, b, t);
    var img := ImageOf(t);
    var cidr := cluster.For(p.family);
    assert StaticInstalled(img, p.family, cidr) && TypedImage(img);
    EvalServicesHead(img, cidr, p, st);
    EvalServicesTail(cluster, b, t, p, Entering(img, cidr, p, st));
    EvalHook(img, cidr, hook, p, st);
  }

  lemma {:induction false} DeliveredWhere(b: Books, routes: seq<Chain>, p: Packet, st: State)
    requires LiveRoutes(b, p.family, routes)
    ensures Delivered(b, routes, p, st).verdict.Redirect? || Delivered(b, routes, p, st) == Outcome(st, Pass)
    ensures Delivered(b, routes, p, st).verdict.Redirect? <==>
              exists i :: 0 <= i < |routes| && EpsOf(b.endpoints, routes[i].id.name) != []
  {
    if routes != [] {
      DeliveredWhere(b, routes[1..], p, st);
      var rest := routes[1..];
      if i :| 0 <= i < |rest| && EpsOf(b.endpoints, rest[i].id.name) != [] {
        assert routes[i + 1] == rest[i];
      }
      if i :| 0 <= i < |routes| && EpsOf(b.endpoints, routes[i].id.name) != [] {
        assert i > 0 ==> rest[i - 1] == routes[i];
      }
    }
  }

  /** A packet is redirected if and only if one of its entries leads to a port with endpoints. */
  lemma RedirectedExactly(cluster: Cluster, b: Books, t: Tables, hook: StaticChain, p: Packet, st: State)
    requires Synced(cluster, b, t) && NatHook(hook)
    ensures AtHook(cluster, b, t, hook, p, st).verdict.Redirect? <==>
              exists i :: 0 <= i < |Routes(t.elems, p)| && Routes(t.elems, p)[i].ServiceChain?
                          && EpsOf(b.endpoints, Routes(t.elems, p)[i].id.name) != []
    ensures !AtHook(cluster, b, t, hook, p, st).verdict.Redirect? ==> AtHook(cluster, b, t, hook, p, st).verdict == Pass
  {
    NatMeaning(cluster, b, t, hook, p, st);
    var routes := Routes(t.elems, p);
    DeliveredWhere(b, routes, p, Entering(ImageOf(t), cluster.For(p.family), p, st));
    forall i | 0 <= i < |routes| ensures routes[i].ServiceChain? {
      assert LiveRoute(b, p.family, routes[i]);
    }
  }

  ghost predicate ClusterIPOf(b: Books, t: Tables, n: PortName, p: Packet) {
    && n in b.services && p.family == TableFamily(b.services[n].base)
    && var k := Elem(p.family, ClusterIP, p.protocol, p.dst, p.port);
    k in t.elems && t.elems[k] == ChainOf(n, b.services[n].base)
  }

  lemma ClusterIPReaches(cluster: Cluster, b: Books, t: Tables, n: PortName, hook: StaticChain, p: Packet, st: State)
    requires Synced(cluster, b, t) && NatHook(hook) && ClusterIPOf(b, t, n, p) && EpsOf(b.endpoints, n) != []
    ensures var es := EpsOf(b.endpoints, n);
            var st1 := Entering(ImageOf(t), cluster.For(p.family), p, st);
            var e := es[Chosen(n, ServiceOf(b.services[n]), es, p, st1)];
            AtHook(cluster, b, t, hook, p, st)
            == Outcome(Arrived(e, StickyOf(b.services, n), p, st1), Redirect(e.id.ip, e.id.port))
  {
    NatMeaning(cluster, b, t, hook, p, st);
    assert Routes(t.elems, p)[0] == ChainOf(n, b.services[n].base);
  }

  /** Where a draw of the load balancer sends a packet. */
  ghost function Sent(cluster: Cluster, b: Books, t: Tables, hook: StaticChain, p: Packet, st: State, pick: nat): Verdict
    requires Synced(cluster, b, t)
  {
    AtHook(cluster, b, t, hook, p.(pick := pick), st).verdict
  }

  function To(e: Endpoint): Verdict {
    Redirect(e.id.ip, e.id.port)
  }

  lemma SentTo(cluster: Cluster, b: Books, t: Tables, n: PortName, hook: StaticChain, p: Packet, st: State, pick: nat)
    requires Synced(cluster, b, t) && NatHook(hook) && ClusterIPOf(b, t, n, p) && EpsOf(b.endpoints, n) != []
    requires !b.services[n].nft.withAffinity
    ensures Sent(cluster, b, t, hook, p, st, pick)
         == To(EpsOf(b.endpoints, n)[pick % |EpsOf(b.endpoints, n)|])
  {
    ClusterIPReaches(cluster, b, t, n, hook, p.(pick := pick), st);
  }

  lemma OnlyEndpointsReached(cluster: Cluster, b: Books, t: Tables, n: PortName, hook: StaticChain,
                             p: Packet, st: State, v: Verdict)
    requires Synced(cluster, b, t) && NatHook(hook) && ClusterIPOf(b, t, n, p) && EpsOf(b.endpoints, n) != []
    requires !b.services[n].nft.withAffinity
    requires exists pick: nat :: Sent(cluster, b, t, hook, p, st, pick) == v
    ensures exists j :: 0 <= j < |EpsOf(b.endpoints, n)| && v == To(EpsOf(b.endpoints, n)[j])
  {
    var pick: nat :| Sent(cluster, b, t, hook, p, st, pick) == v;
    SentTo(cluster, b, t, n, hook, p, st, pick);
  }

  lemma EachEndpointReached(cluster: Cluster, b: Books, t: Tables, n: PortName, hook: StaticChain,
                            p: Packet, st: State, j: nat)
    requires Synced(cluster, b, t) && NatHook(hook) && ClusterIPOf(b, t, n, p) && j < |EpsOf(b.endpoints, n)|
    requires !b.services[n].nft.withAffinity
    ensures exists pick: nat :: Sent(cluster, b, t, hook, p, st, pick) == To(EpsOf(b.endpoints, n)[j])
  {
    SmallRemainder(j, |EpsOf(b.endpoints, n)|);
    SentTo(cluster, b, t, n, hook, p, st, j);
  }

  lemma SmallRemainder(j: nat, m: nat)
    requires j < m
    ensures j % m == j
  {}

  /** Without affinity, the places a packet to a service's cluster IP can be sent to, over all draws
      of the load balancer, are exactly the endpoints of that service port. */
  lemma ClusterIPReachesExactly(cluster: Cluster, b: Books, t: Tables, n: PortName, hook: StaticChain,
                                p: Packet, st: State, v: Verdict)
    requires Synced(cluster, b, t) && NatHook(hook) && ClusterIPOf(b, t, n, p) && EpsOf(b.endpoints, n) != []
    requires !b.services[n].nft.withAffinity
    ensures (exists pick: nat :: Sent(cluster, b, t, hook, p, st, pick) == v) <==>
            (exists j :: 0 <= j < |EpsOf(b.endpoints, n)| && v == To(EpsOf(b.endpoints, n)[j]))
  {
    if exists pick: nat :: Sent(cluster, b, t, hook, p, st, pick) == v {
      OnlyEndpointsReached(cluster, b, t, n, hook, p, st, v);
    }
    if j :| 0 <= j < |EpsOf(b.endpoints, n)| && v == To(EpsOf(b.endpoints, n)[j]) {
      EachEndpointReached(cluster, b, t, n, hook, p, st, j);
    }
  }

  lemma EvalReject(img: Image, cidr: Cidr, p: Packet, st: State)
    requires Ranked(img) && StaticInstalled(img, p.family, cidr) && TypedImage(img)
    ensures Eval(img, Static(p.family, K8sFilterServices), 0, p, st)
         == Outcome(st, if KeyOf(p, NoEndpoints) in img.elems then Rejected else Pass)
  {
    var c, d := Static(p.family, K8sFilterServices), Static(p.family, K8sFilterDoReject);
    assert img.chains[c] == [CounterRule, Rule([], Lookup(NoEndpoints))];
    assert img.chains[d] == [CounterRule, Rule([], Reject)];
    assert Eval(img, d, 0, p, st) == Eval(img, d, 1, p, st);
    assert Fire(img, img.chains[d][1], p, st) == Decide(Rejected);
    assert Eval(img, c, 0, p, st) == Eval(img, c, 1, p, st);
    if KeyOf(p, NoEndpoints) in img.elems {
      assert TypedElem(KeyOf(p, NoEndpoints), img.elems[KeyOf(p, NoEndpoints)]);
      assert Fire(img, img.chains[c][1], p, st) == Call(d);
    } else {
      assert Fire(img, img.chains[c][1], p, st) == Next(st);
      assert Eval(img, c, 1, p, st) == Eval(img, c, 2, p, st);
    }
  }

  lemma OneGuard(g: Guard, p: Packet, st: State)
    ensures AllHold([g], p, st) <==> Holds(g, p, st)
  {
    assert [g][0] == g;
  }

  lemma TwoGuards(g: Guard, h: Guard, p: Packet, st: State)
    ensures AllHold([g, h], p, st) <==> Holds(g, p, st) && Holds(h, p, st)
  {
    assert [g, h][0] == g && [g, h][1] == h;
  }

  lemma EvalFirewall(img: Image, cidr: Cidr, p: Packet, st: State)
    requires Ranked(img) && StaticInstalled(img, p.family, cidr)
    ensures Eval(img, Static(p.family, K8sFilterFirewall), 0, p, st)
         == Outcome(st, if st.mark == DROP_MARK then Dropped else Pass)
  {
    var c := Static(p.family, K8sFilterFirewall);
    assert img.chains[c] == [CounterRule, Rule([MarkIs(DROP_MARK)], Drop)];
    OneGuard(MarkIs(DROP_MARK), p, st);
    assert Eval(img, c, 0, p, st) == Eval(img, c, 1, p, st);
  }

  lemma EvalFilterInOut(img: Image, cidr: Cidr, hook: StaticChain, p: Packet, st: State)
    requires Ranked(img) && StaticInstalled(img, p.family, cidr) && TypedImage(img)
    requires hook.FilterInput? || hook.FilterOutput?
    ensures Eval(img, Static(p.family, hook), 0, p, st)
         == Outcome(st, if p.ct == New && KeyOf(p, NoEndpoints) in img.elems then Rejected
                        else if st.mark == DROP_MARK then Dropped else Pass)
  {
    var c := Static(p.family, hook);
    var rules := img.chains[c];
    assert rules == [ CounterRule, Rule([CtIn({New})], JumpTo(p.family, K8sFilterServices)),
                      Rule([], JumpTo(p.family, K8sFilterFirewall))];
    OneGuard(CtIn({New}), p, st);
    EvalReject(img, cidr, p, st);
    EvalFirewall(img, cidr, p, st);
    assert Eval(img, c, 0, p, st) == Eval(img, c, 1, p, st);
    assert Fire(img, rules[2], p, st) == Call(Static(p.family, K8sFilterFirewall));
    assert Eval(img, c, 3, p, st) == Outcome(st, Pass);
    assert Eval(img, c, 2, p, st) == Outcome(st, if st.mark == DROP_MARK then Dropped else Pass);
    if p.ct == New {
      assert Fire(img, rules[1], p, st) == Call(Static(p.family, K8sFilterServices));
    } else {
      assert Fire(img, rules[1], p, st) == Next(st);
    }
  }

  /** What the forward chain of the program decides, in every connection state. */
  function ForwardVerdict(cidr: Cidr, p: Packet, st: State): Verdict {
    if p.ct == Invalid then Dropped
    else if st.mark == 0x4000 then Accepted
    else if (p.ct == Related || p.ct == Established) && (InCidr(p.src, cidr) || InCidr(p.dst, cidr)) then Accepted
    else Pass
  }

  lemma EvalSimple(img: Image, c: Chain, i: nat, p: Packet, st: State)
    requires Ranked(img) && c in img.chains && i < |img.chains[c]| && p.family == c.family
    ensures var e := Fire(img, img.chains[c][i], p, st);
            && (e.Next? ==> Eval(img, c, i, p, st) == Eval(img, c, i + 1, p, e.state))
            && (e.Decide? ==> Eval(img, c, i, p, st) == Outcome(st, e.verdict))
  {}

  lemma EvalK8sForward(img: Image, cidr: Cidr, p: Packet, st: State)
    requires Ranked(img) && StaticInstalled(img, p.family, cidr)
    ensures Eval(img, Static(p.family, K8sFilterForward), 0, p, st) == Outcome(st, ForwardVerdict(cidr, p, st))
  {
    var c := Static(p.family, K8sFilterForward);
    var rules := img.chains[c];
    assert rules == StaticRules(p.family, cidr, K8sFilterForward);
    OneGuard(CtIn({Invalid}), p, st);
    OneGuard(MarkIs(MASQ_MARK), p, st);
    TwoGuards(SrcIn(cidr), CtIn({Related, Established}), p, st);
    TwoGuards(DstIn(cidr), CtIn({Related, Established}), p, st);
    hide Eval, Ranked, StaticInstalled, AllHold;
    EvalSimple(img, c, 0, p, st);
    EvalSimple(img, c, 1, p, st);
    EvalSimple(img, c, 2, p, st);
    EvalSimple(img, c, 3, p, st);
    EvalSimple(img, c, 4, p, st);
    EvalEnd(img, c, p, st);
  }

  lemma EvalFilterForward(img: Image, cidr: Cidr, p: Packet, st: State)
    requires Ranked(img) && StaticInstalled(img, p.family, cidr) && TypedImage(img)
    ensures Eval(img, Static(p.family, FilterForward), 0, p, st)
         == Outcome(st, if ForwardVerdict(cidr, p, st) != Pass then ForwardVerdict(cidr, p, st)
                        else if p.ct == New && KeyOf(p, NoEndpoints) in img.elems then Rejected else Pass)
  {
    var c := Static(p.family, FilterForward);
    var rules := img.chains[c];
    assert rules == [ CounterRule, Rule([], JumpTo(p.family, K8sFilterForward)),
                      Rule([CtIn({New})], JumpTo(p.family, K8sFilterServices))];
    EvalK8sForward(img, cidr, p, st);
    EvalReject(img, cidr, p, st);
    assert Fire(img, rules[1], p, st) == Call(Static(p.family, K8sFilterForward));
    assert Fire(img, rules[0], p, st) == Next(st);
    assert Eval(img, c, 0, p, st) == Eval(img, c, 1, p, st);
    hide Fire, ForwardVerdict;
    EvalGuardedJump(img, c, 2, CtIn({New}), Static(p.family, K8sFilterServices), p, st);
    EvalEnd(img, c, p, st);
  }

  /** The forward hook, for every packet in every connection state. */
  lemma ForwardMeaning(cluster: Cluster, b: Books, t: Tables, p: Packet, st: State)
    requires Synced(cluster, b, t)
    ensures var cidr := cluster.For(p.family);
            AtHook(cluster, b, t, FilterForward, p, st)
            == Outcome(st, if p.ct == Invalid then Dropped
                           else if st.mark == 0x4000 then Accepted
                           else if p.ct == New then
                             (if Elem(p.family, NoEndpoints, p.protocol, p.dst, p.port) in t.elems then Rejected else Pass)
                           else if InCidr(p.src, cidr) || InCidr(p.dst, cidr) then Accepted
                           else Pass)
  {
    SyncedRanked(cluster, b, t);
    assert StaticInstalled(ImageOf(t), p.family, cluster.For(p.family)) && TypedImage(ImageOf(t));
    EvalFilterForward(ImageOf(t), cluster.For(p.family), p, st);
  }

  /** The input and output hooks, for every packet in every connection state. */
  lemma InOutMeaning(cluster: Cluster, b: Books, t: Tables, hook: StaticChain, p: Packet, st: State)
    requires Synced(cluster, b, t) && (hook == FilterInput || hook == FilterOutput)
    ensures AtHook(cluster, b, t, hook, p, st)
         == Outcome(st, if p.ct == New && Elem(p.family, NoEndpoints, p.protocol, p.dst, p.port) in t.elems then Rejected
                        else if st.mark == 0x8000 then Dropped else Pass)
  {
    SyncedRanked(cluster, b, t);
    assert StaticInstalled(ImageOf(t), p.family, cluster.For(p.family)) && TypedImage(ImageOf(t));
    EvalFilterInOut(ImageOf(t), cluster.For(p.family), hook, p, st);
  }

  /** The drop mark is what the firewall chain looks for. */
  lemma EvalMarkDrop(img: Image, cidr: Cidr, p: Packet, st: State)
    requires Ranked(img) && StaticInstalled(img, p.family, cidr)
    ensures Eval(img, Static(p.family, K8sNatMarkDrop), 0, p, st) == Outcome(st.(mark := 0x8000), Pass)
  {
    var c := Static(p.family, K8sNatMarkDrop);
    assert img.chains[c] == [CounterRule, Rule([], SetMark(DROP_MARK))];
    assert Eval(img, c, 0, p, st) == Eval(img, c, 1, p, st);
    assert Eval(img, c, 2, p, st.(mark := DROP_MARK)) == Outcome(st.(mark := DROP_MARK), Pass);
  }

  lemma EvalMasquerade(img: Image, cidr: Cidr, p: Packet, st: State)
    requires Ranked(img) && StaticInstalled(img, p.family, cidr)
    ensures Eval(img, Static(p.family, K8sNatDoMasquerade), 0, p, st) == Outcome(st, Masqueraded)
  {
    var c := Static(p.family, K8sNatDoMasquerade);
    assert img.chains[c] == [CounterRule, Rule([], Masquerade)];
    assert Eval(img, c, 0, p, st) == Eval(img, c, 1, p, st);
  }

  lemma EvalK8sPostrouting(img: Image, cidr: Cidr, p: Packet, st: State)
    requires Ranked(img) && StaticInstalled(img, p.family, cidr)
    ensures Eval(img, Static(p.family, K8sNatPostrouting), 0, p, st)
         == Outcome(st, if !InCidr(p.src, cidr) || st.mark == 0x4000 then Masqueraded else Pass)
  {
    var c, d := Static(p.family, K8sNatPostrouting), Static(p.family, K8sNatDoMasquerade);
    var rules := img.chains[c];
    assert rules == StaticRules(p.family, cidr, K8sNatPostrouting);
    assert Fire(img, rules[0], p, st) == Next(st);
    EvalSimple(img, c, 0, p, st);
    EvalMasquerade(img, cidr, p, st);
    hide Eval, Fire, Ranked, StaticInstalled;
    EvalGuardedJump(img, c, 1, SrcNotIn(cidr), d, p, st);
    EvalGuardedJump(img, c, 2, MarkIs(MASQ_MARK), d, p, st);
    EvalEnd(img, c, p, st);
  }

  /** On the way out a packet is masqueraded if and only if it comes from outside the cluster or
      carries the masquerade mark. */
  lemma PostroutingExactly(cluster: Cluster, b: Books, t: Tables, p: Packet, st: State)
    requires Synced(cluster, b, t)
    ensures AtHook(cluster, b, t, NatPostrouting, p, st)
         == Outcome(st, if !InCidr(p.src, cluster.For(p.family)) || st.mark == 0x4000 then Masqueraded else Pass)
  {
    SyncedRanked(cluster, b, t);
    var img, cidr := ImageOf(t), cluster.For(p.family);
    assert StaticInstalled(img, p.family, cidr);
    var c := Static(p.family, NatPostrouting);
    assert img.chains[c] == [CounterRule, Rule([], JumpTo(p.family, K8sNatPostrouting))];
    EvalK8sPostrouting(img, cidr, p, st);
    assert Eval(img, c, 0, p, st) == Eval(img, c, 1, p, st);
    assert Fire(img, img.chains[c][1], p, st) == Call(Static(p.family, K8sNatPostrouting));
    EvalEnd(img, c, p, st);
  }

  /** The same down to the bits of the source address and the configured ranges. */
  lemma PostroutingByBits(cluster: Cluster, b: Books, t: Tables, p: Packet, st: State, x: nat)
    requires Synced(cluster, b, t) && cluster.v4.family == IPv4 && cluster.v6.family == IPv6
    requires p.src == if p.family == IPv6 then Ip6(x) else Ip4(x)
    ensures var range := if p.family == IPv6 then cluster.v6 else cluster.v4;
            AtHook(cluster, b, t, NatPostrouting, p, st).verdict == Masqueraded <==>
              !(range.first <= x < range.first + range.size) || st.mark == 0x4000
  {
    PostroutingExactly(cluster, b, t, p, st);
  }

  /** An endpoint that reaches itself through its own service is masqueraded on the way out, wherever it
      is; `out` is the packet after its destination was rewritten. */
  lemma HairpinMasqueraded(cluster: Cluster, b: Books, t: Tables, n: PortName, hook: StaticChain, p: Packet, st: State, out: Packet)
    requires Synced(cluster, b, t) && NatHook(hook) && ClusterIPOf(b, t, n, p) && EpsOf(b.endpoints, n) != []
    requires var v := AtHook(cluster, b, t, hook, p, st).verdict;
             v.Redirect? && v.addr == p.src && out == p.(dst := v.addr, port := v.port)
    ensures AtHook(cluster, b, t, NatPostrouting, out, AtHook(cluster, b, t, hook, p, st).state).verdict == Masqueraded
  {
    ClusterIPReaches(cluster, b, t, n, hook, p, st);
    PostroutingExactly(cluster, b, t, out, AtHook(cluster, b, t, hook, p, st).state);
  }

  ghost predicate AddressedTo(b: Books, n: PortName, p: Packet) {
    && n in b.services
    && var x := b.services[n].base;
    && p.family == (if x.clusterIP.Ip6? then IPv6 else IPv4) && p.protocol == x.protocol && p.port == x.port
    && p.dst in [x.clusterIP] + x.externalIPs + x.loadBalancerIPs
  }

  /** On the way out of and into this node, a packet to any address that a service port was created
      with is rejected if and only if it opens a connection and the port has no endpoints. */
  lemma RejectedExactly(cluster: Cluster, b: Books, t: Tables, n: PortName, hook: StaticChain, p: Packet, st: State)
    requires Synced(cluster, b, t) && AddressedTo(b, n, p) && (hook == FilterInput || hook == FilterOutput)
    ensures AtHook(cluster, b, t, hook, p, st).verdict == Rejected <==> p.ct == New && EpsOf(b.endpoints, n) == []
  {
    InOutMeaning(cluster, b, t, hook, p, st);
    NoEndpointsAt(n, b, t.elems, p.dst);
  }

  /** Forwarded packets are accepted before the no-endpoints lookup when they carry the masquerade
      mark, so there the rejection holds for unmarked packets only. */
  lemma ForwardRejectedExactly(cluster: Cluster, b: Books, t: Tables, n: PortName, p: Packet, st: State)
    requires Synced(cluster, b, t) && AddressedTo(b, n, p)
    ensures AtHook(cluster, b, t, FilterForward, p, st).verdict == Rejected <==>
              p.ct == New && EpsOf(b.endpoints, n) == [] && st.mark != 0x4000
    ensures p.ct == New && st.mark == 0x4000 ==> AtHook(cluster, b, t, FilterForward, p, st).verdict == Accepted
  {
    ForwardMeaning(cluster, b, t, p, st);
    NoEndpointsAt(n, b, t.elems, p.dst);
  }

  /** With affinity, the endpoint a packet is sent to is remembered under its index. */
  lemma Remembered(cluster: Cluster, b: Books, t: Tables, n: PortName, hook: StaticChain, p: Packet, st: State)
    returns (i: nat)
    requires Synced(cluster, b, t) && NatHook(hook) && ClusterIPOf(b, t, n, p)
    requires EpsOf(b.endpoints, n) != [] && b.services[n].nft.withAffinity
    ensures var es := EpsOf(b.endpoints, n);
            var o := AtHook(cluster, b, t, hook, p, st);
            var key := (MapOf(n, b.services[n].base), p.src);
            && i < |es| && o.verdict == To(es[i])
            && key in o.state.affinity && o.state.affinity[key] == es[i].index
  {
    i := Chosen(n, ServiceOf(b.services[n]), EpsOf(b.endpoints, n), p,
                Entering(ImageOf(t), cluster.For(p.family), p, st));
    ClusterIPReaches(cluster, b, t, n, hook, p, st);
  }

  /** A packet of a remembered client goes to the last endpoint with the remembered index. */
  lemma Recalled(cluster: Cluster, b: Books, t: Tables, n: PortName, hook: StaticChain, p: Packet, st: State)
    requires Synced(cluster, b, t) && NatHook(hook) && ClusterIPOf(b, t, n, p)
    requires EpsOf(b.endpoints, n) != [] && b.services[n].nft.withAffinity
    requires var key := (MapOf(n, b.services[n].base), p.src);
             key in st.affinity && LastWith(EpsOf(b.endpoints, n), st.affinity[key]).Some?
    ensures var es := EpsOf(b.endpoints, n);
            AtHook(cluster, b, t, hook, p, st).verdict
            == To(es[LastWith(es, st.affinity[(MapOf(n, b.services[n].base), p.src)]).value])
  {
    ClusterIPReaches(cluster, b, t, n, hook, p, st);
    assert Entering(ImageOf(t), cluster.For(p.family), p, st).affinity == st.affinity;
  }

  /** Session affinity over two packets: once a client's packet to a service's cluster IP has been
      sent to endpoint i, its next one goes there too, whatever the load balancer draws, if no later
      endpoint of the list has the same index, and otherwise to the last one that has. */
  lemma SecondPacket(cluster: Cluster, b: Books, t: Tables, n: PortName, hook: StaticChain,
                     p: Packet, st: State, hook': StaticChain, p': Packet, mark: nat) returns (i: nat, j: nat)
    requires Synced(cluster, b, t) && NatHook(hook) && NatHook(hook')
    requires ClusterIPOf(b, t, n, p) && ClusterIPOf(b, t, n, p') && p'.src == p.src
    requires EpsOf(b.endpoints, n) != [] && b.services[n].nft.withAffinity
    ensures var es := EpsOf(b.endpoints, n);
            && i <= j < |es| && es[j].index == es[i].index
            && (forall x :: j < x < |es| ==> es[x].index != es[i].index)
    ensures AtHook(cluster, b, t, hook, p, st).verdict == To(EpsOf(b.endpoints, n)[i])
    ensures AtHook(cluster, b, t, hook', p', State(mark, AtHook(cluster, b, t, hook, p, st).state.affinity)).verdict
         == To(EpsOf(b.endpoints, n)[j])
  {
    var es := EpsOf(b.endpoints, n);
    i := Remembered(cluster, b, t, n, hook, p, st);
    j := LastWith(es, es[i].index).value;
    Recalled(cluster, b, t, n, hook', p', State(mark, AtHook(cluster, b, t, hook, p, st).state.affinity));
  }

  /** The masquerade mark after NAT: set for packets from outside the cluster whose key asks for it,
      and for an endpoint that reaches itself through its own service. */
  lemma MarkedExactly(cluster: Cluster, b: Books, t: Tables, n: PortName, hook: StaticChain, p: Packet, st: State)
    requires Synced(cluster, b, t) && NatHook(hook) && ClusterIPOf(b, t, n, p) && EpsOf(b.endpoints, n) != []
    requires st.mark != 0x4000
    ensures var o := AtHook(cluster, b, t, hook, p, st);
            && o.verdict.Redirect?
            && (o.state.mark == 0x4000 <==>
                  || (!InCidr(p.src, cluster.For(p.family)) && Elem(p.family, MarkMasq, p.protocol, p.dst, p.port) in t.elems)
                  || p.src == o.verdict.addr)
  {
    ClusterIPReaches(cluster, b, t, n, hook, p, st);
  }
}
