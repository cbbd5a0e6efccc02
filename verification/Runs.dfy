/** Whole runs: any sequence of critical sections of the service thread and the endpoint thread. */
module Runs {
  import opened Names
  import opened Netfilter
  import opened Ruleset
  import opened Mirror
  import opened Steps
  import opened Api
  import opened Reconciler

  /** One critical section.  The first group is the service thread's, the second the endpoint thread's. */
  datatype Event =
    | StoreService(svc: ServiceObject)
    | ForgetService(service: NamespacedName)
    | AddPort(n: PortName, base: BaseInfo, affinity: bool)
    | DeletePort(n: PortName)
    | SetAffinity(n: PortName, affinity: bool)
    | Expose(n: PortName, k: Elem)
    | Hide(k: Elem)
    | AddEp(n: PortName, addr: EndpointAddress, port: EndpointPort)
    | DeleteEp(n: PortName, addr: EndpointAddress, port: EndpointPort)
  {
    predicate OfEndpointThread() {
      AddEp? || DeleteEp?
    }
  }

  datatype World = World(cfg: Config, cache: map<NamespacedName, ServiceObject>)

  function Removed(w: World, b: BaseInfo): set<Elem> {
    if b.service in w.cache then RemovedKeys(b, w.cache[b.service]) else {}
  }

  /** What a critical section does, with no kernel, no handles and no flags. */
  function Step(w: World, hostname: string, ev: Event): World {
    var cfg := w.cfg;
    match ev
    case StoreService(svc) => w.(cache := w.cache[svc.name := svc])
    case ForgetService(service) => w.(cache := w.cache - {service})
    case AddPort(n, b, affinity) =>
      if n in cfg.services then w
      else w.(cfg := cfg.(services := cfg.services[n := Service(b, affinity)],
                          vmaps := Exposing(n, b, PortKeys(b), cfg.vmaps)))
    case DeletePort(n) =>
      if n !in cfg.services then w
      else w.(cfg := cfg.(services := cfg.services - {n}, vmaps := cfg.vmaps - Removed(w, cfg.services[n].base)))
    case SetAffinity(n, affinity) =>
      if n !in cfg.services then w
      else w.(cfg := cfg.(services := cfg.services[n := Service(cfg.services[n].base, affinity)]))
    case Expose(n, k) =>
      if n !in cfg.services then w
      else w.(cfg := cfg.(vmaps := AddOne(n, cfg.services[n].base, cfg.vmaps, k)))
    case Hide(k) => w.(cfg := cfg.(vmaps := cfg.vmaps - {k}))
    case AddEp(n, addr, port) =>
      var es := EpsOf(cfg.endpoints, n);
      var e := Endpoint(Proxy.IdFor(addr, port), addr.nodeName == Some(hostname), |es|);
      w.(cfg := cfg.(endpoints := cfg.endpoints[n := es + [e]]))
    case DeleteEp(n, addr, port) =>
      if n !in cfg.endpoints then w
      else w.(cfg := cfg.(endpoints := WithList(cfg.endpoints, n,
                Dropped(cfg.endpoints[n], Proxy.IdFor(addr, port), addr.nodeName == Some(hostname)))))
  }

  /** The side conditions a critical section runs under. */
  ghost predicate Admissible(w: World, ev: Event) {
    var cfg := w.cfg;
    match ev
    case AddPort(n, b, _) =>
      n !in cfg.services ==>
        && SameFamily(b, EpsOf(cfg.endpoints, n))
        && forall m :: m in cfg.services ==> RejectKeys(cfg.services[m].base) !! RejectKeys(b)
    case DeletePort(n) =>
      n in cfg.services ==>
        forall k :: k in cfg.vmaps && cfg.vmaps[k] == ChainOf(n, cfg.services[n].base) ==>
          k in Removed(w, cfg.services[n].base)
    case SetAffinity(n, affinity) =>
      && n in cfg.services && cfg.services[n].affinity != affinity
      && (affinity ==> EpsOf(cfg.endpoints, n) != [])
    case Expose(n, k) =>
      n in cfg.services && k.set_ != NoEndpoints && k.family == TableFamily(cfg.services[n].base)
    case Hide(k) => k.set_ != NoEndpoints
    case AddEp(n, addr, port) =>
      && (forall i :: 0 <= i < |EpsOf(cfg.endpoints, n)| ==>
            EpsOf(cfg.endpoints, n)[i].id != Proxy.IdFor(addr, port))
      && (n in cfg.services ==> FamilyOf(addr.ip) == TableFamily(cfg.services[n].base))
    case _ => true
  }

  function Run(w: World, hostname: string, evs: seq<Event>): World
    decreases evs
  {
    if evs == [] then w else Run(Step(w, hostname, evs[0]), hostname, evs[1..])
  }

  ghost predicate AllAdmissible(w: World, hostname: string, evs: seq<Event>)
    decreases evs
  {
    evs == [] || (Admissible(w, evs[0]) && AllAdmissible(Step(w, hostname, evs[0]), hostname, evs[1..]))
  }

  ghost function WorldOf(p: Proxy): World
    reads p, p.nft
  {
    World(p.GetConfig(), p.svcCache)
  }

  /** The critical sections of the service thread. */
  method ApplyService(p: Proxy, ev: Event)
    requires p.Valid() && Admissible(WorldOf(p), ev) && !ev.OfEndpointThread()
    modifies p`svcCache, p`serviceMap, p`epRules, p.nft
    ensures p.Valid() && old(p.nft.history) <= p.nft.history
    ensures WorldOf(p) == Step(old(WorldOf(p)), p.hostname, ev)
  {
    hide Synced, PortKeys, RejectKeys, RemovedKeys, Exposing;
    ServicesListed(p);
    match ev
    case StoreService(svc) =>
      p.svcCache := p.svcCache[svc.name := svc];
    case ForgetService(service) =>
      p.svcCache := p.svcCache - {service};
    case AddPort(n, b, affinity) =>
      p.AddServicePort(n, b, affinity);
    case DeletePort(n) =>
      DetachableInWorld(p, n);
      p.DeleteServicePort(n);
    case SetAffinity(n, affinity) =>
      if affinity {
        p.AffinityOn(n);
      } else {
        p.AffinityOff(n);
      }
    case Expose(n, k) =>
      p.AddToSet(n, k);
    case Hide(k) =>
      p.RemoveFromSet(k);
  }

  /** The critical sections of the endpoint thread. */
  method ApplyEndpoint(p: Proxy, ev: Event)
    requires p.Valid() && Admissible(WorldOf(p), ev) && ev.OfEndpointThread()
    modifies p`serviceMap, p`endpointsMap, p`epRules, p.nft
    ensures p.Valid() && old(p.nft.history) <= p.nft.history
    ensures WorldOf(p) == Step(old(WorldOf(p)), p.hostname, ev)
  {
    hide Synced;
    ServicesListed(p);
    match ev
    case AddEp(n, addr, port) =>
      p.AddEndpoint(n, addr, port);
    case DeleteEp(n, addr, port) =>
      if n in p.endpointsMap {
        p.DeleteEndpoint(n, addr, port, p.endpointsMap[n]);
      }
  }

  /** Every critical section refines its step and keeps the invariant. */
  method Apply(p: Proxy, ev: Event)
    requires p.Valid() && Admissible(WorldOf(p), ev)
    modifies p, p.nft
    ensures p.Valid() && old(p.nft.history) <= p.nft.history
    ensures WorldOf(p) == Step(old(WorldOf(p)), p.hostname, ev)
    ensures p.epCache == old(p.epCache) && p.sliceCache == old(p.sliceCache)
  {
    hide Synced, Step, Admissible, WorldOf;
    if ev.OfEndpointThread() {
      ApplyEndpoint(p, ev);
    } else {
      ApplyService(p, ev);
    }
  }

  lemma ServicesListed(p: Proxy)
    ensures p.GetConfig().services.Keys == p.serviceMap.Keys
    ensures forall m :: m in p.serviceMap ==> p.GetConfig().services[m] == ServiceOf(p.serviceMap[m])
    ensures p.GetConfig().endpoints == p.endpointsMap
  {}

  lemma DetachableInWorld(p: Proxy, n: PortName)
    requires p.Valid() && Admissible(WorldOf(p), DeletePort(n))
    ensures n in p.serviceMap ==> p.Detachable(n)
  {
    if n in p.serviceMap {
      var c := ChainOf(n, p.serviceMap[n].base);
      forall k | k in p.nft.tables.elems && p.nft.tables.elems[k] == c ensures k in p.GetConfig().vmaps {
        assert TypedElem(k, c);
      }
    }
  }

  /** In every reachable state of every interleaving: the kernel is the from-scratch compilation of
      the state that the steps add up to, and it never went through a dangling reference. */
  method Execute(p: Proxy, evs: seq<Event>)
    requires p.Valid() && AllAdmissible(WorldOf(p), p.hostname, evs)
    modifies p, p.nft
    ensures p.Valid() && old(p.nft.history) <= p.nft.history
    ensures WorldOf(p) == Run(old(WorldOf(p)), p.hostname, evs)
    ensures ImageOf(p.nft.tables) == Compile(Run(old(WorldOf(p)), p.hostname, evs).cfg)
    ensures forall i :: 0 <= i < |p.nft.history| ==> Closed(p.nft.history[i])
  {
    for i := 0 to |evs|
      invariant p.Valid() && old(p.nft.history) <= p.nft.history
      invariant AllAdmissible(WorldOf(p), p.hostname, evs[i..])
      invariant Run(WorldOf(p), p.hostname, evs[i..]) == Run(old(WorldOf(p)), p.hostname, evs)
    {
      assert evs[i..][0] == evs[i] && evs[i..][1..] == evs[i + 1..];
      Apply(p, evs[i]);
    }
    Converged(p.cluster, p.GetBooks(), p.nft.tables);
  }

  function Select(evs: seq<Event>, endpointThread: bool): seq<Event> {
    if evs == [] then []
    else if evs[0].OfEndpointThread() == endpointThread then [evs[0]] + Select(evs[1..], endpointThread)
    else Select(evs[1..], endpointThread)
  }

  /** The part of the world that each thread works on. */
  function Merge(s: World, e: World): World {
    s.(cfg := s.cfg.(endpoints := e.cfg.endpoints))
  }

  /** The threads work on disjoint parts: what one does is independent of where the other one is. */
  lemma StepSeparates(s: World, e: World, hostname: string, ev: Event)
    ensures ev.OfEndpointThread() ==> Step(Merge(s, e), hostname, ev) == Merge(s, Step(e, hostname, ev))
    ensures !ev.OfEndpointThread() ==> Step(Merge(s, e), hostname, ev) == Merge(Step(s, hostname, ev), e)
  {}

  lemma {:induction false} RunSeparates(s: World, e: World, hostname: string, evs: seq<Event>)
    ensures Run(Merge(s, e), hostname, evs)
         == Merge(Run(s, hostname, Select(evs, false)), Run(e, hostname, Select(evs, true)))
    decreases evs
  {
    if evs != [] {
      StepSeparates(s, e, hostname, evs[0]);
      var rest := evs[1..];
      if evs[0].OfEndpointThread() {
        RunSeparates(s, Step(e, hostname, evs[0]), hostname, rest);
        assert Select(evs, true) == [evs[0]] + Select(rest, true);
        assert ([evs[0]] + Select(rest, true))[1..] == Select(rest, true);
      } else {
        RunSeparates(Step(s, hostname, evs[0]), e, hostname, rest);
        assert Select(evs, false) == [evs[0]] + Select(rest, false);
        assert ([evs[0]] + Select(rest, false))[1..] == Select(rest, false);
      }
    }
  }

  /** Confluence: interleavings of the same two threads end in the same kernel state. */
  lemma Confluence(w: World, hostname: string, evs: seq<Event>, evs': seq<Event>)
    requires Select(evs, false) == Select(evs', false) && Select(evs, true) == Select(evs', true)
    ensures Run(w, hostname, evs) == Run(w, hostname, evs')
    ensures Compile(Run(w, hostname, evs).cfg) == Compile(Run(w, hostname, evs').cfg)
  {
    assert Merge(w, w) == w;
    RunSeparates(w, w, hostname, evs);
    RunSeparates(w, w, hostname, evs');
  }

  /** A snapshot of an endpoint list stays current while only the service thread runs. */
  lemma {:induction false} SnapshotCurrent(w: World, hostname: string, evs: seq<Event>, n: PortName)
    requires forall i :: 0 <= i < |evs| ==> !evs[i].OfEndpointThread()
    ensures EpsOf(Run(w, hostname, evs).cfg.endpoints, n) == EpsOf(w.cfg.endpoints, n)
    decreases evs
  {
    if evs != [] {
      StepSeparates(w, w, hostname, evs[0]);
      SnapshotCurrent(Step(w, hostname, evs[0]), hostname, evs[1..], n);
    }
  }
}
