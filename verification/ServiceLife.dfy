/** A service from its first object to its last. */
module ServiceLife {
  import opened Names
  import opened Netfilter
  import opened Ruleset
  import opened Mirror
  import opened Api
  import opened Reconciler
  import opened ServiceState
  import opened Leaks
  import opened ServiceEvents
  import opened ServiceUpdate

  /** What the successive objects of a service have to meet, all of it judged before the first. */
  ghost predicate Lived(cfg: Config, versions: seq<ServiceObject>) {
    && |versions| > 0 && !ShouldSkip(versions[0]) && DistinctPorts(versions[0].ports)
    && NoPorts(cfg, versions[0].name) && Placeable(cfg, versions[0], {})
    && forall i :: 0 < i < |versions| ==> Follows(cfg, versions[i - 1], versions[i])
  }

  ghost predicate Follows(cfg: Config, before: ServiceObject, after: ServiceObject) {
    && Comparable(before, after) && Placeable(cfg, after, AllAddrs(before))
    && ToggleOnly(cfg.endpoints, before, after)
  }

  predicate SameClusterIP(versions: seq<ServiceObject>) {
    forall i :: 0 < i < |versions| ==> versions[i - 1].clusterIP == versions[i].clusterIP
  }

  /** The state between two handlers, compared with the state before the first. */
  ghost predicate Alive(p: Proxy, cfg0: Config, svc: ServiceObject, fixed: bool)
    reads p, p.nft
  {
    && p.Valid() && InSync(p.GetConfig(), svc) && svc.name in p.svcCache && p.svcCache[svc.name] == svc
    && NeighboursKept(svc.name, cfg0, p.GetConfig())
    && (fixed && Backed(cfg0.vmaps) ==> Backed(p.GetConfig().vmaps))
  }

  method Begin(p: Proxy, versions: seq<ServiceObject>)
    requires p.Valid() && Lived(p.GetConfig(), versions)
    modifies p`svcCache, p`serviceMap, p`epRules, p.nft
    ensures old(p.nft.history) <= p.nft.history
    ensures p.svcCache == old(p.svcCache)[versions[0].name := versions[0]]
    ensures Alive(p, old(p.GetConfig()), versions[0], SameClusterIP(versions))
  {
    hide Synced, InSync, Placeable, NoPorts, DistinctPorts, NeighboursKept, Backed;
    AddService(p, versions[0]);
  }

  method Continue(p: Proxy, before: ServiceObject, after: ServiceObject, ghost cfg0: Config, ghost fixed: bool)
    requires Alive(p, cfg0, before, fixed) && Follows(cfg0, before, after)
    requires fixed ==> before.clusterIP == after.clusterIP
    modifies p`svcCache, p`serviceMap, p`epRules, p.nft
    ensures old(p.nft.history) <= p.nft.history && before.name == after.name
    ensures p.svcCache == old(p.svcCache)[after.name := after]
    ensures Alive(p, cfg0, after, fixed)
  {
    hide Synced, InSync, Placeable, Comparable, NeighboursKept, ToggleOnly, Backed;
    ghost var cfg := p.GetConfig();
    StoredProgrammable(before, after);
    PlaceableKept(after, AllAddrs(before), cfg0, cfg);
    SameEndpoints(after.name, cfg0, cfg);
    UpdateService(p, before, after);
    NeighboursKeptTwice(after.name, cfg0, cfg, p.GetConfig());
  }

  lemma SameEndpoints(service: NamespacedName, cfg0: Config, cfg1: Config)
    requires NeighboursKept(service, cfg0, cfg1)
    ensures cfg1.endpoints == cfg0.endpoints
  {}

  method End(p: Proxy, svc: ServiceObject, ghost cfg0: Config, ghost fixed: bool)
    requires Alive(p, cfg0, svc, fixed) && !ShouldSkip(svc) && DistinctPorts(svc.ports)
    modifies p`svcCache, p`serviceMap, p`epRules, p.nft
    ensures p.Valid() && old(p.nft.history) <= p.nft.history && p.svcCache == old(p.svcCache) - {svc.name}
    ensures NoPorts(p.GetConfig(), svc.name) && NeighboursKept(svc.name, cfg0, p.GetConfig())
    ensures fixed && Backed(cfg0.vmaps) ==> Backed(p.GetConfig().vmaps)
  {
    hide Synced, DistinctPorts, NeighboursKept, Backed, PortHas;
    ghost var cfg := p.GetConfig();
    DeletedAll(svc);
    DeleteService(p, svc);
    NeighboursKeptTwice(svc.name, cfg0, cfg, p.GetConfig());
  }

  /** A service that comes, changes any number of times and goes leaves no port and no element behind
      and every other service as it was.  With the cluster address fixed, and nothing else there, the
      kernel is back where it was after initialisation. */
  method Lifetime(p: Proxy, versions: seq<ServiceObject>)
    requires p.Valid() && Lived(p.GetConfig(), versions)
    modifies p`svcCache, p`serviceMap, p`epRules, p.nft
    ensures p.Valid() && old(p.nft.history) <= p.nft.history
    ensures p.svcCache == old(p.svcCache) - {versions[0].name}
    ensures NoPorts(p.GetConfig(), versions[0].name)
    ensures NeighboursKept(versions[0].name, old(p.GetConfig()), p.GetConfig())
    ensures SameClusterIP(versions) && old(p.GetConfig()) == InitialConfig(p.cluster) ==>
              ImageOf(p.nft.tables) == Compile(InitialConfig(p.cluster))
  {
    hide Synced, InSync, Placeable, DistinctPorts, NeighboursKept, Backed, Alive, Follows, NoPorts;
    ghost var cfg0, fixed := p.GetConfig(), SameClusterIP(versions);
    Begin(p, versions);
    var i := 1;
    while i < |versions|
      invariant 1 <= i <= |versions| && old(p.nft.history) <= p.nft.history
      invariant Alive(p, cfg0, versions[i - 1], fixed) && versions[i - 1].name == versions[0].name
      invariant !ShouldSkip(versions[i - 1]) && DistinctPorts(versions[i - 1].ports)
      invariant p.svcCache == old(p.svcCache)[versions[0].name := versions[i - 1]]
    {
      FollowsFacts(cfg0, versions[i - 1], versions[i]);
      Continue(p, versions[i - 1], versions[i], cfg0, fixed);
      i := i + 1;
    }
    End(p, versions[|versions| - 1], cfg0, fixed);
    if fixed && cfg0 == InitialConfig(p.cluster) {
      InitiallyBacked(p.cluster);
      RootedWhenSynced(p.cluster, p.GetBooks(), p.nft.tables);
      BackToStart(p.cluster, versions[0].name, p.GetConfig());
      Converged(p.cluster, p.GetBooks(), p.nft.tables);
    }
  }

  lemma FollowsFacts(cfg: Config, before: ServiceObject, after: ServiceObject)
    requires Follows(cfg, before, after)
    ensures !ShouldSkip(after) && DistinctPorts(after.ports) && before.name == after.name
  {}

  lemma InitiallyBacked(cluster: Cluster)
    ensures Backed(InitialConfig(cluster).vmaps)
  {}

  lemma BackToStart(cluster: Cluster, service: NamespacedName, cfg: Config)
    requires NoPorts(cfg, service) && NeighboursKept(service, InitialConfig(cluster), cfg)
    requires Rooted(cfg) && Backed(cfg.vmaps)
    ensures cfg == InitialConfig(cluster)
  {
    forall n: PortName ensures n !in cfg.services {
      assert n in cfg.services ==> n.service != service;
    }
    assert cfg.services == map[];
    NothingLeft(cfg);
  }
}
