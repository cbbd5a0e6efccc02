/** UpdateService: the last known object of a service against the new one, in five steps. */
module ServiceUpdate {
  import opened Names
  import opened Netfilter
  import opened Ruleset
  import opened Mirror
  import opened Api
  import opened Reconciler
  import opened Runs
  import opened ServiceState
  import opened Leaks
  import opened ServiceEvents

  /** The search takes ports for the same if they share their name, or their protocol and number. */
  predicate Related(p: ServicePort, q: ServicePort) {
    p.name == q.name || SamePort(p, q)
  }

  method IsServicePortInPorts(ports: seq<ServicePort>, q: ServicePort) returns (id: nat, found: bool)
    ensures found <==> exists x :: 0 <= x < |ports| && Related(ports[x], q)
    ensures found ==> id < |ports| && Related(ports[id], q)
    ensures found && (exists x :: 0 <= x < |ports| && ports[x].name == q.name) ==>
              ports[id].name == q.name && forall x :: 0 <= x < id ==> ports[x].name != q.name
    ensures found && (forall x :: 0 <= x < |ports| ==> ports[x].name != q.name) ==>
              forall x :: 0 <= x < id ==> !SamePort(ports[x], q)
    ensures !found ==> id == 0
  {
    for i := 0 to |ports|
      invariant forall x :: 0 <= x < i ==> ports[x].name != q.name
    {
      if q.name == ports[i].name {
        return i, true;
      }
    }
    for i := 0 to |ports|
      invariant forall x :: 0 <= x < i ==> !SamePort(ports[x], q)
    {
      if q.protocol == ports[i].protocol && q.port == ports[i].port {
        return i, true;
      }
    }
    return 0, false;
  }

  /** Each port is related to at most one port of the other object. */
  predicate Bijective(ps: seq<ServicePort>, qs: seq<ServicePort>) {
    && (forall x, y, j :: 0 <= x < |ps| && 0 <= y < |ps| && 0 <= j < |qs| && Related(ps[x], qs[j]) && Related(ps[y], qs[j]) ==> x == y)
    && (forall x, i, j :: 0 <= x < |ps| && 0 <= i < |qs| && 0 <= j < |qs| && Related(ps[x], qs[i]) && Related(ps[x], qs[j]) ==> i == j)
  }

  predicate NoNodePorts(ports: seq<ServicePort>) {
    forall i :: 0 <= i < |ports| ==> ports[i].nodePort == 0
  }

  /** A new port as the first step leaves it: as stored if it has not changed, freshly added if it has. */
  function Settled(stored: ServiceObject, svc: ServiceObject, q: ServicePort): PortState {
    if q in stored.ports then StateOf(stored, q) else StateOf(svc, q)
  }

  /** A stored port that none of the first i new ports has taken the place of. */
  predicate Untouched(p: ServicePort, qs: seq<ServicePort>, i: nat)
    requires i <= |qs|
  {
    forall j :: 0 <= j < i ==> !Related(p, qs[j])
  }

  predicate IsNew(svc: ServiceObject, i: nat, n: PortName)
    requires i <= |svc.ports|
  {
    exists j :: 0 <= j < i && n == PortNameOf(svc.name, svc.ports[j])
  }

  predicate IsWaiting(stored: ServiceObject, svc: ServiceObject, i: nat, t: nat, n: PortName)
    requires i <= |svc.ports| && t <= |stored.ports|
  {
    exists x :: t <= x < |stored.ports| && Untouched(stored.ports[x], svc.ports, i) && n == PortNameOf(svc.name, stored.ports[x])
  }

  ghost predicate NewSettled(stored: ServiceObject, svc: ServiceObject, i: nat, plan: Plan)
    requires i <= |svc.ports|
  {
    forall j :: 0 <= j < i ==>
      var n := PortNameOf(svc.name, svc.ports[j]); n in plan && plan[n] == Settled(stored, svc, svc.ports[j])
  }

  ghost predicate OldWaiting(stored: ServiceObject, svc: ServiceObject, i: nat, t: nat, plan: Plan)
    requires i <= |svc.ports| && t <= |stored.ports|
  {
    forall x :: t <= x < |stored.ports| && Untouched(stored.ports[x], svc.ports, i) ==>
      var n := PortNameOf(svc.name, stored.ports[x]); n in plan && plan[n] == StateOf(stored, stored.ports[x])
  }

  ghost predicate NoneElse(stored: ServiceObject, svc: ServiceObject, i: nat, t: nat, plan: Plan)
    requires i <= |svc.ports| && t <= |stored.ports|
  {
    forall n :: n in plan ==> IsNew(svc, i, n) || IsWaiting(stored, svc, i, t, n)
  }

  /** The ports after the first i new ones have been dealt with, and the first t stored ones swept. */
  ghost predicate Reconciled(stored: ServiceObject, svc: ServiceObject, i: nat, t: nat, plan: Plan)
    requires i <= |svc.ports| && t <= |stored.ports|
  {
    NewSettled(stored, svc, i, plan) && OldWaiting(stored, svc, i, t, plan) && NoneElse(stored, svc, i, t, plan)
  }

  /** What the handler relies on about the two objects themselves. */
  predicate Comparable(stored: ServiceObject, svc: ServiceObject) {
    && stored.name == svc.name && !ShouldSkip(stored) && !ShouldSkip(svc)
    && DistinctPorts(stored.ports) && DistinctPorts(svc.ports) && Bijective(stored.ports, svc.ports)
    && NoNodePorts(stored.ports) && NoNodePorts(svc.ports)
    && OneFamily(stored, FamilyOf(svc.clusterIP)) && OneFamily(svc, FamilyOf(svc.clusterIP))
  }

  lemma PlanPort(stored: ServiceObject, svc: ServiceObject, i: nat, t: nat, plan: Plan, n: PortName) returns (q: ServicePort)
    requires i <= |svc.ports| && t <= |stored.ports| && Reconciled(stored, svc, i, t, plan) && n in plan
    ensures n == PortNameOf(svc.name, q) && plan[n].port == q
    ensures q in svc.ports[..i] || (q in stored.ports && Untouched(q, svc.ports, i))
  {
    if IsNew(svc, i, n) {
      var j :| 0 <= j < i && n == PortNameOf(svc.name, svc.ports[j]);
      q := svc.ports[j];
    } else {
      var x :| t <= x < |stored.ports| && Untouched(stored.ports[x], svc.ports, i) && n == PortNameOf(svc.name, stored.ports[x]);
      q := stored.ports[x];
    }
  }

  lemma ReconciledDistinct(stored: ServiceObject, svc: ServiceObject, i: nat, t: nat, plan: Plan)
    requires i <= |svc.ports| && t <= |stored.ports| && Reconciled(stored, svc, i, t, plan) && Comparable(stored, svc)
    ensures DistinctPlan(plan)
  {
    forall n, m | n in plan && m in plan && n != m ensures !SamePort(plan[n].port, plan[m].port) {
      var p := PlanPort(stored, svc, i, t, plan, n);
      var q := PlanPort(stored, svc, i, t, plan, m);
      assert p != q;
      assert forall x, y :: 0 <= x < i && 0 <= y < |stored.ports| && Untouched(stored.ports[y], svc.ports, i) ==>
          !Related(stored.ports[y], svc.ports[x]);
    }
  }

  lemma InitiallyReconciled(stored: ServiceObject, svc: ServiceObject)
    requires Comparable(stored, svc)
    ensures Reconciled(stored, svc, 0, 0, PlanFor(stored))
  {
    PlanUpToHas(stored, |stored.ports|);
  }

  lemma IsNewNext(svc: ServiceObject, i: nat, n: PortName)
    requires i < |svc.ports|
    ensures IsNew(svc, i + 1, n) <==> IsNew(svc, i, n) || n == PortNameOf(svc.name, svc.ports[i])
  {}

  /** A new port that matches no stored one is in nobody's way. */
  lemma UnmatchedIsNew(stored: ServiceObject, svc: ServiceObject, i: nat, plan: Plan)
    requires i < |svc.ports| && Comparable(stored, svc) && Reconciled(stored, svc, i, 0, plan)
    requires forall x :: 0 <= x < |stored.ports| ==> !Related(stored.ports[x], svc.ports[i])
    ensures PortNameOf(svc.name, svc.ports[i]) !in plan
    ensures forall m :: m in plan ==> !SamePort(plan[m].port, svc.ports[i])
  {
    forall m | m in plan ensures m != PortNameOf(svc.name, svc.ports[i]) && !SamePort(plan[m].port, svc.ports[i]) {
      var p := PlanPort(stored, svc, i, 0, plan, m);
      hide Reconciled, Bijective;
    }
  }

  lemma UnmatchedReconciled(stored: ServiceObject, svc: ServiceObject, i: nat, plan: Plan)
    requires i < |svc.ports| && Comparable(stored, svc) && Reconciled(stored, svc, i, 0, plan)
    requires forall x :: 0 <= x < |stored.ports| ==> !Related(stored.ports[x], svc.ports[i])
    requires PortNameOf(svc.name, svc.ports[i]) !in plan
    ensures var q := svc.ports[i];
            Reconciled(stored, svc, i + 1, 0, plan[PortNameOf(svc.name, q) := StateOf(svc, q)])
  {
    var q := svc.ports[i];
    var now := plan[PortNameOf(svc.name, q) := StateOf(svc, q)];
    assert forall x :: 0 <= x < |stored.ports| ==>
        (Untouched(stored.ports[x], svc.ports, i) <==> Untouched(stored.ports[x], svc.ports, i + 1));
    assert q !in stored.ports;
    assert NewSettled(stored, svc, i + 1, now);
    forall n | n in now ensures IsNew(svc, i + 1, n) || IsWaiting(stored, svc, i + 1, 0, n) {
      IsNewNext(svc, i, n);
    }
  }

  /** A stored port that a new one matches is still there, and nothing else is in the new one's way. */
  lemma MatchedIsThere(stored: ServiceObject, svc: ServiceObject, i: nat, plan: Plan, x: nat)
    requires i < |svc.ports| && Comparable(stored, svc) && Reconciled(stored, svc, i, 0, plan)
    requires x < |stored.ports| && Related(stored.ports[x], svc.ports[i])
    ensures Untouched(stored.ports[x], svc.ports, i)
    ensures var n := PortNameOf(svc.name, stored.ports[x]);
            && n in plan && plan[n] == StateOf(stored, stored.ports[x])
            && PortNameOf(svc.name, svc.ports[i]) !in plan - {n}
            && (forall m :: m in plan - {n} ==> !SamePort(plan[m].port, svc.ports[i]))
  {
    var n := PortNameOf(svc.name, stored.ports[x]);
    assert Untouched(stored.ports[x], svc.ports, i);
    forall m | m in plan - {n} ensures m != PortNameOf(svc.name, svc.ports[i]) && !SamePort(plan[m].port, svc.ports[i]) {
      var p := PlanPort(stored, svc, i, 0, plan, m);
      hide Reconciled;
    }
  }

  /** A new port that is as it was takes the place of its stored self. */
  lemma UnchangedReconciled(stored: ServiceObject, svc: ServiceObject, i: nat, plan: Plan, x: nat)
    requires i < |svc.ports| && Comparable(stored, svc) && Reconciled(stored, svc, i, 0, plan)
    requires x < |stored.ports| && stored.ports[x] == svc.ports[i] && Untouched(stored.ports[x], svc.ports, i)
    ensures Reconciled(stored, svc, i + 1, 0, plan)
  {
    OthersUntouched(stored, svc, i, x);
    forall n | n in plan ensures IsNew(svc, i + 1, n) || IsWaiting(stored, svc, i + 1, 0, n) {
      IsNewNext(svc, i, n);
    }
  }

  lemma OthersUntouched(stored: ServiceObject, svc: ServiceObject, i: nat, x: nat)
    requires i < |svc.ports| && Bijective(stored.ports, svc.ports)
    requires x < |stored.ports| && Related(stored.ports[x], svc.ports[i])
    ensures forall y :: 0 <= y < |stored.ports| ==>
              (Untouched(stored.ports[y], svc.ports, i + 1) <==> Untouched(stored.ports[y], svc.ports, i) && y != x)
  {}

  lemma ReplacedReconciled(stored: ServiceObject, svc: ServiceObject, i: nat, plan: Plan, x: nat)
    requires i < |svc.ports| && Comparable(stored, svc) && Reconciled(stored, svc, i, 0, plan)
    requires x < |stored.ports| && Related(stored.ports[x], svc.ports[i]) && Untouched(stored.ports[x], svc.ports, i)
    requires stored.ports[x] != svc.ports[i]
    ensures var n, q := PortNameOf(svc.name, stored.ports[x]), svc.ports[i];
            Reconciled(stored, svc, i + 1, 0, (plan - {n})[PortNameOf(svc.name, q) := StateOf(svc, q)])
  {
    var n, q := PortNameOf(svc.name, stored.ports[x]), svc.ports[i];
    var now := (plan - {n})[PortNameOf(svc.name, q) := StateOf(svc, q)];
    OthersUntouched(stored, svc, i, x);
    assert q !in stored.ports;
    assert NewSettled(stored, svc, i + 1, now);
    assert OldWaiting(stored, svc, i + 1, 0, now);
    forall m | m in now ensures IsNew(svc, i + 1, m) || IsWaiting(stored, svc, i + 1, 0, m) {
      IsNewNext(svc, i, m);
    }
  }

  lemma IsWaitingNext(stored: ServiceObject, svc: ServiceObject, t: nat, n: PortName)
    requires t < |stored.ports|
    ensures IsWaiting(stored, svc, |svc.ports|, t, n) <==>
              || IsWaiting(stored, svc, |svc.ports|, t + 1, n)
              || (Untouched(stored.ports[t], svc.ports, |svc.ports|) && n == PortNameOf(svc.name, stored.ports[t]))
  {}

  /** Sweeping the next stored port: it goes unless a new port matches it. */
  lemma SweptNext(stored: ServiceObject, svc: ServiceObject, t: nat, plan: Plan)
    requires t < |stored.ports| && Comparable(stored, svc) && Reconciled(stored, svc, |svc.ports|, t, plan)
    ensures var p := stored.ports[t];
            var n := PortNameOf(svc.name, p);
            if Untouched(p, svc.ports, |svc.ports|)
            then n in plan && plan[n] == StateOf(stored, p) && Reconciled(stored, svc, |svc.ports|, t + 1, plan - {n})
            else Reconciled(stored, svc, |svc.ports|, t + 1, plan)
  {
    var p := stored.ports[t];
    var n := PortNameOf(svc.name, p);
    var now := if Untouched(p, svc.ports, |svc.ports|) then plan - {n} else plan;
    assert NewSettled(stored, svc, |svc.ports|, now);
    assert OldWaiting(stored, svc, |svc.ports|, t + 1, now);
    forall m | m in now ensures IsNew(svc, |svc.ports|, m) || IsWaiting(stored, svc, |svc.ports|, t + 1, m) {
      IsWaitingNext(stored, svc, t, m);
    }
  }

  // Step 1: ports -------------------------------------------------------------------------------

  /** An update in progress: the ports as planned, other services as in `cfg0`. */
  ghost predicate Underway(p: Proxy, stored: ServiceObject, svc: ServiceObject, cfg0: Config, plan: Plan)
    reads p, p.nft
  {
    && p.Valid() && Holds(p.GetConfig(), svc.name, FamilyOf(svc.clusterIP), NodePortsOf(stored.ports), plan)
    && Kept(stored, svc, cfg0, p.GetConfig()) && Fixed(p, stored, svc, cfg0) && Within(stored, svc, plan)
  }

  /** The addresses that the two objects have in one verdict map. */
  function Either(stored: ServiceObject, svc: ServiceObject, s: SetName): set<Address> {
    AddrsOf(stored).For(s) + AddrsOf(svc).For(s)
  }

  ghost predicate Within(stored: ServiceObject, svc: ServiceObject, plan: Plan) {
    forall n, s :: n in plan ==> plan[n].addrs.For(s) <= Either(stored, svc, s)
  }

  /** No address changes its kind, or has two, and nobody else has one of them under a stored port. */
  ghost predicate Coherent(stored: ServiceObject, svc: ServiceObject, cfg: Config) {
    && stored.clusterIP == svc.clusterIP
    && (forall s, r :: IpSet(s) && IpSet(r) && s != r ==> Either(stored, svc, s) !! Either(stored, svc, r))
    && KeysFree(cfg, svc.name, FamilyOf(svc.clusterIP), stored.ports, AllAddrs(stored))
  }

  /** Other services are untouched.  If the cluster address stays, masquerade elements keep their address
      elements and, addresses being coherent, address elements their masquerade elements. */
  ghost predicate Kept(stored: ServiceObject, svc: ServiceObject, cfg0: Config, cfg1: Config) {
    && NeighboursKept(svc.name, cfg0, cfg1)
    && (stored.clusterIP == svc.clusterIP && Backed(cfg0.vmaps) ==> Backed(cfg1.vmaps))
    && (Coherent(stored, svc, cfg0) && Covered(cfg0.vmaps) ==> Covered(cfg1.vmaps))
  }

  lemma KeptNext(stored: ServiceObject, svc: ServiceObject, cfg0: Config, cfg1: Config, cfg2: Config)
    requires Kept(stored, svc, cfg0, cfg1) && Kept(stored, svc, cfg1, cfg2)
    ensures Kept(stored, svc, cfg0, cfg2)
  {
    NeighboursKeptTwice(svc.name, cfg0, cfg1, cfg2);
    hide Backed, Covered, NeighboursKept;
    if Coherent(stored, svc, cfg0) {
      KeysFreeKept(cfg0, cfg1, svc.name, FamilyOf(svc.clusterIP), stored.ports, AllAddrs(stored));
    }
  }

  lemma CarriedIsKept(stored: ServiceObject, svc: ServiceObject, cfg0: Config, cfg1: Config)
    requires Carried(svc.name, cfg0, cfg1) && (Coherent(stored, svc, cfg0) && Covered(cfg0.vmaps) ==> Covered(cfg1.vmaps))
    ensures Kept(stored, svc, cfg0, cfg1)
  {}

  lemma WithinAdded(stored: ServiceObject, svc: ServiceObject, plan: Plan, n: PortName, q: ServicePort)
    requires Within(stored, svc, plan)
    ensures Within(stored, svc, plan[n := StateOf(svc, q)])
  {
    hide AddrsOf;
  }

  lemma WithinDropped(stored: ServiceObject, svc: ServiceObject, plan: Plan, n: PortName)
    requires Within(stored, svc, plan)
    ensures Within(stored, svc, plan - {n})
  {
    hide Either;
  }

  /** What does not change during an update. */
  ghost predicate Fixed(p: Proxy, stored: ServiceObject, svc: ServiceObject, cfg0: Config)
    reads p`svcCache
  {
    && Comparable(stored, svc) && Placeable(cfg0, svc, AllAddrs(stored))
    && svc.name in p.svcCache && p.svcCache[svc.name] == stored
  }

  lemma AddableNow(cfg0: Config, cfg: Config, stored: ServiceObject, svc: ServiceObject, i: nat, plan: Plan)
    requires i < |svc.ports| && Comparable(stored, svc) && Placeable(cfg0, svc, AllAddrs(stored))
    requires Kept(stored, svc, cfg0, cfg)
    requires Holds(cfg, svc.name, FamilyOf(svc.clusterIP), NodePortsOf(stored.ports), plan)
    requires PortNameOf(svc.name, svc.ports[i]) !in plan
    requires forall m :: m in plan ==> !SamePort(plan[m].port, svc.ports[i])
    ensures Addable(cfg, FamilyOf(svc.clusterIP), NodePortsOf(stored.ports), plan, svc, svc.ports[i])
    ensures Clear(cfg, svc, svc.ports[i])
  {
    PlaceableKept(svc, AllAddrs(stored), cfg0, cfg);
    hide NeighboursKept, Bijective, DistinctPorts, Free, OneFamily;
    assert Clear(cfg, svc, svc.ports[i]);
    hide Clear;
    assert forall k: Elem :: IpSet(k.set_) && k.addr in AddrsOf(svc).For(k.set_) ==> k.addr in AllAddrs(svc);
  }

  method AddNew(p: Proxy, ghost stored: ServiceObject, svc: ServiceObject, i: nat, ghost plan: Plan, ghost cfg0: Config)
    requires i < |svc.ports| && Underway(p, stored, svc, cfg0, plan)
    requires PortNameOf(svc.name, svc.ports[i]) !in plan
    requires forall m :: m in plan ==> !SamePort(plan[m].port, svc.ports[i])
    modifies p`serviceMap, p`epRules, p.nft
    ensures old(p.nft.history) <= p.nft.history
    ensures Underway(p, stored, svc, cfg0, plan[PortNameOf(svc.name, svc.ports[i]) := StateOf(svc, svc.ports[i])])
  {
    hide Synced, Holds, Carried, Kept, Placeable, Comparable, Addable, Clear, Within, Covered, Coherent, AddedConfig;
    ghost var cfg := p.GetConfig();
    WithinAdded(stored, svc, plan, PortNameOf(svc.name, svc.ports[i]), svc.ports[i]);
    AddableNow(cfg0, cfg, stored, svc, i, plan);
    InstallPort(p, svc, svc.ports[i], FamilyOf(svc.clusterIP), NodePortsOf(stored.ports), plan, true);
    CarriedIsKept(stored, svc, cfg, p.GetConfig());
    KeptNext(stored, svc, cfg0, cfg, p.GetConfig());
  }

  lemma StoredProgrammable(stored: ServiceObject, svc: ServiceObject)
    requires Comparable(stored, svc)
    ensures stored.name == svc.name && stored.clusterIP != NoAddress && svc.clusterIP != NoAddress
    ensures DistinctPorts(svc.ports)
  {}

  method DropOld(p: Proxy, stored: ServiceObject, ghost svc: ServiceObject, x: nat, ghost plan: Plan, ghost cfg0: Config)
    requires x < |stored.ports| && Underway(p, stored, svc, cfg0, plan) && DistinctPlan(plan)
    requires PortNameOf(stored.name, stored.ports[x]) in plan
    requires plan[PortNameOf(stored.name, stored.ports[x])] == StateOf(stored, stored.ports[x])
    modifies p`serviceMap, p`epRules, p.nft
    ensures old(p.nft.history) <= p.nft.history
    ensures Underway(p, stored, svc, cfg0, plan - {PortNameOf(stored.name, stored.ports[x])})
  {
    hide Synced, Holds, Carried, Kept, Placeable, Comparable, DistinctPlan, AddrsOf, Within, Covered, KeysFree, AllAddrs;
    ghost var cfg := p.GetConfig();
    StoredProgrammable(stored, svc);
    WithinDropped(stored, svc, plan, PortNameOf(stored.name, stored.ports[x]));
    if Coherent(stored, svc, cfg) {
      KeysFreeOne(cfg, svc.name, FamilyOf(svc.clusterIP), stored.ports, AllAddrs(stored), stored.ports[x]);
    }
    UninstallPort(p, stored, PortNameOf(stored.name, stored.ports[x]), FamilyOf(svc.clusterIP), NodePortsOf(stored.ports), plan);
    CarriedIsKept(stored, svc, cfg, p.GetConfig());
    KeptNext(stored, svc, cfg0, cfg, p.GetConfig());
  }

  method ReplacePort(p: Proxy, stored: ServiceObject, svc: ServiceObject, x: nat, i: nat, ghost plan: Plan, ghost cfg0: Config)
    returns (ghost now: Plan)
    requires i < |svc.ports| && Underway(p, stored, svc, cfg0, plan) && Reconciled(stored, svc, i, 0, plan)
    requires x < |stored.ports| && Related(stored.ports[x], svc.ports[i]) && stored.ports[x] != svc.ports[i]
    modifies p`serviceMap, p`epRules, p.nft
    ensures old(p.nft.history) <= p.nft.history
    ensures Underway(p, stored, svc, cfg0, now) && Reconciled(stored, svc, i + 1, 0, now)
  {
    hide Synced, Holds, Carried, Kept, Placeable, Comparable, Reconciled, DistinctPlan, Untouched, Within;
    StoredProgrammable(stored, svc);
    MatchedIsThere(stored, svc, i, plan, x);
    ReconciledDistinct(stored, svc, i, 0, plan);
    ReplacedReconciled(stored, svc, i, plan, x);
    DropOld(p, stored, svc, x, plan, cfg0);
    now := plan - {PortNameOf(stored.name, stored.ports[x])};
    AddNew(p, stored, svc, i, now, cfg0);
    now := now[PortNameOf(svc.name, svc.ports[i]) := StateOf(svc, svc.ports[i])];
  }

  /** What is installed of a service is what is planned. */
  lemma InstalledIsPlanned(p: Proxy, stored: ServiceObject, svc: ServiceObject, cfg0: Config, plan: Plan, n: PortName)
    requires Underway(p, stored, svc, cfg0, plan) && n.service == svc.name
    ensures n in p.serviceMap <==> n in plan
  {
    ServicesListed(p);
  }

  lemma SameButNodePort(stored: ServiceObject, svc: ServiceObject, x: nat, i: nat)
    requires Comparable(stored, svc) && x < |stored.ports| && i < |svc.ports|
    ensures stored.ports[x] == svc.ports[i] <==>
              stored.ports[x].name == svc.ports[i].name && SamePort(stored.ports[x], svc.ports[i])
  {}

  /** Brings one new port in: added if unknown, replaced if changed, left alone if not. */
  method ProcessServicePort(p: Proxy, stored: ServiceObject, svc: ServiceObject, i: nat, ghost plan: Plan, ghost cfg0: Config)
    returns (ghost now: Plan)
    requires i < |svc.ports| && Underway(p, stored, svc, cfg0, plan) && Reconciled(stored, svc, i, 0, plan)
    modifies p`serviceMap, p`epRules, p.nft
    ensures old(p.nft.history) <= p.nft.history
    ensures Underway(p, stored, svc, cfg0, now) && Reconciled(stored, svc, i + 1, 0, now)
  {
    hide Synced, Holds, Carried, Kept, Placeable, Comparable, Reconciled, Untouched, Within;
    var q := svc.ports[i];
    var n := PortNameOf(svc.name, q);
    var id, found := IsServicePortInPorts(stored.ports, q);
    var ok := n in p.serviceMap;
    InstalledIsPlanned(p, stored, svc, cfg0, plan, n);
    StoredProgrammable(stored, svc);
    if !found {
      UnmatchedIsNew(stored, svc, i, plan);
      UnmatchedReconciled(stored, svc, i, plan);
    }
    if !found && !ok {
      AddNew(p, stored, svc, i, plan, cfg0);
      return plan[n := StateOf(svc, q)];
    }
    var before := stored.ports[id];
    SameButNodePort(stored, svc, id, i);
    if before.name != q.name {
      now := ReplacePort(p, stored, svc, id, i, plan, cfg0);
      return;
    }
    if before.protocol != q.protocol || before.port != q.port {
      now := ReplacePort(p, stored, svc, id, i, plan, cfg0);
    } else {
      now := plan;
      MatchedIsThere(stored, svc, i, plan, id);
      UnchangedReconciled(stored, svc, i, plan, id);
    }
  }

  lemma MatchIsSymmetric(p: ServicePort, q: ServicePort)
    ensures Related(p, q) <==> Related(q, p)
  {}

  /** Deletes a stored port if no new port matches it. */
  method SweepServicePort(p: Proxy, stored: ServiceObject, svc: ServiceObject, t: nat, ghost plan: Plan, ghost cfg0: Config)
    returns (ghost now: Plan)
    requires t < |stored.ports| && Underway(p, stored, svc, cfg0, plan) && Reconciled(stored, svc, |svc.ports|, t, plan)
    modifies p`serviceMap, p`epRules, p.nft
    ensures old(p.nft.history) <= p.nft.history
    ensures Underway(p, stored, svc, cfg0, now) && Reconciled(stored, svc, |svc.ports|, t + 1, now)
  {
    hide Synced, Holds, Carried, Kept, Placeable, Comparable, Reconciled, DistinctPlan, Within;
    StoredProgrammable(stored, svc);
    SweptNext(stored, svc, t, plan);
    ReconciledDistinct(stored, svc, |svc.ports|, t, plan);
    var id, found := IsServicePortInPorts(svc.ports, stored.ports[t]);
    forall j | 0 <= j < |svc.ports| ensures Related(stored.ports[t], svc.ports[j]) <==> Related(svc.ports[j], stored.ports[t]) {
      MatchIsSymmetric(stored.ports[t], svc.ports[j]);
    }
    now := plan;
    if !found {
      DropOld(p, stored, svc, t, plan, cfg0);
      now := plan - {PortNameOf(stored.name, stored.ports[t])};
    }
  }

  /** Step 1: afterwards the ports are exactly the new ones. */
  method ProcessServicePortChanges(p: Proxy, svc: ServiceObject, stored: ServiceObject, ghost cfg0: Config)
    returns (ghost plan: Plan)
    requires Underway(p, stored, svc, cfg0, PlanFor(stored))
    modifies p`serviceMap, p`epRules, p.nft
    ensures old(p.nft.history) <= p.nft.history
    ensures Underway(p, stored, svc, cfg0, plan) && Reconciled(stored, svc, |svc.ports|, |stored.ports|, plan)
  {
    hide Synced, Holds, Carried, Kept, Placeable, Comparable, Reconciled, Within;
    plan := PlanFor(stored);
    InitiallyReconciled(stored, svc);
    for i := 0 to |svc.ports|
      invariant old(p.nft.history) <= p.nft.history
      invariant Underway(p, stored, svc, cfg0, plan) && Reconciled(stored, svc, i, 0, plan)
    {
      plan := ProcessServicePort(p, stored, svc, i, plan, cfg0);
    }
    for t := 0 to |stored.ports|
      invariant old(p.nft.history) <= p.nft.history
      invariant Underway(p, stored, svc, cfg0, plan) && Reconciled(stored, svc, |svc.ports|, t, plan)
    {
      plan := SweepServicePort(p, stored, svc, t, plan, cfg0);
    }
  }

  // Steps 2 to 4: addresses ---------------------------------------------------------------------

  function KeyFor(s: SetName, q: ServicePort, a: Address): Elem {
    Elem(FamilyOf(a), s, q.protocol, a, q.port)
  }

  /** An address edit of one port: its place in the plan, and what it has to do with others. */
  ghost predicate Editable(p: Proxy, service: NamespacedName, f: Family, nps: seq<Port>, plan: Plan, n: PortName, k: Elem)
    reads p, p.nft
  {
    && p.Valid() && Holds(p.GetConfig(), service, f, nps, plan) && DistinctPlan(plan) && n in plan
    && IpSet(k.set_) && IsKeyOf(f, plan[n].port, k) && Free(p.GetConfig(), service, k)
  }

  lemma EditableFacts(p: Proxy, service: NamespacedName, f: Family, nps: seq<Port>, plan: Plan, n: PortName, k: Elem)
    requires Editable(p, service, f, nps, plan, n, k)
    ensures n in p.serviceMap && k.family == TableFamily(p.serviceMap[n].base) && k.set_ != NoEndpoints
    ensures n in p.GetConfig().services && p.GetConfig().services[n].base == p.serviceMap[n].base
  {
    ServicesListed(p);
    assert PortHas(p.GetConfig(), service, f, nps, n, plan[n]);
  }

  method ExposePort(p: Proxy, n: PortName, k: Elem, marked: bool,
                    ghost service: NamespacedName, ghost f: Family, ghost nps: seq<Port>, ghost plan: Plan)
    requires Editable(p, service, f, nps, plan, n, k)
    modifies p.nft
    ensures p.Valid() && old(p.nft.history) <= p.nft.history
    ensures Holds(p.GetConfig(), service, f, nps, plan[n := plan[n].(addrs := plan[n].addrs.Plus(k.set_, k.addr))])
    ensures Carried(service, old(p.GetConfig()), p.GetConfig())
    ensures marked && Covered(old(p.GetConfig()).vmaps) ==> Covered(p.GetConfig().vmaps)
  {
    hide Synced, Holds, Rooted, NeighboursKept, Free, IsKeyOf, DistinctPlan;
    ghost var cfg := p.GetConfig();
    RootedWhenSynced(p.cluster, p.GetBooks(), p.nft.tables);
    EditableFacts(p, service, f, nps, plan, n, k);
    p.AddToSet(n, k);
    ghost var cfg1 := p.GetConfig();
    ExposeKeepsPlan(cfg, cfg1, service, f, nps, plan, n, k);
    if Backed(cfg.vmaps) {
      ExposeBacks(n, p.serviceMap[n].base, cfg.vmaps, k);
    }
    if Covered(cfg.vmaps) {
      ExposeCovers(n, p.serviceMap[n].base, cfg.vmaps, k);
    }
    hide Backed, Covered;
    if marked {
      p.AddToSet(n, Sibling(k, MarkMasq));
      MasqKeepsPlan(cfg1, p.GetConfig(), service, f, nps, plan[n := plan[n].(addrs := plan[n].addrs.Plus(k.set_, k.addr))]);
      NeighboursKeptTwice(service, cfg, cfg1, p.GetConfig());
    }
  }

  method HidePort(p: Proxy, n: PortName, k: Elem, marked: bool,
                  ghost service: NamespacedName, ghost f: Family, ghost nps: seq<Port>, ghost plan: Plan)
    requires Editable(p, service, f, nps, plan, n, k)
    modifies p.nft
    ensures p.Valid() && old(p.nft.history) <= p.nft.history
    ensures Holds(p.GetConfig(), service, f, nps, plan[n := plan[n].(addrs := plan[n].addrs.Minus(k.set_, k.addr))])
    ensures NeighboursKept(service, old(p.GetConfig()), p.GetConfig())
    ensures marked ==> Carried(service, old(p.GetConfig()), p.GetConfig())
    ensures marked && Covered(old(p.GetConfig()).vmaps)
            && (forall s :: IpSet(s) && s != k.set_ ==> Sibling(k, s) !in old(p.GetConfig()).vmaps) ==>
              Covered(p.GetConfig().vmaps)
  {
    ghost var cfg := p.GetConfig();
    hide Synced, Holds, Rooted, NeighboursKept, Free, IsKeyOf, DistinctPlan;
    RootedWhenSynced(p.cluster, p.GetBooks(), p.nft.tables);
    p.RemoveFromSet(k);
    ghost var cfg1 := p.GetConfig();
    HideKeepsPlan(cfg, cfg1, service, f, nps, plan, n, k);
    if marked {
      if Backed(cfg.vmaps) {
        HideBacks(cfg.vmaps, k);
      }
      if Covered(cfg.vmaps) && (forall s :: IpSet(s) && s != k.set_ ==> Sibling(k, s) !in cfg.vmaps) {
        HideCovers(cfg.vmaps, k);
      }
      hide Backed, Covered;
      p.RemoveFromSet(Sibling(k, MarkMasq));
      MasqKeepsPlan(cfg1, p.GetConfig(), service, f, nps, plan[n := plan[n].(addrs := plan[n].addrs.Minus(k.set_, k.addr))]);
      NeighboursKeptTwice(service, cfg, cfg1, p.GetConfig());
    }
  }

  /** The ports planned are exactly those of the new object. */
  ghost predicate Ported(svc: ServiceObject, plan: Plan) {
    && (forall j :: 0 <= j < |svc.ports| ==>
          var n := PortNameOf(svc.name, svc.ports[j]); n in plan && plan[n].port == svc.ports[j])
    && (forall n :: n in plan ==> IsNew(svc, |svc.ports|, n))
  }

  lemma PortedDistinct(svc: ServiceObject, plan: Plan)
    requires Ported(svc, plan) && DistinctPorts(svc.ports)
    ensures DistinctPlan(plan)
  {}

  lemma ReconciledPorted(stored: ServiceObject, svc: ServiceObject, plan: Plan)
    requires Reconciled(stored, svc, |svc.ports|, |stored.ports|, plan)
    ensures Ported(svc, plan)
    ensures forall j :: 0 <= j < |svc.ports| ==> plan[PortNameOf(svc.name, svc.ports[j])] == Settled(stored, svc, svc.ports[j])
  {}

  function EditState(ps: PortState, s: SetName, a: Address, add: bool): PortState {
    ps.(addrs := if add then ps.addrs.Plus(s, a) else ps.addrs.Minus(s, a))
  }

  /** A plan in which the first j new ports have gained, or lost, an address. */
  function Edited(plan: Plan, svc: ServiceObject, j: nat, s: SetName, a: Address, add: bool): Plan
    requires j <= |svc.ports|
  {
    map n | n in plan :: if IsNew(svc, j, n) then EditState(plan[n], s, a, add) else plan[n]
  }

  lemma EditedPorted(plan: Plan, svc: ServiceObject, j: nat, s: SetName, a: Address, add: bool)
    requires j <= |svc.ports| && Ported(svc, plan)
    ensures Ported(svc, Edited(plan, svc, j, s, a, add))
  {
    hide IsNew;
  }

  lemma NotYetNew(plan: Plan, svc: ServiceObject, j: nat)
    requires j < |svc.ports| && Ported(svc, plan) && DistinctPorts(svc.ports)
    ensures !IsNew(svc, j, PortNameOf(svc.name, svc.ports[j])) && PortNameOf(svc.name, svc.ports[j]) in plan
  {}

  lemma EditedNext(plan: Plan, svc: ServiceObject, j: nat, s: SetName, a: Address, add: bool)
    requires j < |svc.ports| && Ported(svc, plan) && DistinctPorts(svc.ports)
    ensures var n, was := PortNameOf(svc.name, svc.ports[j]), Edited(plan, svc, j, s, a, add);
            n in was && Edited(plan, svc, j + 1, s, a, add) == was[n := EditState(was[n], s, a, add)]
  {
    hide IsNew, Ported, EditState, DistinctPorts;
    NotYetNew(plan, svc, j);
    forall m | m in plan ensures IsNew(svc, j + 1, m) <==> IsNew(svc, j, m) || m == PortNameOf(svc.name, svc.ports[j]) {
      IsNewNext(svc, j, m);
    }
  }

  lemma EditedAll(plan: Plan, svc: ServiceObject, s: SetName, a: Address, add: bool)
    requires Ported(svc, plan)
    ensures Edited(plan, svc, 0, s, a, add) == plan && Edited(plan, svc, |svc.ports|, s, a, add).Keys == plan.Keys
    ensures Ported(svc, Edited(plan, svc, |svc.ports|, s, a, add))
    ensures forall n :: n in plan ==> Edited(plan, svc, |svc.ports|, s, a, add)[n] == EditState(plan[n], s, a, add)
  {}

  lemma NextEditable(p: Proxy, stored: ServiceObject, svc: ServiceObject, cfg0: Config, plan: Plan, j: nat, s: SetName, a: Address)
    requires Underway(p, stored, svc, cfg0, plan) && Ported(svc, plan) && j < |svc.ports|
    requires IpSet(s) && a in Either(stored, svc, s)
    ensures Editable(p, svc.name, FamilyOf(svc.clusterIP), NodePortsOf(stored.ports), plan,
                     PortNameOf(svc.name, svc.ports[j]), KeyFor(s, svc.ports[j], a))
  {
    hide Synced, Holds;
    var k := KeyFor(s, svc.ports[j], a);
    PortedDistinct(svc, plan);
    PlaceableKept(svc, AllAddrs(stored), cfg0, p.GetConfig());
    assert a in AllAddrs(svc) + AllAddrs(stored);
    assert IsKeyOf(FamilyOf(svc.clusterIP), svc.ports[j], k) by {
      assert FamilyOf(a) == FamilyOf(svc.clusterIP);
    }
  }

  /** Addresses being coherent, an address of one kind is in no map of another kind under a new port. */
  lemma NoSiblings(p: Proxy, stored: ServiceObject, svc: ServiceObject, cfg0: Config, plan: Plan, j: nat, s: SetName, a: Address,
                   r: SetName)
    requires Underway(p, stored, svc, cfg0, plan) && Ported(svc, plan) && j < |svc.ports|
    requires IpSet(s) && a in Either(stored, svc, s) && IpSet(r) && r != s && Coherent(stored, svc, p.GetConfig())
    ensures Sibling(KeyFor(s, svc.ports[j], a), r) !in p.GetConfig().vmaps
  {
    hide Synced, Rooted, Holds, Within, Either, Kept, Placeable, Comparable, Ported, KeysFree, Free, AllAddrs;
    var k := Sibling(KeyFor(s, svc.ports[j], a), r);
    EitherListed(stored, svc, s, a);
    NextEditableAny(p, stored, svc, cfg0, plan, j, a, k);
    RootedWhenSynced(p.cluster, p.GetBooks(), p.nft.tables);
    OtherKindAbsent(p.GetConfig(), FamilyOf(svc.clusterIP), NodePortsOf(stored.ports), stored, svc, plan, s, k);
  }

  lemma EitherListed(stored: ServiceObject, svc: ServiceObject, s: SetName, a: Address)
    requires a in Either(stored, svc, s)
    ensures a in AllAddrs(svc) + AllAddrs(stored)
  {}

  lemma OtherKindAbsent(cfg: Config, f: Family, nps: seq<Port>, stored: ServiceObject, svc: ServiceObject, plan: Plan, s: SetName, k: Elem)
    requires Rooted(cfg) && Holds(cfg, svc.name, f, nps, plan) && Within(stored, svc, plan) && Free(cfg, svc.name, k)
    requires IpSet(k.set_) && k.addr in Either(stored, svc, s) && Either(stored, svc, s) !! Either(stored, svc, k.set_)
    ensures k !in cfg.vmaps
  {
    hide Rooted, Holds, Free, Either;
    if k in cfg.vmaps {
      var m := ElemOwner(cfg, svc.name, f, nps, plan, k);
    }
  }

  lemma NextEditableAny(p: Proxy, stored: ServiceObject, svc: ServiceObject, cfg0: Config, plan: Plan, j: nat, a: Address, k: Elem)
    requires Underway(p, stored, svc, cfg0, plan) && j < |svc.ports|
    requires a in AllAddrs(svc) + AllAddrs(stored) && IpSet(k.set_) && k == KeyFor(k.set_, svc.ports[j], a)
    ensures Free(p.GetConfig(), svc.name, k)
  {
    hide Synced, Holds;
    PlaceableKept(svc, AllAddrs(stored), cfg0, p.GetConfig());
    assert IsKeyOf(FamilyOf(svc.clusterIP), svc.ports[j], k) by {
      assert FamilyOf(a) == FamilyOf(svc.clusterIP);
    }
  }

  lemma WithinEdited(stored: ServiceObject, svc: ServiceObject, plan: Plan, n: PortName, s: SetName, a: Address, add: bool)
    requires Within(stored, svc, plan) && n in plan && a in Either(stored, svc, s)
    ensures Within(stored, svc, plan[n := EditState(plan[n], s, a, add)])
  {
    hide Either;
  }

  /** One call on a set, and one on the masquerade set if it goes with it, for one port. */
  method EditPort(p: Proxy, svc: ServiceObject, j: nat, s: SetName, a: Address, add: bool, marked: bool,
                  ghost stored: ServiceObject, ghost plan: Plan, ghost cfg0: Config)
    requires Underway(p, stored, svc, cfg0, plan) && Ported(svc, plan) && j < |svc.ports|
    requires IpSet(s) && a in Either(stored, svc, s) && (marked || stored.clusterIP != svc.clusterIP)
    modifies p.nft
    ensures old(p.nft.history) <= p.nft.history && PortNameOf(svc.name, svc.ports[j]) in plan
    ensures var n := PortNameOf(svc.name, svc.ports[j]);
            Underway(p, stored, svc, cfg0, plan[n := EditState(plan[n], s, a, add)])
  {
    hide Synced, Holds, Placeable, Comparable, NeighboursKept, Backed, Covered, Editable, Free, IsKeyOf, DistinctPlan, Within,
      Either, KeysFree;
    ghost var cfg := p.GetConfig();
    NextEditable(p, stored, svc, cfg0, plan, j, s, a);
    if Coherent(stored, svc, cfg) {
      forall r | IpSet(r) && r != s ensures Sibling(KeyFor(s, svc.ports[j], a), r) !in cfg.vmaps {
        NoSiblings(p, stored, svc, cfg0, plan, j, s, a, r);
      }
    }
    hide Ported;
    WithinEdited(stored, svc, plan, PortNameOf(svc.name, svc.ports[j]), s, a, add);
    var n, k := PortNameOf(svc.name, svc.ports[j]), KeyFor(s, svc.ports[j], a);
    if add {
      ExposePort(p, n, k, marked, svc.name, FamilyOf(svc.clusterIP), NodePortsOf(stored.ports), plan);
    } else {
      HidePort(p, n, k, marked, svc.name, FamilyOf(svc.clusterIP), NodePortsOf(stored.ports), plan);
    }
    assert Kept(stored, svc, cfg, p.GetConfig());
    KeptNext(stored, svc, cfg0, cfg, p.GetConfig());
  }

  /** Adds or removes an address for every port of the new object. */
  method EditAddress(p: Proxy, svc: ServiceObject, s: SetName, a: Address, add: bool, marked: bool,
                     ghost stored: ServiceObject, ghost plan: Plan, ghost cfg0: Config) returns (ghost now: Plan)
    requires Underway(p, stored, svc, cfg0, plan) && Ported(svc, plan)
    requires IpSet(s) && a in Either(stored, svc, s) && (marked || stored.clusterIP != svc.clusterIP)
    modifies p.nft
    ensures old(p.nft.history) <= p.nft.history
    ensures Underway(p, stored, svc, cfg0, now) && Ported(svc, now) && now.Keys == plan.Keys
    ensures forall n :: n in plan ==> now[n] == EditState(plan[n], s, a, add)
  {
    hide Synced, Holds, Kept, Placeable, Comparable, Ported, Edited, EditState, DistinctPorts, IsNew, Either, IpSet, Within;
    StoredProgrammable(stored, svc);
    EditedAll(plan, svc, s, a, add);
    for j := 0 to |svc.ports|
      invariant old(p.nft.history) <= p.nft.history
      invariant Underway(p, stored, svc, cfg0, Edited(plan, svc, j, s, a, add))
    {
      EditedNext(plan, svc, j, s, a, add);
      EditedPorted(plan, svc, j, s, a, add);
      EditPort(p, svc, j, s, a, add, marked, stored, Edited(plan, svc, j, s, a, add), cfg0);
    }
    now := Edited(plan, svc, |svc.ports|, s, a, add);
  }

  method IsStringInSlice(a: Address, b: seq<Address>) returns (found: bool)
    ensures found <==> a in b
  {
    for i := 0 to |b|
      invariant a !in b[..i]
    {
      if b[i] == a {
        return true;
      }
    }
    found := false;
  }

  method CompareSlices(a: seq<Address>, b: seq<Address>) returns (same: bool)
    ensures same <==> a == b
  {
    if |a| != |b| {
      return false;
    }
    for i := 0 to |a|
      invariant a[..i] == b[..i]
    {
      if a[i] != b[i] {
        return false;
      }
    }
    same := true;
  }

  method IsIngressEqual(a: seq<Address>, b: seq<Address>) returns (same: bool)
    ensures same <==> |a| == |b| && AsSet(a) == AsSet(b)
  {
    if |a| != |b| {
      return false;
    }
    for i := 0 to |a|
      invariant forall j :: 0 <= j < i ==> a[j] in b
    {
      var found := IsStringInSlice(a[i], b);
      if !found {
        assert a[i] in AsSet(a);
        return false;
      }
    }
    for i := 0 to |b|
      invariant forall j :: 0 <= j < i ==> b[j] in a
    {
      var found := IsStringInSlice(b[i], a);
      if !found {
        assert b[i] in AsSet(b);
        return false;
      }
    }
    same := true;
  }

  /** Every port has at least the addresses `lo` and at most `hi` in one verdict map. */
  ghost predicate Between(plan: Plan, s: SetName, lo: set<Address>, hi: set<Address>) {
    forall n :: n in plan ==> lo <= plan[n].addrs.For(s) <= hi
  }

  /** Only the addresses of one verdict map differ. */
  ghost predicate SameBut(plan: Plan, now: Plan, s: SetName) {
    && now.Keys == plan.Keys
    && forall n :: n in plan ==>
         && now[n].port == plan[n].port && now[n].affinity == plan[n].affinity
         && forall r :: r != s ==> now[n].addrs.For(r) == plan[n].addrs.For(r)
  }

  lemma EditEffect(plan: Plan, was: Plan, now: Plan, s: SetName, a: Address, add: bool, lo: set<Address>, hi: set<Address>)
    requires IpSet(s) && SameBut(plan, was, s) && Between(was, s, lo, hi) && now.Keys == was.Keys
    requires forall n :: n in was ==> now[n] == EditState(was[n], s, a, add)
    ensures SameBut(plan, now, s)
    ensures add ==> Between(now, s, lo + {a}, hi + {a})
    ensures !add ==> Between(now, s, lo - {a}, hi - {a})
  {}

  /** Adds the addresses that are new, for every port. */
  method AddNewAddresses(p: Proxy, svc: ServiceObject, s: SetName, before: seq<Address>, after: seq<Address>,
                         ghost stored: ServiceObject, ghost plan: Plan, ghost cfg0: Config) returns (ghost now: Plan)
    requires Underway(p, stored, svc, cfg0, plan) && Ported(svc, plan) && IpSet(s)
    requires forall a :: a in after ==> a in Either(stored, svc, s)
    requires Between(plan, s, AsSet(before) * AsSet(after), AsSet(before) + AsSet(after))
    modifies p.nft
    ensures old(p.nft.history) <= p.nft.history
    ensures Underway(p, stored, svc, cfg0, now) && Ported(svc, now) && SameBut(plan, now, s)
    ensures Between(now, s, AsSet(after), AsSet(before) + AsSet(after))
  {
    hide Synced, Holds, Kept, Placeable, Comparable, Ported, EditState, IsNew, Either, IpSet, Between, SameBut, Within;
    ghost var st, nw := AsSet(before), AsSet(after);
    now := plan;
    SameButNothing(plan, s);
    assert st * nw + AsSet(after[..0]) == st * nw;
    for i := 0 to |after|
      invariant old(p.nft.history) <= p.nft.history
      invariant Underway(p, stored, svc, cfg0, now) && Ported(svc, now) && SameBut(plan, now, s)
      invariant Between(now, s, st * nw + AsSet(after[..i]), st + nw)
    {
      var found := IsStringInSlice(after[i], before);
      ghost var lo := st * nw + AsSet(after[..i]);
      assert st * nw + AsSet(after[..i + 1]) == lo + {after[i]};
      if !found {
        ghost var was := now;
        now := EditAddress(p, svc, s, after[i], true, true, stored, now, cfg0);
        EditEffect(plan, was, now, s, after[i], true, lo, st + nw);
        assert st + nw + {after[i]} == st + nw;
      } else {
        assert lo + {after[i]} == lo;
      }
    }
    assert after[..|after|] == after && st * nw + nw == nw;
  }

  /** Removes the addresses that are gone, for every port. */
  method RemoveOldAddresses(p: Proxy, svc: ServiceObject, s: SetName, before: seq<Address>, after: seq<Address>,
                            ghost stored: ServiceObject, ghost plan: Plan, ghost cfg0: Config) returns (ghost now: Plan)
    requires Underway(p, stored, svc, cfg0, plan) && Ported(svc, plan) && IpSet(s)
    requires forall a :: a in before ==> a in Either(stored, svc, s)
    requires Between(plan, s, AsSet(after), AsSet(before) + AsSet(after))
    modifies p.nft
    ensures old(p.nft.history) <= p.nft.history
    ensures Underway(p, stored, svc, cfg0, now) && Ported(svc, now) && SameBut(plan, now, s)
    ensures Between(now, s, AsSet(after), AsSet(after))
  {
    hide Synced, Holds, Kept, Placeable, Comparable, Ported, EditState, IsNew, Either, IpSet, Between, SameBut, Within;
    ghost var nw := AsSet(after);
    now := plan;
    SameButNothing(plan, s);
    assert before[0..] == before && nw + AsSet(before) == AsSet(before) + nw;
    for i := 0 to |before|
      invariant old(p.nft.history) <= p.nft.history
      invariant Underway(p, stored, svc, cfg0, now) && Ported(svc, now) && SameBut(plan, now, s)
      invariant Between(now, s, nw, nw + AsSet(before[i..]))
    {
      var found := IsStringInSlice(before[i], after);
      ghost var hi, hi' := nw + AsSet(before[i..]), nw + AsSet(before[i + 1..]);
      assert hi <= hi' + {before[i]} && hi' <= hi;
      if !found {
        ghost var was := now;
        now := EditAddress(p, svc, s, before[i], false, true, stored, now, cfg0);
        EditEffect(plan, was, now, s, before[i], false, nw, hi);
        assert nw - {before[i]} == nw;
        Widened(now, s, nw, hi - {before[i]}, hi');
      } else {
        assert hi == hi';
      }
    }
    assert nw + AsSet(before[|before|..]) == nw;
  }

  /** Adds what is new and removes what is gone, for every port. */
  method ProcessAddresses(p: Proxy, svc: ServiceObject, s: SetName, before: seq<Address>, after: seq<Address>,
                          ghost stored: ServiceObject, ghost plan: Plan, ghost cfg0: Config) returns (ghost now: Plan)
    requires Underway(p, stored, svc, cfg0, plan) && Ported(svc, plan) && IpSet(s)
    requires forall a :: a in before || a in after ==> a in Either(stored, svc, s)
    requires Between(plan, s, AsSet(before) * AsSet(after), AsSet(before) + AsSet(after))
    modifies p.nft
    ensures old(p.nft.history) <= p.nft.history
    ensures Underway(p, stored, svc, cfg0, now) && Ported(svc, now) && SameBut(plan, now, s)
    ensures Between(now, s, AsSet(after), AsSet(after))
  {
    hide Synced, Holds, Kept, Placeable, Comparable, Ported, IsNew, Either, IpSet, Between, SameBut, Within;
    now := AddNewAddresses(p, svc, s, before, after, stored, plan, cfg0);
    ghost var mid := now;
    now := RemoveOldAddresses(p, svc, s, before, after, stored, now, cfg0);
    SameButTwice(plan, mid, now, s);
  }

  lemma SameButTwice(plan: Plan, mid: Plan, now: Plan, s: SetName)
    requires SameBut(plan, mid, s) && SameBut(mid, now, s)
    ensures SameBut(plan, now, s)
  {}

  lemma Widened(plan: Plan, s: SetName, lo: set<Address>, hi: set<Address>, hi': set<Address>)
    requires Between(plan, s, lo, hi) && hi <= hi'
    ensures Between(plan, s, lo, hi')
  {}

  lemma SameButNothing(plan: Plan, s: SetName)
    ensures SameBut(plan, plan, s)
  {}

  /** In each verdict map, every port has what both objects have and nothing that neither has. */
  ghost predicate Pending(plan: Plan, stored: ServiceObject, svc: ServiceObject, s: SetName) {
    var st, nw := AddrsOf(stored).For(s), AddrsOf(svc).For(s);
    Between(plan, s, st * nw, st + nw)
  }

  ghost predicate Done(plan: Plan, svc: ServiceObject, s: SetName) {
    Between(plan, s, AddrsOf(svc).For(s), AddrsOf(svc).For(s))
  }

  lemma InitiallyPending(stored: ServiceObject, svc: ServiceObject, plan: Plan, s: SetName)
    requires Reconciled(stored, svc, |svc.ports|, |stored.ports|, plan)
    ensures Pending(plan, stored, svc, s)
  {
    ReconciledPorted(stored, svc, plan);
    hide Reconciled;
  }

  lemma NoChangeDone(stored: ServiceObject, svc: ServiceObject, plan: Plan, s: SetName)
    requires Pending(plan, stored, svc, s) && AddrsOf(stored).For(s) == AddrsOf(svc).For(s)
    ensures Done(plan, svc, s)
  {}

  /** Step 2: the new cluster address comes before the old one goes; masquerading is left alone. */
  method ProcessClusterIPChanges(p: Proxy, svc: ServiceObject, stored: ServiceObject, ghost plan: Plan, ghost cfg0: Config)
    returns (ghost now: Plan)
    requires Underway(p, stored, svc, cfg0, plan) && Ported(svc, plan) && Pending(plan, stored, svc, ClusterIP)
    modifies p.nft
    ensures old(p.nft.history) <= p.nft.history
    ensures Underway(p, stored, svc, cfg0, now) && Ported(svc, now) && SameBut(plan, now, ClusterIP) && Done(now, svc, ClusterIP)
  {
    hide Synced, Holds, Kept, Placeable, Comparable, Ported, EditState, IsNew, Between, SameBut, Within;
    now := plan;
    SameButNothing(plan, ClusterIP);
    if stored.clusterIP == svc.clusterIP {
      NoChangeDone(stored, svc, plan, ClusterIP);
      return;
    }
    ghost var st, nw := {stored.clusterIP}, {svc.clusterIP};
    assert st * nw == {};
    StoredProgrammable(stored, svc);
    if svc.clusterIP != NoAddress {
      now := EditAddress(p, svc, ClusterIP, svc.clusterIP, true, false, stored, plan, cfg0);
      EditEffect(plan, plan, now, ClusterIP, svc.clusterIP, true, {}, st + nw);
    }
    if stored.clusterIP != NoAddress {
      ghost var was := now;
      now := EditAddress(p, svc, ClusterIP, stored.clusterIP, false, false, stored, now, cfg0);
      EditEffect(plan, was, now, ClusterIP, stored.clusterIP, false, {} + nw, st + nw + nw);
    }
    assert st + nw + nw - {stored.clusterIP} == nw && {} + nw - {stored.clusterIP} == nw;
  }

  /** Step 3. */
  method ProcessExternalIPChanges(p: Proxy, svc: ServiceObject, stored: ServiceObject, ghost plan: Plan, ghost cfg0: Config)
    returns (ghost now: Plan)
    requires Underway(p, stored, svc, cfg0, plan) && Ported(svc, plan) && Pending(plan, stored, svc, ExternalIP)
    modifies p.nft
    ensures old(p.nft.history) <= p.nft.history
    ensures Underway(p, stored, svc, cfg0, now) && Ported(svc, now) && SameBut(plan, now, ExternalIP) && Done(now, svc, ExternalIP)
  {
    hide Synced, Holds, Kept, Placeable, Comparable, Ported, IsNew, Between, SameBut, Within;
    var same := CompareSlices(stored.externalIPs, svc.externalIPs);
    if same {
      now := plan;
      SameButNothing(plan, ExternalIP);
      NoChangeDone(stored, svc, plan, ExternalIP);
      return;
    }
    now := ProcessAddresses(p, svc, ExternalIP, stored.externalIPs, svc.externalIPs, stored, plan, cfg0);
  }

  /** Step 4: order does not matter here, as it does for external addresses. */
  method ProcessLoadBalancerIPChange(p: Proxy, svc: ServiceObject, stored: ServiceObject, ghost plan: Plan, ghost cfg0: Config)
    returns (ghost now: Plan)
    requires Underway(p, stored, svc, cfg0, plan) && Ported(svc, plan) && Pending(plan, stored, svc, LoadbalancerIP)
    modifies p.nft
    ensures old(p.nft.history) <= p.nft.history
    ensures Underway(p, stored, svc, cfg0, now) && Ported(svc, now)
    ensures SameBut(plan, now, LoadbalancerIP) && Done(now, svc, LoadbalancerIP)
  {
    hide Synced, Holds, Kept, Placeable, Comparable, Ported, IsNew, Between, SameBut, Within;
    var same := IsIngressEqual(svc.ingress, stored.ingress);
    if same {
      now := plan;
      SameButNothing(plan, LoadbalancerIP);
      NoChangeDone(stored, svc, plan, LoadbalancerIP);
      return;
    }
    now := ProcessAddresses(p, svc, LoadbalancerIP, stored.ingress, svc.ingress, stored, plan, cfg0);
  }

  /** Steps 2 to 4 together: every port ends up with exactly the new addresses. */
  method ProcessAddressChanges(p: Proxy, svc: ServiceObject, stored: ServiceObject, ghost plan: Plan, ghost cfg0: Config)
    returns (ghost now: Plan)
    requires Underway(p, stored, svc, cfg0, plan) && Ported(svc, plan)
    requires forall s :: IpSet(s) ==> Pending(plan, stored, svc, s)
    modifies p.nft
    ensures old(p.nft.history) <= p.nft.history
    ensures Underway(p, stored, svc, cfg0, now) && Ported(svc, now) && now.Keys == plan.Keys
    ensures forall n :: n in plan ==> now[n] == PortState(plan[n].port, AddrsOf(svc), plan[n].affinity)
  {
    hide Synced, Holds, Kept, Placeable, Comparable, Ported, IsNew, Between, SameBut, AddrsOf, Within;
    assert IpSet(ClusterIP) && IpSet(ExternalIP) && IpSet(LoadbalancerIP);
    ghost var p1 := ProcessClusterIPChanges(p, svc, stored, plan, cfg0);
    StillPending(plan, p1, stored, svc, ClusterIP, ExternalIP);
    StillPending(plan, p1, stored, svc, ClusterIP, LoadbalancerIP);
    ghost var p2 := ProcessExternalIPChanges(p, svc, stored, p1, cfg0);
    StillDone(p1, p2, svc, ExternalIP, ClusterIP);
    StillPending(p1, p2, stored, svc, ExternalIP, LoadbalancerIP);
    now := ProcessLoadBalancerIPChange(p, svc, stored, p2, cfg0);
    StillDone(p2, now, svc, LoadbalancerIP, ClusterIP);
    StillDone(p2, now, svc, LoadbalancerIP, ExternalIP);
    AllDone(plan, p1, p2, now, svc);
  }

  lemma StillPending(plan: Plan, now: Plan, stored: ServiceObject, svc: ServiceObject, s: SetName, r: SetName)
    requires SameBut(plan, now, s) && Pending(plan, stored, svc, r) && r != s
    ensures Pending(now, stored, svc, r)
  {}

  lemma StillDone(plan: Plan, now: Plan, svc: ServiceObject, s: SetName, r: SetName)
    requires SameBut(plan, now, s) && Done(plan, svc, r) && r != s
    ensures Done(now, svc, r)
  {}

  lemma AllDone(plan: Plan, p1: Plan, p2: Plan, now: Plan, svc: ServiceObject)
    requires SameBut(plan, p1, ClusterIP) && SameBut(p1, p2, ExternalIP) && SameBut(p2, now, LoadbalancerIP)
    requires Done(now, svc, ClusterIP) && Done(now, svc, ExternalIP) && Done(now, svc, LoadbalancerIP)
    ensures now.Keys == plan.Keys
    ensures forall n :: n in plan ==> now[n] == PortState(plan[n].port, AddrsOf(svc), plan[n].affinity)
  {
    hide AddrsOf;
    forall n | n in plan ensures now[n] == PortState(plan[n].port, AddrsOf(svc), plan[n].affinity) {
      var a, b := now[n].addrs, AddrsOf(svc);
      assert a.For(ClusterIP) == b.For(ClusterIP) && a.For(ExternalIP) == b.For(ExternalIP)
          && a.For(LoadbalancerIP) == b.For(LoadbalancerIP);
    }
  }

  // Step 5: affinity ----------------------------------------------------------------------------

  /** When affinity changes, the ports do not, and ports that gain it have endpoints. */
  predicate ToggleOnly(endpoints: map<PortName, seq<Endpoint>>, stored: ServiceObject, svc: ServiceObject) {
    stored.clientIP != svc.clientIP ==>
      forall i :: 0 <= i < |svc.ports| ==>
        svc.ports[i] in stored.ports && (svc.clientIP ==> EpsOf(endpoints, PortNameOf(svc.name, svc.ports[i])) != [])
  }

  /** A plan in which the first j new ports have been toggled. */
  function Toggled(plan: Plan, svc: ServiceObject, j: nat): Plan
    requires j <= |svc.ports|
  {
    map n | n in plan :: if IsNew(svc, j, n) then plan[n].(affinity := svc.clientIP) else plan[n]
  }

  lemma ToggledNext(plan: Plan, svc: ServiceObject, j: nat)
    requires j < |svc.ports| && Ported(svc, plan) && DistinctPorts(svc.ports)
    ensures var n, was := PortNameOf(svc.name, svc.ports[j]), Toggled(plan, svc, j);
            n in plan && n in was && was[n] == plan[n]
            && Toggled(plan, svc, j + 1) == was[n := was[n].(affinity := svc.clientIP)]
  {
    hide IsNew, Ported, DistinctPorts;
    NotYetNew(plan, svc, j);
    forall m | m in plan ensures IsNew(svc, j + 1, m) <==> IsNew(svc, j, m) || m == PortNameOf(svc.name, svc.ports[j]) {
      IsNewNext(svc, j, m);
    }
  }

  lemma ToggledAll(plan: Plan, svc: ServiceObject)
    requires Ported(svc, plan)
    ensures Toggled(plan, svc, 0) == plan && Toggled(plan, svc, |svc.ports|).Keys == plan.Keys
    ensures forall n :: n in plan ==> Toggled(plan, svc, |svc.ports|)[n] == plan[n].(affinity := svc.clientIP)
  {}

  lemma PlannedAffinity(p: Proxy, stored: ServiceObject, svc: ServiceObject, cfg0: Config, plan: Plan, n: PortName)
    requires Underway(p, stored, svc, cfg0, plan) && n in plan
    ensures n in p.serviceMap && n in p.GetConfig().services && p.serviceMap[n].nft.withAffinity == plan[n].affinity
    ensures p.GetConfig().services[n].base == p.serviceMap[n].base
    ensures p.endpointsMap == cfg0.endpoints
  {
    ServicesListed(p);
    assert PortHas(p.GetConfig(), svc.name, FamilyOf(svc.clusterIP), NodePortsOf(stored.ports), n, plan[n]);
  }

  lemma WithinToggled(stored: ServiceObject, svc: ServiceObject, plan: Plan, n: PortName)
    requires Within(stored, svc, plan) && n in plan
    ensures Within(stored, svc, plan[n := plan[n].(affinity := svc.clientIP)])
  {
    hide Either;
  }

  method ToggleAffinity(p: Proxy, svc: ServiceObject, n: PortName, ghost stored: ServiceObject, ghost plan: Plan, ghost cfg0: Config)
    requires Underway(p, stored, svc, cfg0, plan) && n in plan && plan[n].affinity != svc.clientIP
    requires svc.clientIP ==> EpsOf(cfg0.endpoints, n) != []
    modifies p`serviceMap, p`epRules, p.nft
    ensures old(p.nft.history) <= p.nft.history
    ensures Underway(p, stored, svc, cfg0, plan[n := plan[n].(affinity := svc.clientIP)])
  {
    hide Synced, Holds, Placeable, Comparable, NeighboursKept, Within, Covered, Backed, Coherent;
    ghost var cfg := p.GetConfig();
    WithinToggled(stored, svc, plan, n);
    PlannedAffinity(p, stored, svc, cfg0, plan, n);
    if svc.clientIP {
      p.AffinityOn(n);
    } else {
      p.AffinityOff(n);
    }
    AffinityKeepsPlan(cfg, p.GetConfig(), svc.name, FamilyOf(svc.clusterIP), NodePortsOf(stored.ports), plan, n, svc.clientIP);
    KeptNext(stored, svc, cfg0, cfg, p.GetConfig());
  }

  /** Step 5: toggles every port, if the two objects differ in affinity. */
  method ProcessAffinityChange(p: Proxy, svc: ServiceObject, stored: ServiceObject, ghost plan: Plan, ghost cfg0: Config)
    returns (ghost now: Plan)
    requires Underway(p, stored, svc, cfg0, plan) && Ported(svc, plan) && ToggleOnly(cfg0.endpoints, stored, svc)
    requires forall n :: n in plan ==>
               plan[n].affinity == if plan[n].port in stored.ports then stored.clientIP else svc.clientIP
    modifies p`serviceMap, p`epRules, p.nft
    ensures old(p.nft.history) <= p.nft.history
    ensures Underway(p, stored, svc, cfg0, now) && now.Keys == plan.Keys
    ensures forall n :: n in plan ==> now[n] == plan[n].(affinity := svc.clientIP)
  {
    hide Synced, Holds, Kept, Placeable, Comparable, IsNew, DistinctPorts, Toggled, Within;
    now := plan;
    if svc.clientIP == stored.clientIP {
      return;
    }
    StoredProgrammable(stored, svc);
    ToggledAll(plan, svc);
    for j := 0 to |svc.ports|
      invariant old(p.nft.history) <= p.nft.history
      invariant Underway(p, stored, svc, cfg0, Toggled(plan, svc, j))
    {
      ToggledNext(plan, svc, j);
      ToggleAffinity(p, svc, PortNameOf(svc.name, svc.ports[j]), stored, Toggled(plan, svc, j), cfg0);
    }
    now := Toggled(plan, svc, |svc.ports|);
  }

  // UpdateService -------------------------------------------------------------------------------

  lemma PlannedIsPlanFor(svc: ServiceObject, plan: Plan)
    requires Ported(svc, plan) && DistinctPorts(svc.ports)
    requires forall n :: n in plan ==> plan[n].addrs == AddrsOf(svc) && plan[n].affinity == svc.clientIP
    ensures plan == PlanFor(svc)
  {
    PlanUpToHas(svc, |svc.ports|);
    hide PlanUpTo;
    forall n | n in plan ensures n in PlanFor(svc) && PlanFor(svc)[n] == plan[n] {
      assert IsNew(svc, |svc.ports|, n);
    }
  }

  lemma NodePortsEmpty(b: BaseInfo, ports: seq<ServicePort>)
    requires NoNodePorts(ports)
    ensures NodeKeys(b, NodePortsOf(ports)) == {}
  {}

  lemma NodePortsDontMatter(cfg: Config, service: NamespacedName, f: Family, ps: seq<ServicePort>, qs: seq<ServicePort>, plan: Plan)
    requires Holds(cfg, service, f, NodePortsOf(ps), plan) && NoNodePorts(ps) && NoNodePorts(qs)
    ensures Holds(cfg, service, f, NodePortsOf(qs), plan)
  {
    hide Exposed, NodeKeys;
    forall n | n in plan ensures PortHas(cfg, service, f, NodePortsOf(qs), n, plan[n]) {
      assert PortHas(cfg, service, f, NodePortsOf(ps), n, plan[n]);
      NodePortsEmpty(cfg.services[n].base, ps);
      NodePortsEmpty(cfg.services[n].base, qs);
    }
  }

  lemma UpdateBegins(p: Proxy, stored: ServiceObject, svc: ServiceObject)
    requires p.Valid() && Fixed(p, stored, svc, p.GetConfig()) && InSync(p.GetConfig(), stored)
    ensures Underway(p, stored, svc, p.GetConfig(), PlanFor(stored))
  {
    hide Synced, Holds, Placeable, Covered, Backed, Coherent;
    PlanUpToHas(stored, |stored.ports|);
    hide PlanUpTo, DistinctPlan, DistinctPorts, Bijective, AddrsOf, IsNew;
    forall n, s | n in PlanFor(stored) ensures PlanFor(stored)[n].addrs.For(s) <= Either(stored, svc, s) {
      assert PlanFor(stored)[n].addrs == AddrsOf(stored);
    }
  }

  lemma UpdateEnds(p: Proxy, stored: ServiceObject, svc: ServiceObject, cfg0: Config, plan: Plan)
    requires Underway(p, stored, svc, cfg0, plan) && Ported(svc, plan)
    requires forall n :: n in plan ==> plan[n].addrs == AddrsOf(svc) && plan[n].affinity == svc.clientIP
    ensures InSync(p.GetConfig(), svc) && Kept(stored, svc, cfg0, p.GetConfig())
  {
    hide Synced, Holds, Placeable, Kept;
    PlannedIsPlanFor(svc, plan);
    NodePortsDontMatter(p.GetConfig(), svc.name, FamilyOf(svc.clusterIP), stored.ports, svc.ports, plan);
  }

  /** Whatever old object is passed in, a known service ends up with exactly the ports of the new
      object under exactly its addresses, and no other service notices. */
  method UpdateService(p: Proxy, svcOld: ServiceObject, svc: ServiceObject)
    requires p.Valid() && svc.name in p.svcCache
    requires var stored := p.svcCache[svc.name];
             && Comparable(stored, svc) && InSync(p.GetConfig(), stored)
             && Placeable(p.GetConfig(), svc, AllAddrs(stored)) && ToggleOnly(p.endpointsMap, stored, svc)
    modifies p`svcCache, p`serviceMap, p`epRules, p.nft
    ensures p.Valid() && old(p.nft.history) <= p.nft.history
    ensures p.svcCache == old(p.svcCache)[svc.name := svc]
    ensures InSync(p.GetConfig(), svc)
    ensures Kept(old(p.svcCache)[svc.name], svc, old(p.GetConfig()), p.GetConfig())
  {
    hide Synced, Holds, Placeable, Comparable, Reconciled, ToggleOnly, AddrsOf, Kept, PlanUpTo, NodePortsOf, Within;
    var stored := if svc.name in p.svcCache then p.svcCache[svc.name] else svcOld;
    ghost var cfg0 := p.GetConfig();
    UpdateBegins(p, stored, svc);
    ghost var plan := ProcessServicePortChanges(p, svc, stored, cfg0);
    ReconciledPorted(stored, svc, plan);
    forall s | IpSet(s) ensures Pending(plan, stored, svc, s) {
      InitiallyPending(stored, svc, plan, s);
    }
    ghost var plan2 := ProcessAddressChanges(p, svc, stored, plan, cfg0);
    SettledAffinity(stored, svc, plan);
    ghost var plan3 := ProcessAffinityChange(p, svc, stored, plan2, cfg0);
    PortedLike(svc, plan2, plan3);
    UpdateEnds(p, stored, svc, cfg0, plan3);
    p.svcCache := p.svcCache[svc.name := svc];
  }

  lemma SettledAffinity(stored: ServiceObject, svc: ServiceObject, plan: Plan)
    requires Reconciled(stored, svc, |svc.ports|, |stored.ports|, plan)
    ensures forall n :: n in plan ==>
              plan[n].affinity == if plan[n].port in stored.ports then stored.clientIP else svc.clientIP
  {
    ReconciledPorted(stored, svc, plan);
    hide Reconciled;
  }

  lemma PortedLike(svc: ServiceObject, plan: Plan, now: Plan)
    requires Ported(svc, plan) && now.Keys == plan.Keys && forall n :: n in plan ==> now[n].port == plan[n].port
    ensures Ported(svc, now)
  {
    hide IsNew;
  }

  /** What being in sync means, element by element. */
  lemma InSyncExactly(cfg: Config, svc: ServiceObject)
    requires Rooted(cfg) && InSync(cfg, svc) && DistinctPorts(svc.ports)
    ensures forall n :: n in cfg.services && n.service == svc.name <==> IsNew(svc, |svc.ports|, n)
    ensures forall k: Elem :: IpSet(k.set_) ==>
              ((k in cfg.vmaps && Free(cfg, svc.name, k)) <==>
                 exists i :: 0 <= i < |svc.ports| && IsKeyOf(FamilyOf(svc.clusterIP), svc.ports[i], k)
                             && k.addr in AddrsOf(svc).For(k.set_))
    ensures forall k :: k in cfg.vmaps && IpSet(k.set_) ==> LiveTarget(cfg, k, cfg.vmaps[k])
  {
    var f, nps, plan := FamilyOf(svc.clusterIP), NodePortsOf(svc.ports), PlanFor(svc);
    PlanUpToHas(svc, |svc.ports|);
    forall n ensures n in cfg.services && n.service == svc.name <==> IsNew(svc, |svc.ports|, n) {
      assert n in plan ==> PortHas(cfg, svc.name, f, nps, n, plan[n]);
    }
    forall k: Elem | IpSet(k.set_)
      ensures (k in cfg.vmaps && Free(cfg, svc.name, k)) <==>
                exists i :: 0 <= i < |svc.ports| && IsKeyOf(f, svc.ports[i], k) && k.addr in AddrsOf(svc).For(k.set_)
    {
      KeyExactly(cfg, svc, k);
    }
  }

  lemma KeyExactly(cfg: Config, svc: ServiceObject, k: Elem)
    requires Rooted(cfg) && InSync(cfg, svc) && DistinctPorts(svc.ports) && IpSet(k.set_)
    ensures (k in cfg.vmaps && Free(cfg, svc.name, k)) <==>
              exists i :: 0 <= i < |svc.ports| && IsKeyOf(FamilyOf(svc.clusterIP), svc.ports[i], k)
                          && k.addr in AddrsOf(svc).For(k.set_)
  {
    var f, nps, plan := FamilyOf(svc.clusterIP), NodePortsOf(svc.ports), PlanFor(svc);
    PlanUpToHas(svc, |svc.ports|);
    hide Rooted, PlanUpTo, DistinctPlan, AddrsOf;
    if k in cfg.vmaps && Free(cfg, svc.name, k) {
      var m := ElemOwner(cfg, svc.name, f, nps, plan, k);
      assert PortHas(cfg, svc.name, f, nps, m, plan[m]);
    }
    if i :| 0 <= i < |svc.ports| && IsKeyOf(f, svc.ports[i], k) && k.addr in AddrsOf(svc).For(k.set_) {
      var n := PortNameOf(svc.name, svc.ports[i]);
      assert PortHas(cfg, svc.name, f, nps, n, plan[n]);
      assert k == AddrKey(cfg.services[n].base, k.set_, k.addr);
    }
  }
}
