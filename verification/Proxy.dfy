/** The proxy itself: its maps, and its critical sections. */
module Reconciler {
  import opened Names
  import opened Netfilter
  import opened Ruleset
  import opened Mirror
  import opened Programming
  import opened Steps
  import opened Api

  /** The list without the endpoint that prints and is placed like the given one. */
  function Dropped(es: seq<Endpoint>, id: EndpointId, isLocal: bool): seq<Endpoint> {
    if es == [] then []
    else if es[0].id == id && es[0].isLocal == isLocal then es[1..]
    else [es[0]] + Dropped(es[1..], id, isLocal)
  }

  lemma {:induction false} DroppedAt(es: seq<Endpoint>, i: nat)
    requires i < |es| && DistinctIds(es)
    ensures Dropped(es, es[i].id, es[i].isLocal) == RemovedEp(es, i)
  {
    if i > 0 {
      DroppedAt(es[1..], i - 1);
    }
  }

  lemma {:induction false} DroppedAbsent(es: seq<Endpoint>, id: EndpointId, isLocal: bool)
    requires forall i :: 0 <= i < |es| ==> !(es[i].id == id && es[i].isLocal == isLocal)
    ensures Dropped(es, id, isLocal) == es
  {
    if es != [] {
      DroppedAbsent(es[1..], id, isLocal);
    }
  }

  lemma InitiallySynced(cluster: Cluster, t: Tables)
    requires Closed(t) && ImageOf(t) == Compile(InitialConfig(cluster))
    ensures Synced(cluster, Books(map[], map[], map[]), t)
    ensures ConfigOf(cluster, Books(map[], map[], map[]), t) == InitialConfig(cluster)
  {
    var b := Books(map[], map[], map[]);
    var img := Compile(InitialConfig(cluster));
    assert img.elems == map[] && img.maps == {};
    forall c ensures c in t.chains <==> c.Static? {
      assert c in t.chains <==> c in ImageOf(t).chains;
      if c.Static? {
        assert c == Static(c.family, c.base);
      }
    }
    forall f: Family, s: StaticChain
      ensures Static(f, s) in t.chains && Rules(t.chains[Static(f, s)]) == StaticRules(f, cluster.For(f), s)
    {
      assert ImageOf(t).chains[Static(f, s)] == Rules(t.chains[Static(f, s)]);
    }
    forall n ensures PortSynced(n, b, t) {}
  }

  /** The no-endpoints set after a port's state goes from `was` to `now` (with or without endpoints). */
  function RejectUpdate(n: PortName, b: BaseInfo, was: bool, now: bool, elems: map<Elem, Chain>): map<Elem, Chain> {
    if was && !now then Exposing(n, b, RejectKeys(b), elems)
    else if !was && now then elems - RejectKeys(b)
    else elems
  }

  lemma VMapsUnaffected(n: PortName, b: BaseInfo, was: bool, now: bool, elems: map<Elem, Chain>)
    ensures VMaps(RejectUpdate(n, b, was, now, elems)) == VMaps(elems)
  {
    var keys := RejectKeys(b);
    assert forall k :: k in keys ==> k.set_ == NoEndpoints;
    var after := RejectUpdate(n, b, was, now, elems);
    assert forall k: Elem :: k.set_ != NoEndpoints ==> (k in after <==> k in elems) && (k in elems ==> after[k] == elems[k]);
  }

  lemma ExposingTyped(n: PortName, b: BaseInfo, keys: set<Elem>, elems: map<Elem, Chain>)
    requires TypedElems(elems) && forall k :: k in keys ==> k.family == TableFamily(b)
    ensures TypedElems(Exposing(n, b, keys, elems))
  {
    var after := Exposing(n, b, keys, elems);
    forall k | k in after ensures TypedElem(k, after[k]) {
      assert k in elems ==> TypedElem(k, elems[k]);
    }
  }

  lemma RejectUpdateTyped(n: PortName, b: BaseInfo, was: bool, now: bool, elems: map<Elem, Chain>)
    requires TypedElems(elems)
    ensures TypedElems(RejectUpdate(n, b, was, now, elems))
  {
    if was && !now {
      ExposingTyped(n, b, RejectKeys(b), elems);
    } else {
      var after := RejectUpdate(n, b, was, now, elems);
      forall k | k in after ensures TypedElem(k, after[k]) {
        assert k in elems && after[k] == elems[k];
      }
    }
  }

  lemma ServicesUnaffected(svcs: map<PortName, ServiceInfo>, n: PortName, si: ServiceInfo)
    requires n in svcs && ServiceOf(si) == ServiceOf(svcs[n])
    ensures ServicesOf(svcs[n := si]) == ServicesOf(svcs)
  {}

  /** What programming a service chain relies on; `was` is the list it was last programmed for. */
  ghost predicate ReadyToProgram(n: PortName, si: ServiceInfo, was: seq<Endpoint>, es: seq<Endpoint>, t: Tables) {
    var c := ChainOf(n, si.base);
    && si.nft.id == IdOf(n, si.base)
    && c in t.chains
    && Rules(t.chains[c]) == ServiceRules(n, ServiceOf(si), was)
    && Handles(t.chains[c]) == si.nft.ruleID
    && ChainsExist(n, es, t)
    && (si.nft.withAffinity ==> MapOf(n, si.base) in t.maps)
    && SameFamily(si.base, es)
    && Static(TableFamily(si.base), K8sFilterDoReject) in t.chains
  }

  /** The outcome of updating a service chain for endpoint list `es`. */
  ghost predicate Updated(n: PortName, svcs0: map<PortName, ServiceInfo>, svcs1: map<PortName, ServiceInfo>,
                          es: seq<Endpoint>, t0: Tables, t1: Tables) {
    if n !in svcs0 then svcs1 == svcs0 && t1 == t0
    else
      var si := svcs0[n];
      var c := ChainOf(n, si.base);
      && n in svcs1 && svcs1 == svcs0[n := svcs1[n]]
      && ServiceOf(svcs1[n]) == ServiceOf(si)
      && ServiceSynced(n, svcs1[n], es, t1)
      && t1 == t0.(chains := t0.chains[c := t1.chains[c]], next := t1.next,
                   elems := RejectUpdate(n, si.base, si.nft.withEndpoints, es != [], t0.elems))
  }

  lemma UpdatedConfig(cluster: Cluster, n: PortName, b0: Books, b1: Books, es: seq<Endpoint>, t0: Tables, t1: Tables)
    requires Updated(n, b0.services, b1.services, es, t0, t1)
    ensures ConfigOf(cluster, b1, t1) == ConfigOf(cluster, b0, t0).(endpoints := b1.endpoints)
    ensures TypedElems(t0.elems) ==> TypedElems(t1.elems)
  {
    if n in b0.services {
      var si := b0.services[n];
      VMapsUnaffected(n, si.base, si.nft.withEndpoints, es != [], t0.elems);
      ServicesUnaffected(b0.services, n, b1.services[n]);
      if TypedElems(t0.elems) {
        RejectUpdateTyped(n, si.base, si.nft.withEndpoints, es != [], t0.elems);
      }
    }
  }

  lemma BeforeRemoval(cluster: Cluster, b: Books, t: Tables, n: PortName, i: nat)
    requires Synced(cluster, b, t) && n in b.endpoints && i < |b.endpoints[n]|
    ensures var c := EpChain(n, b.endpoints[n][i]);
            && c in t.chains && c in b.epRules && Handles(t.chains[c]) == b.epRules[c].ruleID
    ensures n in b.services ==>
              ReadyToProgram(n, b.services[n], b.endpoints[n], RemovedEp(b.endpoints[n], i), t)
  {
    assert PortSynced(n, b, t);
    assert EndpointSynced(n, b.endpoints[n][i], StickyOf(b.services, n), b.epRules, t);
    if n in b.services {
      RemovedReady(n, b, t, i);
    }
  }

  /** Once the service chain is updated, the endpoint's chain can be emptied and deleted. */
  lemma AfterUpdate(cluster: Cluster, b: Books, svcs1: map<PortName, ServiceInfo>,
                    t0: Tables, t1: Tables, n: PortName, i: nat)
    requires Synced(cluster, b, t0) && n in b.endpoints && i < |b.endpoints[n]|
    requires EpChain(n, b.endpoints[n][i]) in t0.chains
    requires Updated(n, b.services, svcs1, RemovedEp(b.endpoints[n], i), t0, t1)
    ensures var c := EpChain(n, b.endpoints[n][i]);
            && c in t1.chains && t1.chains[c] == t0.chains[c]
            && ChainUnreferenced(Put(t1, c, []), c)
  {
    UpdatedConfig(cluster, n, b, b.(services := svcs1), RemovedEp(b.endpoints[n], i), t0, t1);
    EndpointUnreferenced(cluster, b, t0, Put(t1, EpChain(n, b.endpoints[n][i]), []), n, i);
  }

  lemma DeletedAfterUpdate(cluster: Cluster, b: Books, b1: Books, t0: Tables, t1: Tables, t2: Tables, n: PortName, i: nat)
    requires Synced(cluster, b, t0) && n in b.endpoints && i < |b.endpoints[n]| && Closed(t2)
    requires Updated(n, b.services, b1.services, RemovedEp(b.endpoints[n], i), t0, t1)
    requires var c := EpChain(n, b.endpoints[n][i]);
             t2 == t1.(chains := t1.chains - {c}) && b1.epRules == b.epRules - {c}
    requires b1.endpoints == WithList(b.endpoints, n, RemovedEp(b.endpoints[n], i))
    ensures Synced(cluster, b1, t2)
  {
    BeforeRemoval(cluster, b, t0, n, i);
    UpdatedConfig(cluster, n, b, b1, RemovedEp(b.endpoints[n], i), t0, t1);
    assert PortSynced(n, b, t0);
    UpdatedDeletes(b, b1, t0, t1, t2, n, i);
    DeleteEndpointSynced(cluster, b, t0, b1, t2, n, i);
  }

  lemma UpdatedDeletes(b: Books, b1: Books, t0: Tables, t1: Tables, t2: Tables, n: PortName, i: nat)
    requires n in b.endpoints && i < |b.endpoints[n]| && PortSynced(n, b, t0) && TypedElems(t1.elems)
    requires EpChain(n, b.endpoints[n][i]) in t0.chains
    requires Updated(n, b.services, b1.services, RemovedEp(b.endpoints[n], i), t0, t1)
    requires var c := EpChain(n, b.endpoints[n][i]);
             t2 == t1.(chains := t1.chains - {c}) && b1.epRules == b.epRules - {c}
    requires b1.endpoints == WithList(b.endpoints, n, RemovedEp(b.endpoints[n], i))
    ensures EndpointDeleted(b, t0, b1, t2, n, i)
  {
    hide RejectKeys, RejectUpdate, EndpointPart, ChainPart, RecordPart, MapPart, ServiceRules, WithList, TypedElems;
    if n in b.services {
      var si := b.services[n];
      assert si.nft.withEndpoints;
      RejectedWhenEmpty(n, si.base, RemovedEp(b.endpoints[n], i), t0.elems);
    }
    hide RemovedEp;
  }

  /** A port that had endpoints gets its keys rejected exactly when it has none left. */
  lemma RejectedWhenEmpty(n: PortName, b: BaseInfo, rest: seq<Endpoint>, elems: map<Elem, Chain>)
    ensures forall k :: k in RejectUpdate(n, b, true, rest != [], elems) <==>
              k in elems || (rest == [] && k in RejectKeys(b))
  {
    hide RejectKeys;
  }

  lemma AddedAfterUpdate(b: Books, b1: Books, t0: Tables, t1: Tables, t2: Tables, n: PortName, e: Endpoint)
    requires PortSynced(n, b, t0)
    requires forall i :: 0 <= i < |EpsOf(b.endpoints, n)| ==> EpsOf(b.endpoints, n)[i].id != e.id
    requires ChainEdited(t0, t1, EpChain(n, e))
    requires EpChain(n, e) in b1.epRules && b1.epRules == b.epRules[EpChain(n, e) := b1.epRules[EpChain(n, e)]]
    requires EndpointSynced(n, e, StickyOf(b.services, n), b1.epRules, t1)
    requires b1.endpoints == b.endpoints[n := EpsOf(b.endpoints, n) + [e]]
    requires Updated(n, b.services, b1.services, EpsOf(b.endpoints, n) + [e], t1, t2)
    ensures EndpointAdded(b, t0, b1, t2, n, e)
  {}

  lemma NewEndpointChain(n: PortName, b: Books, t: Tables, e: Endpoint)
    requires PortSynced(n, b, t)
    requires forall i :: 0 <= i < |EpsOf(b.endpoints, n)| ==> EpsOf(b.endpoints, n)[i].id != e.id
    ensures EpChain(n, e) !in t.chains
  {
    var es := EpsOf(b.endpoints, n);
    assert Owns(n, EpChain(n, e));
    forall i | 0 <= i < |es| ensures EpChains(n, es)[i] != EpChain(n, e) {
      assert es[i].id != e.id;
    }
    assert !Live(n, b, EpChain(n, e));
  }

  lemma AddedReady(n: PortName, b: Books, t0: Tables, t1: Tables, e: Endpoint)
    requires PortSynced(n, b, t0) && n in b.services
    requires Static(TableFamily(b.services[n].base), K8sFilterDoReject) in t0.chains
    requires FamilyOf(e.id.ip) == TableFamily(b.services[n].base)
    requires ChainEdited(t0, t1, EpChain(n, e))
    ensures ReadyToProgram(n, b.services[n], EpsOf(b.endpoints, n), EpsOf(b.endpoints, n) + [e], t1)
  {
    var es := EpsOf(b.endpoints, n);
    forall i | 0 <= i < |es| ensures EpChain(n, es[i]) in t0.chains {
      assert EndpointSynced(n, es[i], StickyOf(b.services, n), b.epRules, t0);
    }
  }

  lemma RemovedReady(n: PortName, b: Books, t: Tables, i: nat)
    requires PortSynced(n, b, t) && n in b.services && n in b.endpoints && i < |b.endpoints[n]|
    requires Static(TableFamily(b.services[n].base), K8sFilterDoReject) in t.chains
    ensures ReadyToProgram(n, b.services[n], b.endpoints[n], RemovedEp(b.endpoints[n], i), t)
  {
    var es := b.endpoints[n];
    var rest := RemovedEp(es, i);
    forall j | 0 <= j < |rest|
      ensures EpChain(n, rest[j]) in t.chains && FamilyOf(rest[j].id.ip) == TableFamily(b.services[n].base)
    {
      var x := if j < i then j else j + 1;
      assert rest[j] == es[x];
      assert EndpointSynced(n, es[x], StickyOf(b.services, n), b.epRules, t);
    }
  }

  /** What `append(s[:i], s[i+1:]...)` does to the array under s: the tail moves one place left and
      the last cell keeps its value. */
  method ShiftLeft(a: array<Endpoint>, i: nat)
    requires i < a.Length
    modifies a
    ensures a[..] == old(a[..i]) + old(a[i + 1..]) + [old(a[a.Length - 1])]
  {
    var j := i;
    while j < a.Length - 1
      invariant i <= j <= a.Length - 1
      invariant forall x :: 0 <= x < i || j <= x < a.Length ==> a[x] == old(a[x])
      invariant forall x :: i <= x < j ==> a[x] == old(a[x + 1])
    {
      a[j] := a[j + 1];
      j := j + 1;
    }
  }

  /** The endpoint stands in the list, after place i. */
  ghost predicate IsAfter(es: seq<Endpoint>, i: int, e: Endpoint) {
    exists x :: i < x < |es| && 0 <= x && es[x] == e
  }

  lemma Shifted(es: seq<Endpoint>, now: seq<Endpoint>, i: nat)
    requires i < |es| && now == es[..i] + es[i + 1..] + [es[|es| - 1]]
    ensures now[..|es| - 1] == RemovedEp(es, i)
    ensures forall j :: i < j < |es| ==> IsAfter(es, i, now[j])
  {
    forall j | i < j < |es| ensures IsAfter(es, i, now[j]) {
      assert now[j] == es[if j < |es| - 1 then j + 1 else j];
    }
  }

  /** An endpoint that comes after one like it would be a duplicate. */
  lemma OnlyOnce(es: seq<Endpoint>, i: int, e: Endpoint)
    requires DistinctIds(es) && (0 <= i < |es| ==> es[i].id == e.id)
    ensures 0 <= i < |es| ==> !IsAfter(es, i, e)
  {}

  lemma SameList(eps: map<PortName, seq<Endpoint>>, n: PortName)
    requires n in eps && eps[n] != []
    ensures WithList(eps, n, eps[n]) == eps
  {}

  /** Of the tables and the endpoint records, only those of the listed endpoints changed. */
  ghost predicate OnlyEndpoints(n: PortName, es: seq<Endpoint>, r0: map<Chain, EpRule>, r1: map<Chain, EpRule>,
                                t0: Tables, t1: Tables) {
    && t1 == t0.(chains := t1.chains, next := t1.next)
    && t1.chains.Keys == t0.chains.Keys && r1.Keys == r0.Keys
    && (forall d :: d in t0.chains && d !in EpChains(n, es) ==> t1.chains[d] == t0.chains[d])
    && (forall d :: d in r0 && d !in EpChains(n, es) ==> r1[d] == r0[d])
  }

  lemma OnlyNone(n: PortName, es: seq<Endpoint>, r: map<Chain, EpRule>, t: Tables)
    ensures OnlyEndpoints(n, es, r, r, t, t)
  {}

  lemma OnlyNext(n: PortName, es: seq<Endpoint>, i: nat, r0: map<Chain, EpRule>, r1: map<Chain, EpRule>, r2: map<Chain, EpRule>,
                 t0: Tables, t1: Tables, t2: Tables)
    requires OnlyEndpoints(n, es, r0, r1, t0, t1) && i < |es|
    requires ChainEdited(t1, t2, EpChain(n, es[i])) && EpChain(n, es[i]) in t1.chains && EpChain(n, es[i]) in r1
    requires EpChain(n, es[i]) in r2 && r2 == r1[EpChain(n, es[i]) := r2[EpChain(n, es[i])]]
    ensures OnlyEndpoints(n, es, r0, r2, t0, t2)
  {
    assert EpChains(n, es)[i] == EpChain(n, es[i]);
  }

  lemma EndpointKept(n: PortName, e: Endpoint, m: Option<AffinityMap>, c: Chain,
                     r0: map<Chain, EpRule>, r1: map<Chain, EpRule>, t0: Tables, t1: Tables)
    requires EndpointSynced(n, e, m, r0, t0) && EpChain(n, e) != c
    requires ChainEdited(t0, t1, c) && c in r1 && r1 == r0[c := r1[c]]
    ensures EndpointSynced(n, e, m, r1, t1)
  {}

  lemma EndpointsKept(n: PortName, es: seq<Endpoint>, m: Option<AffinityMap>, r: map<Chain, EpRule>,
                      t0: Tables, t1: Tables)
    requires EndpointsSynced(n, es, m, r, t0)
    requires forall d :: d in t0.chains && d.EndpointChain? ==> d in t1.chains && t1.chains[d] == t0.chains[d]
    ensures EndpointsSynced(n, es, m, r, t1)
  {
    forall i | 0 <= i < |es| ensures EndpointSynced(n, es[i], m, r, t1) {
      assert EndpointSynced(n, es[i], m, r, t0);
    }
  }

  lemma TouchAdded(n: PortName, e: Endpoint, m: AffinityMap, r0: map<Chain, EpRule>, ids: seq<Handle>,
                   t0: Tables, t1: Tables)
    requires EndpointSynced(n, e, None, r0, t0)
    requires ChainEdited(t0, t1, EpChain(n, e))
    requires Rules(t1.chains[EpChain(n, e)]) == [TouchRule(m, e.index)] + Rules(t0.chains[EpChain(n, e)])
    requires Handles(t1.chains[EpChain(n, e)]) == ids + Handles(t0.chains[EpChain(n, e)])
    ensures EndpointSynced(n, e, Some(m), r0[EpChain(n, e) := EpRule(ids + r0[EpChain(n, e)].ruleID, true)], t1)
  {}

  lemma DistinctInside(t: Tables, c: Chain)
    requires Closed(t) && c in t.chains
    ensures DistinctHandles(t.chains[c])
  {}

  lemma TouchRemoved(n: PortName, e: Endpoint, m: AffinityMap, r0: map<Chain, EpRule>, t0: Tables)
    requires EndpointSynced(n, e, Some(m), r0, t0) && DistinctHandles(t0.chains[EpChain(n, e)])
    ensures var c := EpChain(n, e);
            && |r0[c].ruleID| > 0 && r0[c].ruleID[0] in Handles(t0.chains[c])
            && EndpointSynced(n, e, None, r0[c := EpRule(r0[c].ruleID[1..], false)],
                              Put(t0, c, Without(t0.chains[c], HandleSet([r0[c].ruleID[0]]))))
  {
    var c := EpChain(n, e);
    var es := t0.chains[c];
    assert |Rules(es)| == 4;
    assert Handles(es)[0] == es[0].handle == r0[c].ruleID[0];
    assert HandleSet([es[0].handle]) == {es[0].handle};
    WithoutOne(es, 0);
    assert RemovedAt(es, 0) == es[1..];
    assert Rules(es[1..]) == Rules(es)[1..] == DnatRules(e.id);
    assert Handles(es[1..]) == Handles(es)[1..];
  }

  /** The elements after a service port with endpoint list `es` is added. */
  function AddedElems(n: PortName, b: BaseInfo, es: seq<Endpoint>, elems: map<Elem, Chain>): map<Elem, Chain> {
    Exposing(n, b, PortKeys(b), if es == [] then Exposing(n, b, RejectKeys(b), elems) else elems)
  }

  function MaybeMap(n: PortName, b: BaseInfo, affinity: bool): Option<AffinityMap> {
    if affinity then Some(MapOf(n, b)) else None
  }

  function OptionSet(m: Option<AffinityMap>): set<AffinityMap> {
    if m.Some? then {m.value} else {}
  }

  /** What a service port has before its chain is programmed for the first time. */
  ghost predicate Prepared(n: PortName, b: BaseInfo, affinity: bool, es: seq<Endpoint>,
                           r0: map<Chain, EpRule>, r1: map<Chain, EpRule>, t0: Tables, t1: Tables) {
    var c := ChainOf(n, b);
    && t1.chains.Keys == t0.chains.Keys + {c} && t1.chains[c] == [] && r1.Keys == r0.Keys
    && (forall d :: d in t0.chains && d != c && d !in EpChains(n, es) ==> t1.chains[d] == t0.chains[d])
    && (forall d :: d in r0 && d !in EpChains(n, es) ==> r1[d] == r0[d])
    && EndpointsSynced(n, es, MaybeMap(n, b, affinity), r1, t1)
    && t1.maps == t0.maps + OptionSet(MaybeMap(n, b, affinity))
    && t1.elems == AddedElems(n, b, es, t0.elems)
  }

  lemma AddedElemsFacts(n: PortName, b: BaseInfo, es: seq<Endpoint>, elems: map<Elem, Chain>)
    requires TypedElems(elems)
    ensures TypedElems(AddedElems(n, b, es, elems))
    ensures VMaps(AddedElems(n, b, es, elems)) == Exposing(n, b, PortKeys(b), VMaps(elems))
    ensures forall k: Elem :: k.set_ == NoEndpoints ==>
              (k in AddedElems(n, b, es, elems) <==> k in elems || (es == [] && k in RejectKeys(b)))
  {
    var e1 := if es == [] then Exposing(n, b, RejectKeys(b), elems) else elems;
    VMapsUnaffected(n, b, true, es != [], elems);
    RejectUpdateTyped(n, b, true, es != [], elems);
    assert forall k :: k in PortKeys(b) ==> k.set_ != NoEndpoints && k.family == TableFamily(b);
    ExposingTyped(n, b, PortKeys(b), e1);
    VMapsExposing(n, b, PortKeys(b), e1);
  }

  lemma VMapsExposing(n: PortName, b: BaseInfo, keys: set<Elem>, elems: map<Elem, Chain>)
    requires forall k :: k in keys ==> k.set_ != NoEndpoints
    ensures VMaps(Exposing(n, b, keys, elems)) == Exposing(n, b, keys, VMaps(elems))
  {}

  /** Before adding: nothing of the port exists yet, and its endpoints are plain. */
  lemma BeforeAdding(cluster: Cluster, b: Books, t: Tables, n: PortName, base: BaseInfo)
    requires Synced(cluster, b, t) && n !in b.services
    ensures ChainOf(n, base) !in t.chains && MapOf(n, base) !in t.maps
    ensures EndpointsSynced(n, EpsOf(b.endpoints, n), None, b.epRules, t) && DistinctIds(EpsOf(b.endpoints, n))
    ensures forall f: Family, s: StaticChain :: Static(f, s) in t.chains
  {
    assert PortSynced(n, b, t);
    assert Owns(n, ChainOf(n, base)) && !Live(n, b, ChainOf(n, base));
    assert MapOf(n, base).id.name == n;
  }

  lemma PreparedReady(n: PortName, b: BaseInfo, affinity: bool, es: seq<Endpoint>, id: ServiceId,
                      r0: map<Chain, EpRule>, r1: map<Chain, EpRule>, t0: Tables, t1: Tables)
    requires Prepared(n, b, affinity, es, r0, r1, t0, t1) && SameFamily(b, es)
    requires Static(TableFamily(b), K8sFilterDoReject) in t0.chains
    ensures ReadyToProgram(n, ServiceInfo(b, SvcNft(IdOf(n, b), es != [], affinity, [])), [], es, t1)
  {
    forall i | 0 <= i < |es| ensures EpChain(n, es[i]) in t1.chains {
      assert EndpointSynced(n, es[i], MaybeMap(n, b, affinity), r1, t1);
    }
  }

  lemma PreparedStep(b0: Books, b1: Books, n: PortName, base: BaseInfo, affinity: bool, t0: Tables, t1: Tables, t2: Tables)
    requires n !in b0.services && PortSynced(n, b0, t0) && ChainOf(n, base) !in t0.chains
    requires var es := EpsOf(b0.endpoints, n);
             var si := ServiceInfo(base, SvcNft(IdOf(n, base), es != [], affinity, []));
             && Prepared(n, base, affinity, es, b0.epRules, b1.epRules, t0, t1)
             && Updated(n, b0.services[n := si], b1.services, es, t1, t2)
    requires b1.endpoints == b0.endpoints
    ensures ServiceStep(b0, t0, b1, t2, n)
  {
    hide AddedElems, RejectUpdate, ServiceRules, EndpointSynced, RecordPart, EndpointPart;
    var es := EpsOf(b0.endpoints, n);
    EndpointsKept(n, es, MaybeMap(n, base, affinity), b1.epRules, t1, t2);
    assert StickyOf(b1.services, n) == MaybeMap(n, base, affinity);
    forall d | d in t2.chains
      ensures if d.ServiceChain? && Owns(n, d) then IsServiceChainOf(b1, n, d) else d in t0.chains
    {
      assert d in t0.chains && Owns(n, d) ==> Live(n, b0, d);
    }
    forall m | m in t2.maps && m.id.name == n ensures StickyOf(b1.services, n) == Some(m) {
      assert m in t0.maps ==> StickyOf(b0.services, n) == Some(m);
    }
  }

  lemma AfterAdding(cluster: Cluster, b0: Books, b1: Books, n: PortName, base: BaseInfo, affinity: bool,
                    t0: Tables, t1: Tables, t2: Tables)
    requires Synced(cluster, b0, t0) && n !in b0.services && Closed(t2)
    requires forall m :: m in b0.services ==> RejectKeys(b0.services[m].base) !! RejectKeys(base)
    requires var es := EpsOf(b0.endpoints, n);
             var si := ServiceInfo(base, SvcNft(IdOf(n, base), es != [], affinity, []));
             && Prepared(n, base, affinity, es, b0.epRules, b1.epRules, t0, t1)
             && Updated(n, b0.services[n := si], b1.services, es, t1, t2)
    requires b1.endpoints == b0.endpoints
    ensures Synced(cluster, b1, t2)
    ensures ConfigOf(cluster, b1, t2) == ConfigOf(cluster, b0, t0).(
              services := ServicesOf(b0.services)[n := Service(base, affinity)],
              vmaps := Exposing(n, base, PortKeys(base), VMaps(t0.elems)))
  {
    var es := EpsOf(b0.endpoints, n);
    var si := ServiceInfo(base, SvcNft(IdOf(n, base), es != [], affinity, []));
    BeforeAdding(cluster, b0, t0, n, base);
    assert PortSynced(n, b0, t0);
    PreparedStep(b0, b1, n, base, affinity, t0, t1, t2);
    AddedElemsFacts(n, base, es, t0.elems);
    ServicesAdded(b0.services, b1.services, n, si);
    AddedRejects(b0, b1, n, base, t0.elems, t2.elems);
    ServiceStepSynced(cluster, b0, t0, b1, t2, n, base);
  }

  lemma ServicesAdded(svcs0: map<PortName, ServiceInfo>, svcs1: map<PortName, ServiceInfo>, n: PortName, si: ServiceInfo)
    requires n in svcs1 && svcs1 == svcs0[n := si][n := svcs1[n]] && ServiceOf(svcs1[n]) == ServiceOf(si)
    ensures ServicesOf(svcs1) == ServicesOf(svcs0)[n := ServiceOf(si)]
  {}

  lemma AddedRejects(b0: Books, b1: Books, n: PortName, base: BaseInfo, e0: map<Elem, Chain>, e1: map<Elem, Chain>)
    requires RejectsSynced(b0, e0) && n !in b0.services
    requires forall m :: m in b0.services ==> RejectKeys(b0.services[m].base) !! RejectKeys(base)
    requires n in b1.services && b1.services[n].base == base && b1.endpoints == b0.endpoints
    requires forall k: Elem :: k.set_ == NoEndpoints ==>
               (k in e1 <==> k in e0 || (EpsOf(b0.endpoints, n) == [] && k in RejectKeys(base)))
    ensures ServiceRejects(b0, e0, b1, e1, n, base)
  {
    forall k | k in RejectKeys(base) ensures k !in e0 {
      assert k.set_ == NoEndpoints;
      assert forall m :: !RejectOwner(m, b0, k);
    }
  }

  /** A service port with an empty chain, plain endpoints and no elements of its own. */
  ghost predicate Drained(n: PortName, si: ServiceInfo, es: seq<Endpoint>, removed: set<Elem>,
                          r0: map<Chain, EpRule>, r1: map<Chain, EpRule>, t0: Tables, t1: Tables) {
    var c := ChainOf(n, si.base);
    && t1.chains.Keys == t0.chains.Keys && c in t1.chains && t1.chains[c] == [] && r1.Keys == r0.Keys
    && (forall d :: d in t0.chains && d != c && d !in EpChains(n, es) ==> t1.chains[d] == t0.chains[d])
    && (forall d :: d in r0 && d !in EpChains(n, es) ==> r1[d] == r0[d])
    && EndpointsSynced(n, es, None, r1, t1)
    && t1.maps == t0.maps
    && t1.elems == (if si.nft.withEndpoints then t0.elems else t0.elems - RejectKeys(si.base)) - removed
  }

  lemma DrainedUnreferenced(cluster: Cluster, b: Books, r1: map<Chain, EpRule>, t0: Tables, t1: Tables,
                            n: PortName, removed: set<Elem>)
    requires Synced(cluster, b, t0) && n in b.services
    requires Drained(n, b.services[n], EpsOf(b.endpoints, n), removed, b.epRules, r1, t0, t1)
    requires forall k :: k in t0.elems && t0.elems[k] == ChainOf(n, b.services[n].base) ==> k in removed
    ensures ChainUnreferenced(t1, ChainOf(n, b.services[n].base))
    ensures MapUnreferenced(t1, MapOf(n, b.services[n].base))
  {
    forall d, j | d in t1.chains && 0 <= j < |t1.chains[d]|
      ensures ChainOf(n, b.services[n].base) !in Targets(t1.chains[d][j].rule)
      ensures MapOf(n, b.services[n].base) !in MapRefs(t1.chains[d][j].rule)
    {
      DrainedReferences(cluster, b, t0, r1, t1, n, [], d, j);
    }
  }

  lemma PortFacts(cluster: Cluster, b: Books, t: Tables, n: PortName)
    requires Synced(cluster, b, t)
    ensures PortSynced(n, b, t)
  {}

  lemma ListFacts(cluster: Cluster, b: Books, t: Tables, n: PortName)
    requires Synced(cluster, b, t) && n in b.endpoints
    ensures DistinctIds(b.endpoints[n]) && b.endpoints[n] != []
  {
    assert PortSynced(n, b, t);
  }

  /** What the service thread finds out about a port before it changes it. */
  lemma ServiceFacts(cluster: Cluster, b: Books, t: Tables, n: PortName)
    requires Synced(cluster, b, t) && n in b.services
    ensures ServiceSynced(n, b.services[n], EpsOf(b.endpoints, n), t)
    ensures EndpointsSynced(n, EpsOf(b.endpoints, n), StickyOf(b.services, n), b.epRules, t)
    ensures DistinctIds(EpsOf(b.endpoints, n))
    ensures forall m: AffinityMap :: m.id.name == n && m in t.maps ==> StickyOf(b.services, n) == Some(m)
    ensures DistinctHandles(t.chains[ChainOf(n, b.services[n].base)])
  {
    assert PortSynced(n, b, t);
  }

  lemma DrainedStep(b0: Books, b1: Books, n: PortName, removed: set<Elem>, t0: Tables, t1: Tables, t2: Tables)
    requires n in b0.services && PortSynced(n, b0, t0)
    requires Drained(n, b0.services[n], EpsOf(b0.endpoints, n), removed, b0.epRules, b1.epRules, t0, t1)
    requires t2.chains == t1.chains - {ChainOf(n, b0.services[n].base)}
    requires t2.maps == t1.maps - {MapOf(n, b0.services[n].base)}
    requires b1.services == b0.services - {n} && b1.endpoints == b0.endpoints
    ensures ServiceStep(b0, t0, b1, t2, n)
  {
    EndpointsKept(n, EpsOf(b0.endpoints, n), None, b1.epRules, t1, t2);
    forall d | d in t0.chains && d.ServiceChain? && Owns(n, d) ensures d == ChainOf(n, b0.services[n].base) {
      assert Live(n, b0, d);
    }
  }

  lemma DrainedRejects(b0: Books, b1: Books, n: PortName, removed: set<Elem>, e0: map<Elem, Chain>, e1: map<Elem, Chain>)
    requires RejectsSynced(b0, e0) && Apart(b0.services) && n in b0.services
    requires b0.services[n].nft.withEndpoints <==> EpsOf(b0.endpoints, n) != []
    requires e1 == (if b0.services[n].nft.withEndpoints then e0 else e0 - RejectKeys(b0.services[n].base)) - removed
    requires forall k :: k in removed ==> k.set_ != NoEndpoints
    requires b1.services == b0.services - {n}
    ensures ServiceRejects(b0, e0, b1, e1, n, b0.services[n].base)
  {
    forall k | k in RejectKeys(b0.services[n].base) ensures k !in e1 {
      assert k.set_ == NoEndpoints;
      NoEndpointsAgree(n, b0, e0, k);
    }
  }

  lemma AfterDeleting(cluster: Cluster, b0: Books, b1: Books, n: PortName, removed: set<Elem>,
                      t0: Tables, t1: Tables, t2: Tables)
    requires Synced(cluster, b0, t0) && n in b0.services && Closed(t2)
    requires Drained(n, b0.services[n], EpsOf(b0.endpoints, n), removed, b0.epRules, b1.epRules, t0, t1)
    requires t2.chains == t1.chains - {ChainOf(n, b0.services[n].base)} && t2.elems == t1.elems
    requires t2.maps == t1.maps - {MapOf(n, b0.services[n].base)}
    requires b1.services == b0.services - {n} && b1.endpoints == b0.endpoints
    requires forall k :: k in removed ==> k.set_ != NoEndpoints
    ensures Synced(cluster, b1, t2)
    ensures ConfigOf(cluster, b1, t2) == ConfigOf(cluster, b0, t0).(
              services := ServicesOf(b0.services) - {n}, vmaps := VMaps(t0.elems) - removed)
  {
    ServiceFacts(cluster, b0, t0, n);
    assert PortSynced(n, b0, t0);
    DrainedStep(b0, b1, n, removed, t0, t1, t2);
    DrainedRejects(b0, b1, n, removed, t0.elems, t2.elems);
    DrainedElems(b0.services[n], removed, t0.elems);
    ServicesRemoved(b0.services, n);
    ServiceStepSynced(cluster, b0, t0, b1, t2, n, b0.services[n].base);
  }

  lemma ServicesRemoved(svcs: map<PortName, ServiceInfo>, n: PortName)
    ensures ServicesOf(svcs - {n}) == ServicesOf(svcs) - {n}
  {}

  lemma DrainedElems(si: ServiceInfo, removed: set<Elem>, e0: map<Elem, Chain>)
    requires TypedElems(e0)
    ensures var e1 := (if si.nft.withEndpoints then e0 else e0 - RejectKeys(si.base)) - removed;
            TypedElems(e1) && VMaps(e1) == VMaps(e0) - removed
  {
    assert forall k :: k in RejectKeys(si.base) ==> k.set_ == NoEndpoints;
    var e1 := (if si.nft.withEndpoints then e0 else e0 - RejectKeys(si.base)) - removed;
    forall k | k in e1 ensures TypedElem(k, e1[k]) {
      assert TypedElem(k, e0[k]);
    }
  }

  lemma StickyInserted(n: PortName, si: ServiceInfo, es: seq<Endpoint>, chain: seq<Entry>, h: Handle)
    requires es != [] && !si.nft.withAffinity && DistinctHandles(chain)
    requires Rules(chain) == ServiceRules(n, ServiceOf(si), es) && Handles(chain) == si.nft.ruleID
    ensures |si.nft.ruleID| == 2 && si.nft.ruleID[1] in Handles(chain) && PositionOf(chain, si.nft.ruleID[1]) == 1
    ensures var now := InsertedAt(chain, 1, Entry(h, StickyRule(MapOf(n, si.base), n, es)));
            && Rules(now) == ServiceRules(n, Service(si.base, true), es)
            && Handles(now) == [si.nft.ruleID[0]] + [h] + si.nft.ruleID[1..]
  {
    assert |chain| == |Rules(chain)| == 2;
    assert Handles(chain)[1] == chain[1].handle;
    PositionAt(chain, 1);
    var now := InsertedAt(chain, 1, Entry(h, StickyRule(MapOf(n, si.base), n, es)));
    assert Rules(now)[0] == Rules(chain)[0] && Rules(now)[2] == Rules(chain)[1];
    assert Handles(now)[0] == Handles(chain)[0] && Handles(now)[2] == Handles(chain)[1];
  }

  lemma StickyRemoved(n: PortName, si: ServiceInfo, es: seq<Endpoint>, chain: seq<Entry>)
    requires es != [] && si.nft.withAffinity && DistinctHandles(chain)
    requires Rules(chain) == ServiceRules(n, ServiceOf(si), es) && Handles(chain) == si.nft.ruleID
    ensures |si.nft.ruleID| == 3 && si.nft.ruleID[1] in Handles(chain)
    ensures var now := Without(chain, HandleSet([si.nft.ruleID[1]]));
            && Rules(now) == ServiceRules(n, Service(si.base, false), es)
            && Handles(now) == [si.nft.ruleID[0]] + si.nft.ruleID[2..]
  {
    assert |chain| == |Rules(chain)| == 3;
    assert Handles(chain)[1] == chain[1].handle;
    assert HandleSet([si.nft.ruleID[1]]) == {chain[1].handle};
    WithoutOne(chain, 1);
    var now := RemovedAt(chain, 1);
    assert Rules(now)[0] == Rules(chain)[0] && Rules(now)[1] == Rules(chain)[2];
    assert Handles(now)[0] == Handles(chain)[0] && Handles(now)[1] == Handles(chain)[2];
  }

  /** A toggle is a service step that leaves every verdict map alone. */
  lemma AfterToggle(cluster: Cluster, b0: Books, b1: Books, n: PortName, t0: Tables, t1: Tables)
    requires Synced(cluster, b0, t0) && Closed(t1) && t1.elems == t0.elems
    requires n in b0.services && n in b1.services && b1.services[n].base == b0.services[n].base
    requires b1.services == b0.services[n := b1.services[n]]
    requires ServiceStep(b0, t0, b1, t1, n)
    ensures Synced(cluster, b1, t1)
    ensures ConfigOf(cluster, b1, t1) == ConfigOf(cluster, b0, t0).(
              services := ServicesOf(b0.services)[n := ServiceOf(b1.services[n])])
  {
    forall k | k in RejectKeys(b0.services[n].base) ensures k in t0.elems <==> EpsOf(b0.endpoints, n) == [] {
      NoEndpointsAgree(n, b0, t0.elems, k);
    }
    ServicesAdded(b0.services, b1.services, n, b1.services[n]);
    ServiceStepSynced(cluster, b0, t0, b1, t1, n, b0.services[n].base);
  }

  /** What a toggle does: the service chain and the endpoint chains of one port change. */
  lemma ToggledStep(b0: Books, b1: Books, n: PortName, t0: Tables, t1: Tables)
    requires n in b0.services && n in b1.services && PortSynced(n, b0, t0)
    requires b1.services[n].base == b0.services[n].base
    requires b1.services == b0.services[n := b1.services[n]] && b1.endpoints == b0.endpoints
    requires ServiceSynced(n, b1.services[n], EpsOf(b0.endpoints, n), t1)
    requires EndpointsSynced(n, EpsOf(b0.endpoints, n), StickyOf(b1.services, n), b1.epRules, t1)
    requires t1.chains.Keys == t0.chains.Keys && b1.epRules.Keys == b0.epRules.Keys
    requires forall d :: d in t0.chains && d != ChainOf(n, b0.services[n].base) && d !in EpChains(n, EpsOf(b0.endpoints, n)) ==>
               t1.chains[d] == t0.chains[d]
    requires forall d :: d in b0.epRules && d !in EpChains(n, EpsOf(b0.endpoints, n)) ==> b1.epRules[d] == b0.epRules[d]
    requires t1.maps == if b1.services[n].nft.withAffinity then t0.maps + {MapOf(n, b0.services[n].base)}
                        else t0.maps - {MapOf(n, b0.services[n].base)}
    ensures ServiceStep(b0, t0, b1, t1, n)
  {
    forall d | d in t0.chains && d.ServiceChain? && Owns(n, d) ensures d == ChainOf(n, b0.services[n].base) {
      assert Live(n, b0, d);
    }
    forall m | m in t0.maps && m.id.name == n ensures m == MapOf(n, b0.services[n].base) {
      assert StickyOf(b0.services, n) == Some(m);
    }
  }

  /** Editing any verdict map but no-endpoints is a step that concerns no port's chains. */
  lemma VMapsEdited(cluster: Cluster, b: Books, t0: Tables, elems: map<Elem, Chain>)
    requires Synced(cluster, b, t0) && Closed(t0.(elems := elems)) && TypedElems(elems)
    requires forall k: Elem :: k.set_ == NoEndpoints ==> (k in elems <==> k in t0.elems)
    ensures Synced(cluster, b, t0.(elems := elems))
  {
    var t1 := t0.(elems := elems);
    forall n ensures PortSynced(n, b, t1) {
      assert PortSynced(n, b, t0);
      EndpointsKept(n, EpsOf(b.endpoints, n), StickyOf(b.services, n), b.epRules, t0, t1);
    }
    forall n ensures RejectsFor(n, b, elems) {
      assert RejectsFor(n, b, t0.elems);
      if n in b.services && EpsOf(b.endpoints, n) == [] {
        forall k | k in RejectKeys(b.services[n].base) ensures k in elems {
          assert k.set_ == NoEndpoints;
        }
      }
    }
  }

  lemma StaticPresent(cluster: Cluster, b: Books, t: Tables, f: Family, s: StaticChain)
    requires Synced(cluster, b, t)
    ensures Static(f, s) in t.chains
  {}

  lemma ElemAdded(cluster: Cluster, b: Books, t: Tables, n: PortName, base: BaseInfo, k: Elem)
    requires Synced(cluster, b, t) && k.set_ != NoEndpoints && k.family == TableFamily(base)
    requires Closed(t.(elems := AddOne(n, base, t.elems, k)))
    ensures Synced(cluster, b, t.(elems := AddOne(n, base, t.elems, k)))
    ensures VMaps(AddOne(n, base, t.elems, k)) == AddOne(n, base, VMaps(t.elems), k)
  {
    assert TypedElem(k, Target(n, base, k));
    assert TypedElems(t.elems);
    assert TypedElems(AddOne(n, base, t.elems, k));
    hide Synced, Closed, TypedElems;
    VMapsEdited(cluster, b, t, AddOne(n, base, t.elems, k));
  }

  lemma ElemRemoved(cluster: Cluster, b: Books, t: Tables, k: Elem)
    requires Synced(cluster, b, t) && k.set_ != NoEndpoints && Closed(t.(elems := t.elems - {k}))
    ensures Synced(cluster, b, t.(elems := t.elems - {k}))
    ensures VMaps(t.elems - {k}) == VMaps(t.elems) - {k}
  {
    assert TypedElems(t.elems);
    assert TypedElems(t.elems - {k});
    hide Synced, Closed, TypedElems;
    VMapsEdited(cluster, b, t, t.elems - {k});
  }

  class Proxy {
    const nft: Kernel
    const cluster: Cluster
    const hostname: string
    var serviceMap: map<PortName, ServiceInfo>
    var endpointsMap: map<PortName, seq<Endpoint>>
    var epRules: map<Chain, EpRule>
    var svcCache: map<NamespacedName, ServiceObject>
    var epCache: map<NamespacedName, EndpointsObject>
    var sliceCache: map<NamespacedName, SliceObject>

    /** A proxy that has seen nothing yet, on tables that hold the static ruleset only. */
    constructor (nft: Kernel, cluster: Cluster, hostname: string)
      requires nft.Valid() && ImageOf(nft.tables) == Compile(InitialConfig(cluster))
      ensures this.nft == nft && this.cluster == cluster && this.hostname == hostname
      ensures Valid() && GetConfig() == InitialConfig(cluster)
      ensures svcCache == map[] && epCache == map[] && sliceCache == map[]
    {
      this.nft, this.cluster, this.hostname := nft, cluster, hostname;
      serviceMap, endpointsMap, epRules := map[], map[], map[];
      svcCache, epCache, sliceCache := map[], map[], map[];
      new;
      InitiallySynced(cluster, nft.tables);
    }

    ghost function GetBooks(): Books
      reads this
    {
      Books(serviceMap, endpointsMap, epRules)
    }

    /** The state the ruleset is a function of. */
    ghost function GetConfig(): Config
      reads this, nft
    {
      ConfigOf(cluster, GetBooks(), nft.tables)
    }

    ghost predicate Valid()
      reads this, nft
    {
      nft.Valid() && Synced(cluster, GetBooks(), nft.tables)
    }

    /** Only the elements of the kernel changed. */
    twostate predicate ElemsOnly()
      reads nft
    {
      nft.tables == old(nft.tables).(elems := nft.tables.elems)
    }

    /** Adds a port's key in one verdict map for each address. */
    method AddAddresses(ghost n: PortName, b: BaseInfo, s: SetName, addrs: seq<Address>, target: Chain)
      requires nft.Valid() && target in nft.tables.chains
      requires forall k :: k in AddrKeys(b, s, addrs) ==> Target(n, b, k) == target
      modifies nft
      ensures nft.Valid() && old(nft.history) <= nft.history && ElemsOnly()
      ensures nft.tables.elems == Exposing(n, b, AddrKeys(b, s, addrs), old(nft.tables).elems)
    {
      hide Closed, Exposing;
      ghost var e0 := nft.tables.elems;
      ExposingNoAddress(n, b, s, e0);
      assert addrs[..0] == [];
      for i := 0 to |addrs|
        invariant nft.Valid() && old(nft.history) <= nft.history && ElemsOnly()
        invariant nft.tables.elems == Exposing(n, b, AddrKeys(b, s, addrs[..i]), e0)
      {
        AddrKeysOneMore(b, s, addrs, i);
        ExposingOneMore(n, b, AddrKeys(b, s, addrs[..i]), e0, AddrKey(b, s, addrs[i]));
        assert AddrKey(b, s, addrs[i]) in AddrKeys(b, s, addrs);
        nft.AddElem(AddrKey(b, s, addrs[i]), target);
      }
      assert addrs[..|addrs|] == addrs;
    }

    /** Adds a port's key and its masquerade key for each address. */
    method AddMarkedAddresses(n: PortName, b: BaseInfo, s: SetName, addrs: seq<Address>)
      requires nft.Valid() && (s.ClusterIP? || s.ExternalIP? || s.LoadbalancerIP?)
      requires ChainOf(n, b) in nft.tables.chains && Static(TableFamily(b), K8sNatDoMarkMasq) in nft.tables.chains
      modifies nft
      ensures nft.Valid() && old(nft.history) <= nft.history && ElemsOnly()
      ensures nft.tables.elems == Exposing(n, b, MarkedKeys(b, s, addrs), old(nft.tables).elems)
    {
      hide Closed, MarkedKeys, Exposing;
      ghost var e0 := nft.tables.elems;
      ExposingNoAddress(n, b, s, e0);
      assert addrs[..0] == [];
      for i := 0 to |addrs|
        invariant nft.Valid() && old(nft.history) <= nft.history && ElemsOnly()
        invariant nft.tables.elems == Exposing(n, b, MarkedKeys(b, s, addrs[..i]), e0)
      {
        MarkedOneMore(n, b, s, addrs, i, e0);
        nft.AddElem(AddrKey(b, s, addrs[i]), ChainOf(n, b));
        nft.AddElem(AddrKey(b, MarkMasq, addrs[i]), Static(TableFamily(b), K8sNatDoMarkMasq));
      }
      assert addrs[..|addrs|] == addrs;
    }

    method RemoveAddresses(b: BaseInfo, s: SetName, addrs: seq<Address>)
      requires nft.Valid()
      modifies nft
      ensures nft.Valid() && old(nft.history) <= nft.history && ElemsOnly()
      ensures nft.tables.elems == old(nft.tables).elems - AddrKeys(b, s, addrs)
    {
      ghost var e0 := nft.tables.elems;
      for i := 0 to |addrs|
        invariant nft.Valid() && old(nft.history) <= nft.history && ElemsOnly()
        invariant nft.tables.elems == e0 - AddrKeys(b, s, addrs[..i])
      {
        AddrKeysOneMore(b, s, addrs, i);
        nft.RemoveElem(AddrKey(b, s, addrs[i]));
      }
      assert addrs[..|addrs|] == addrs;
    }

    method RemoveMarkedAddresses(b: BaseInfo, s: SetName, addrs: seq<Address>)
      requires nft.Valid()
      modifies nft
      ensures nft.Valid() && old(nft.history) <= nft.history && ElemsOnly()
      ensures nft.tables.elems == old(nft.tables).elems - MarkedKeys(b, s, addrs)
    {
      hide Closed;
      ghost var e0 := nft.tables.elems;
      for i := 0 to |addrs|
        invariant nft.Valid() && old(nft.history) <= nft.history && ElemsOnly()
        invariant nft.tables.elems == e0 - MarkedKeys(b, s, addrs[..i])
      {
        MarkedOneLess(b, s, addrs, i, e0);
        nft.RemoveElem(AddrKey(b, s, addrs[i]));
        nft.RemoveElem(AddrKey(b, MarkMasq, addrs[i]));
      }
      assert addrs[..|addrs|] == addrs;
    }

    method AddToNoEndpointsList(ghost n: PortName, b: BaseInfo)
      requires nft.Valid() && Static(TableFamily(b), K8sFilterDoReject) in nft.tables.chains
      modifies nft
      ensures nft.Valid() && old(nft.history) <= nft.history && ElemsOnly()
      ensures nft.tables.elems == Exposing(n, b, RejectKeys(b), old(nft.tables).elems)
      ensures forall a :: a in [b.clusterIP] + b.externalIPs + b.loadBalancerIPs ==>
                Elem(if b.clusterIP.Ip6? then IPv6 else IPv4, NoEndpoints, b.protocol, a, b.port) in nft.tables.elems
    {
      var reject := Static(TableFamily(b), K8sFilterDoReject);
      ghost var e0 := nft.tables.elems;
      ghost var k1, k2, k3 := AddrKeys(b, NoEndpoints, [b.clusterIP]),
          AddrKeys(b, NoEndpoints, b.externalIPs), AddrKeys(b, NoEndpoints, b.loadBalancerIPs);
      AddAddresses(n, b, NoEndpoints, [b.clusterIP], reject);
      AddAddresses(n, b, NoEndpoints, b.externalIPs, reject);
      AddAddresses(n, b, NoEndpoints, b.loadBalancerIPs, reject);
      ExposingTwice(n, b, k1, k2, e0);
      ExposingTwice(n, b, k1 + k2, k3, e0);
      forall a | a in [b.clusterIP] + b.externalIPs + b.loadBalancerIPs
        ensures Elem(if b.clusterIP.Ip6? then IPv6 else IPv4, NoEndpoints, b.protocol, a, b.port) in nft.tables.elems
      {
        RejectKeysExactly(b, Elem(if b.clusterIP.Ip6? then IPv6 else IPv4, NoEndpoints, b.protocol, a, b.port));
      }
    }

    method RemoveFromNoEndpointsList(b: BaseInfo)
      requires nft.Valid()
      modifies nft
      ensures nft.Valid() && old(nft.history) <= nft.history && ElemsOnly()
      ensures nft.tables.elems == old(nft.tables).elems - RejectKeys(b)
      ensures forall a :: a in [b.clusterIP] + b.externalIPs + b.loadBalancerIPs ==>
                Elem(if b.clusterIP.Ip6? then IPv6 else IPv4, NoEndpoints, b.protocol, a, b.port) !in nft.tables.elems
    {
      RemoveAddresses(b, NoEndpoints, [b.clusterIP]);
      RemoveAddresses(b, NoEndpoints, b.externalIPs);
      RemoveAddresses(b, NoEndpoints, b.loadBalancerIPs);
      forall a | a in [b.clusterIP] + b.externalIPs + b.loadBalancerIPs
        ensures Elem(if b.clusterIP.Ip6? then IPv6 else IPv4, NoEndpoints, b.protocol, a, b.port) !in nft.tables.elems
      {
        RejectKeysExactly(b, Elem(if b.clusterIP.Ip6? then IPv6 else IPv4, NoEndpoints, b.protocol, a, b.port));
      }
    }

    method AddServicePortToSets(n: PortName, b: BaseInfo)
      requires nft.Valid()
      requires ChainOf(n, b) in nft.tables.chains && Static(TableFamily(b), K8sNatDoMarkMasq) in nft.tables.chains
      modifies nft
      ensures nft.Valid() && old(nft.history) <= nft.history && ElemsOnly()
      ensures nft.tables.elems == Exposing(n, b, PortKeys(b), old(nft.tables).elems)
    {
      ExposingGroups(n, b, nft.tables.elems);
      AddMarkedAddresses(n, b, ClusterIP, [b.clusterIP]);
      AddMarkedAddresses(n, b, ExternalIP, b.externalIPs);
      AddMarkedAddresses(n, b, LoadbalancerIP, b.loadBalancerIPs);
      SingleNodeKey(n, b, nft.tables.elems);
      if b.nodePort != 0 {
        nft.AddElem(NodeKey(b, b.nodePort), ChainOf(n, b));
      }
    }

    method RemoveNodePorts(b: BaseInfo, nps: seq<Port>)
      requires nft.Valid()
      modifies nft
      ensures nft.Valid() && old(nft.history) <= nft.history && ElemsOnly()
      ensures nft.tables.elems == old(nft.tables).elems - NodeKeys(b, nps)
    {
      ghost var e0 := nft.tables.elems;
      for i := 0 to |nps|
        invariant nft.Valid() && old(nft.history) <= nft.history && ElemsOnly()
        invariant nft.tables.elems == e0 - NodeKeys(b, nps[..i])
      {
        NodeOneLess(b, nps, i, e0);
        if nps[i] != 0 {
          nft.RemoveElem(NodeKey(b, nps[i]));
        }
      }
      assert nps[..|nps|] == nps;
    }

    /** Addresses come from the last known service, ports from the service port itself; the
        nodeports of all the service's ports go, under the protocol of this one. */
    method RemoveServicePortFromSets(b: BaseInfo)
      requires nft.Valid()
      modifies nft
      ensures nft.Valid() && old(nft.history) <= nft.history && ElemsOnly()
      ensures nft.tables.elems == old(nft.tables).elems - RemovedFor(b)
    {
      if b.service !in svcCache {
        return;
      }
      var svc := svcCache[b.service];
      if svc.clusterIP != NoAddress {
        RemoveMarkedAddresses(b, ClusterIP, [svc.clusterIP]);
      }
      RemoveMarkedAddresses(b, ExternalIP, svc.externalIPs);
      RemoveMarkedAddresses(b, LoadbalancerIP, svc.ingress);
      RemoveNodePorts(b, NodePortsOf(svc.ports));
      RemovedGroups(b, svc, old(nft.tables).elems);
    }

    /** Brings a service port's chain, flag and no-endpoints keys in line with its endpoint list. */
    method UpdateServiceChain(n: PortName, ghost was: seq<Endpoint>)
      requires nft.Valid()
      requires n in serviceMap ==> ReadyToProgram(n, serviceMap[n], was, EpsOf(endpointsMap, n), nft.tables)
      modifies this`serviceMap, nft
      ensures nft.Valid() && old(nft.history) <= nft.history
      ensures Updated(n, old(serviceMap), serviceMap, EpsOf(endpointsMap, n), old(nft.tables), nft.tables)
    {
      if n !in serviceMap {
        return;
      }
      var entry := serviceMap[n];
      var es := EpsOf(endpointsMap, n);
      if |es| == 0 {
        if entry.nft.withEndpoints {
          AddToNoEndpointsList(n, entry.base);
        }
        entry := entry.(nft := entry.nft.(withEndpoints := false));
      } else {
        if !entry.nft.withEndpoints {
          RemoveFromNoEndpointsList(entry.base);
        }
        entry := entry.(nft := entry.nft.(withEndpoints := true));
      }
      if |es| != 0 {
        var rules := ProgramServiceEndpoints(nft, n, ServiceOf(entry), es, entry.nft.ruleID, was);
        entry := entry.(nft := entry.nft.(ruleID := rules));
      } else {
        DeleteAllRules(nft, ChainOf(n, entry.base), entry.nft.ruleID);
        entry := entry.(nft := entry.nft.(ruleID := []));
      }
      serviceMap := serviceMap[n := entry];
    }

    /** An endpoint is local if it runs on this node. */
    function IsLocal(addr: EndpointAddress): bool {
      addr.nodeName == Some(hostname)
    }

    static function IdFor(addr: EndpointAddress, port: EndpointPort): EndpointId {
      EndpointId(addr.ip, port.port, port.protocol)
    }

    /** Fills the endpoint chain: the affinity update rule if asked for, then mark and DNAT. */
    method AddEndpointRules(n: PortName, e: Endpoint, sticky: Option<AffinityMap>)
      requires nft.Valid() && EpChain(n, e) !in nft.tables.chains
      requires sticky.Some? ==> sticky.value in nft.tables.maps
      modifies this`epRules, nft
      ensures nft.Valid() && old(nft.history) <= nft.history
      ensures ChainEdited(old(nft.tables), nft.tables, EpChain(n, e))
      ensures EpChain(n, e) in epRules && epRules == old(epRules)[EpChain(n, e) := epRules[EpChain(n, e)]]
      ensures EndpointSynced(n, e, sticky, epRules, nft.tables)
    {
      var c := EpChain(n, e);
      var ruleID: seq<Handle> := [];
      if sticky.Some? {
        ruleID := AddEndpointUpdateRule(nft, c, e.index, sticky.value);
      }
      var ids := Programming.AddEndpointRules(nft, c, e.id);
      epRules := epRules[c := EpRule(ruleID + ids, sticky.Some?)];
    }

    method AddEndpoint(n: PortName, addr: EndpointAddress, port: EndpointPort)
      requires Valid()
      requires forall i :: 0 <= i < |EpsOf(endpointsMap, n)| ==> EpsOf(endpointsMap, n)[i].id != IdFor(addr, port)
      requires n in serviceMap ==> FamilyOf(addr.ip) == TableFamily(serviceMap[n].base)
      modifies this`serviceMap, this`endpointsMap, this`epRules, nft
      ensures Valid() && old(nft.history) <= nft.history
      ensures var es := EpsOf(old(endpointsMap), n);
              GetConfig() == old(GetConfig()).(endpoints :=
                old(endpointsMap)[n := es + [Endpoint(IdFor(addr, port), IsLocal(addr), |es|)]])
    {
      ghost var b0, t0 := GetBooks(), nft.tables;
      assert PortSynced(n, b0, t0);
      var es := EpsOf(endpointsMap, n);
      var e := Endpoint(IdFor(addr, port), IsLocal(addr), |es|);
      var sticky := if n in serviceMap && serviceMap[n].nft.withAffinity
                    then Some(AffinityMap(FamilyOf(addr.ip), serviceMap[n].nft.id)) else None;
      NewEndpointChain(n, b0, t0, e);
      AddEndpointRules(n, e, sticky);
      endpointsMap := endpointsMap[n := es + [e]];
      if n in serviceMap {
        AddedReady(n, b0, t0, nft.tables, e);
      }
      ghost var t1 := nft.tables;
      UpdateServiceChain(n, es);
      UpdatedConfig(cluster, n, b0, GetBooks(), es + [e], t1, nft.tables);
      AddedAfterUpdate(b0, GetBooks(), t0, t1, nft.tables, n, e);
      AddEndpointSynced(cluster, b0, t0, GetBooks(), nft.tables, n, e);
    }

    /** Empties a chain that nothing refers to any more and deletes it. */
    method DeleteEndpointRules(c: Chain, ruleID: seq<Handle>)
      requires nft.Valid() && c in nft.tables.chains && Handles(nft.tables.chains[c]) == ruleID
      requires ChainUnreferenced(Put(nft.tables, c, []), c)
      modifies this`epRules, nft
      ensures nft.Valid() && old(nft.history) <= nft.history
      ensures nft.tables == old(nft.tables).(chains := old(nft.tables).chains - {c})
      ensures epRules == old(epRules) - {c}
    {
      DeleteAllRules(nft, c, ruleID);
      nft.DeleteChain(c);
      epRules := epRules - {c};
    }

    /** Takes the i-th endpoint of a port out of service: first the service chain stops using its
        chain, then that chain is emptied and deleted. */
    method RemoveEndpointAt(n: PortName, i: nat, rest: seq<Endpoint>)
      requires Valid() && n in endpointsMap && i < |endpointsMap[n]| && rest == RemovedEp(endpointsMap[n], i)
      modifies this`serviceMap, this`endpointsMap, this`epRules, nft
      ensures Valid() && old(nft.history) <= nft.history
      ensures GetConfig() == old(GetConfig()).(endpoints := WithList(old(endpointsMap), n, rest))
    {
      ghost var b0, t0 := GetBooks(), nft.tables;
      var es := endpointsMap[n];
      var c := EpChain(n, es[i]);
      BeforeRemoval(cluster, b0, t0, n, i);
      var ruleID := epRules[c].ruleID;
      endpointsMap := endpointsMap[n := rest];
      UpdateServiceChain(n, es);
      ghost var t1 := nft.tables;
      AfterUpdate(cluster, b0, serviceMap, t0, t1, n, i);
      DeleteEndpointRules(c, ruleID);
      if |rest| == 0 {
        endpointsMap := endpointsMap - {n};
      }
      UpdatedConfig(cluster, n, b0, GetBooks(), rest, t0, t1);
      DeletedAfterUpdate(cluster, b0, GetBooks(), t0, t1, nft.tables, n, i);
    }

    /** Ranges over the slice while `append` shifts its backing array under the loop. */
    method DeleteEndpoint(n: PortName, addr: EndpointAddress, port: EndpointPort, eps: seq<Endpoint>)
      requires Valid() && n in endpointsMap && eps == endpointsMap[n]
      modifies this`serviceMap, this`endpointsMap, this`epRules, nft
      ensures Valid() && old(nft.history) <= nft.history
      ensures GetConfig() == old(GetConfig()).(endpoints :=
                WithList(old(endpointsMap), n, Dropped(eps, IdFor(addr, port), IsLocal(addr))))
    {
      hide Synced, RemovedEp, WithList, Dropped, DistinctIds;
      var id, isLocal := IdFor(addr, port), IsLocal(addr);
      ListFacts(cluster, GetBooks(), nft.tables, n);
      var backing := new Endpoint[|eps|](i requires 0 <= i < |eps| => eps[i]);
      assert backing[..] == eps;
      ghost var hit: int := -1;
      for i := 0 to |eps|
        invariant -1 <= hit < i
        invariant Valid() && old(nft.history) <= nft.history
        invariant hit == -1 ==>
                    && backing[..] == eps && endpointsMap == old(endpointsMap)
                    && GetConfig() == old(GetConfig())
                    && forall j :: 0 <= j < i ==> !(eps[j].id == id && eps[j].isLocal == isLocal)
        invariant hit >= 0 ==>
                    && eps[hit].id == id && eps[hit].isLocal == isLocal
                    && (forall j :: i <= j < |eps| ==> IsAfter(eps, hit, backing[j]))
                    && GetConfig() == old(GetConfig()).(endpoints :=
                         WithList(old(endpointsMap), n, RemovedEp(eps, hit)))
      {
        var ep := backing[i];
        if ep.id == id && ep.isLocal == isLocal {
          OnlyOnce(eps, hit, ep);
          assert hit == -1;
          ShiftLeft(backing, i);
          var rest := backing[..|eps| - 1];
          ghost var now := backing[..];
          Shifted(eps, now, i);
          RemoveEndpointAt(n, i, rest);
          hit := i;
          assert forall j :: i < j < |eps| ==> backing[j] == now[j];
        }
      }
      if hit == -1 {
        DroppedAbsent(eps, id, isLocal);
        SameList(endpointsMap, n);
      } else {
        DroppedAt(eps, hit);
      }
    }

    /** Gives an endpoint the affinity update rule, in front of its other rules. */
    method AddAffinityEndpoint(n: PortName, e: Endpoint, m: AffinityMap)
      requires nft.Valid() && m in nft.tables.maps && EndpointSynced(n, e, None, epRules, nft.tables)
      modifies this`epRules, nft
      ensures nft.Valid() && old(nft.history) <= nft.history
      ensures EndpointSynced(n, e, Some(m), epRules, nft.tables) && ChainEdited(old(nft.tables), nft.tables, EpChain(n, e))
      ensures EpChain(n, e) in epRules && epRules == old(epRules)[EpChain(n, e) := epRules[EpChain(n, e)]]
      ensures EpChain(n, e) in old(epRules) && EpChain(n, e) in old(nft.tables).chains
    {
      hide Closed;
      var c := EpChain(n, e);
      var ids := AddEndpointUpdateRule(nft, c, e.index, m);
      TouchAdded(n, e, m, epRules, ids, old(nft.tables), nft.tables);
      epRules := epRules[c := EpRule(ids + epRules[c].ruleID, true)];
    }

    /** Gives each endpoint of a port the affinity update rule. */
    method AddAffinityEndpoints(n: PortName, es: seq<Endpoint>, m: AffinityMap)
      requires nft.Valid() && m in nft.tables.maps && DistinctIds(es)
      requires EndpointsSynced(n, es, None, epRules, nft.tables)
      modifies this`epRules, nft
      ensures nft.Valid() && old(nft.history) <= nft.history
      ensures EndpointsSynced(n, es, Some(m), epRules, nft.tables)
      ensures OnlyEndpoints(n, es, old(epRules), epRules, old(nft.tables), nft.tables)
    {
      hide Closed, EndpointSynced, OnlyEndpoints;
      OnlyNone(n, es, epRules, nft.tables);
      for i := 0 to |es|
        invariant nft.Valid() && old(nft.history) <= nft.history && m in nft.tables.maps
        invariant forall j :: 0 <= j < i ==> EndpointSynced(n, es[j], Some(m), epRules, nft.tables)
        invariant forall j :: i <= j < |es| ==> EndpointSynced(n, es[j], None, epRules, nft.tables)
        invariant OnlyEndpoints(n, es, old(epRules), epRules, old(nft.tables), nft.tables)
      {
        ghost var r0, t0 := epRules, nft.tables;
        AddAffinityEndpoint(n, es[i], m);
        forall j | 0 <= j < |es| && j != i
          ensures EndpointSynced(n, es[j], if j < i then Some(m) else None, epRules, nft.tables)
        {
          EndpointKept(n, es[j], if j < i then Some(m) else None, EpChain(n, es[i]), r0, epRules, t0, nft.tables);
        }
        OnlyNext(n, es, i, old(epRules), r0, epRules, old(nft.tables), t0, nft.tables);
      }
    }

    /** Takes the affinity update rule, always the first one, away from an endpoint. */
    method DeleteAffinityEndpoint(n: PortName, e: Endpoint, ghost m: AffinityMap)
      requires nft.Valid() && EndpointSynced(n, e, Some(m), epRules, nft.tables)
      modifies this`epRules, nft
      ensures nft.Valid() && old(nft.history) <= nft.history
      ensures EndpointSynced(n, e, None, epRules, nft.tables) && ChainEdited(old(nft.tables), nft.tables, EpChain(n, e))
      ensures EpChain(n, e) in epRules && epRules == old(epRules)[EpChain(n, e) := epRules[EpChain(n, e)]]
      ensures EpChain(n, e) in old(epRules) && EpChain(n, e) in old(nft.tables).chains
    {
      hide Closed;
      var c := EpChain(n, e);
      DistinctInside(nft.tables, c);
      TouchRemoved(n, e, m, epRules, nft.tables);
      DeleteChainRules(nft, c, [epRules[c].ruleID[0]]);
      epRules := epRules[c := EpRule(epRules[c].ruleID[1..], false)];
    }

    /** Takes the affinity update rule away from each endpoint of a port. */
    method DeleteAffinityEndpoints(n: PortName, es: seq<Endpoint>, ghost m: AffinityMap)
      requires nft.Valid() && DistinctIds(es)
      requires EndpointsSynced(n, es, Some(m), epRules, nft.tables)
      modifies this`epRules, nft
      ensures nft.Valid() && old(nft.history) <= nft.history
      ensures EndpointsSynced(n, es, None, epRules, nft.tables)
      ensures OnlyEndpoints(n, es, old(epRules), epRules, old(nft.tables), nft.tables)
    {
      hide Closed, EndpointSynced, OnlyEndpoints;
      OnlyNone(n, es, epRules, nft.tables);
      for i := 0 to |es|
        invariant nft.Valid() && old(nft.history) <= nft.history
        invariant forall j :: 0 <= j < i ==> EndpointSynced(n, es[j], None, epRules, nft.tables)
        invariant forall j :: i <= j < |es| ==> EndpointSynced(n, es[j], Some(m), epRules, nft.tables)
        invariant OnlyEndpoints(n, es, old(epRules), epRules, old(nft.tables), nft.tables)
      {
        ghost var r0, t0 := epRules, nft.tables;
        DeleteAffinityEndpoint(n, es[i], m);
        forall j | 0 <= j < |es| && j != i
          ensures EndpointSynced(n, es[j], if j < i then None else Some(m), epRules, nft.tables)
        {
          EndpointKept(n, es[j], if j < i then None else Some(m), EpChain(n, es[i]), r0, epRules, t0, nft.tables);
        }
        OnlyNext(n, es, i, old(epRules), r0, epRules, old(nft.tables), t0, nft.tables);
      }
    }

    /** Creates a service port's chain and, with affinity, its map and the endpoints' update rules. */
    method CreateServiceChain(n: PortName, b: BaseInfo, affinity: bool, es: seq<Endpoint>)
      requires nft.Valid() && ChainOf(n, b) !in nft.tables.chains && MapOf(n, b) !in nft.tables.maps
      requires EndpointsSynced(n, es, None, epRules, nft.tables) && DistinctIds(es)
      modifies this`epRules, nft
      ensures nft.Valid() && old(nft.history) <= nft.history
      ensures EndpointsSynced(n, es, MaybeMap(n, b, affinity), epRules, nft.tables)
      ensures OnlyEndpoints(n, es, old(epRules), epRules,
                Put(old(nft.tables), ChainOf(n, b), []).(
                  maps := old(nft.tables).maps + OptionSet(MaybeMap(n, b, affinity))), nft.tables)
    {
      nft.CreateChain(ChainOf(n, b));
      EndpointsKept(n, es, None, epRules, old(nft.tables), nft.tables);
      if affinity {
        ghost var t1 := nft.tables;
        nft.CreateMap(MapOf(n, b));
        EndpointsKept(n, es, None, epRules, t1, nft.tables);
        if |es| != 0 {
          AddAffinityEndpoints(n, es, MapOf(n, b));
        }
      }
    }

    /** Everything that precedes the first programming of a service port's chain. */
    method PrepareServicePort(n: PortName, b: BaseInfo, affinity: bool, es: seq<Endpoint>)
      requires nft.Valid() && ChainOf(n, b) !in nft.tables.chains && MapOf(n, b) !in nft.tables.maps
      requires EndpointsSynced(n, es, None, epRules, nft.tables) && DistinctIds(es)
      requires forall s: StaticChain :: Static(TableFamily(b), s) in nft.tables.chains
      modifies this`epRules, nft
      ensures nft.Valid() && old(nft.history) <= nft.history
      ensures Prepared(n, b, affinity, es, old(epRules), epRules, old(nft.tables), nft.tables)
    {
      hide Closed, PortKeys, RejectKeys, Exposing;
      if |es| == 0 {
        AddToNoEndpointsList(n, b);
      }
      EndpointsKept(n, es, None, epRules, old(nft.tables), nft.tables);
      ghost var t1 := nft.tables;
      CreateServiceChain(n, b, affinity, es);
      assert Static(TableFamily(b), K8sNatDoMarkMasq) in nft.tables.chains;
      ghost var t2 := nft.tables;
      AddServicePortToSets(n, b);
      EndpointsKept(n, es, MaybeMap(n, b, affinity), epRules, t2, nft.tables);
      assert ChainOf(n, b) !in EpChains(n, es);
    }

    method AddServicePort(n: PortName, b: BaseInfo, affinity: bool)
      requires Valid()
      requires n !in serviceMap ==>
                 && SameFamily(b, EpsOf(endpointsMap, n))
                 && forall m :: m in serviceMap ==> RejectKeys(serviceMap[m].base) !! RejectKeys(b)
      modifies this`serviceMap, this`epRules, nft
      ensures Valid() && old(nft.history) <= nft.history
      ensures n in old(serviceMap) ==> serviceMap == old(serviceMap) && GetConfig() == old(GetConfig())
      ensures n !in old(serviceMap) ==>
                GetConfig() == old(GetConfig()).(
                  services := old(GetConfig()).services[n := Service(b, affinity)],
                  vmaps := Exposing(n, b, PortKeys(b), old(GetConfig()).vmaps))
    {
      hide Synced;
      if n in serviceMap {
        return;
      }
      ghost var b0, t0 := GetBooks(), nft.tables;
      BeforeAdding(cluster, b0, t0, n, b);
      var es := EpsOf(endpointsMap, n);
      PrepareServicePort(n, b, affinity, es);
      ghost var t1 := nft.tables;
      serviceMap := serviceMap[n := ServiceInfo(b, SvcNft(IdOf(n, b), |es| != 0, affinity, []))];
      PreparedReady(n, b, affinity, es, IdOf(n, b), b0.epRules, epRules, t0, t1);
      UpdateServiceChain(n, []);
      AfterAdding(cluster, b0, GetBooks(), n, b, affinity, t0, t1, nft.tables);
    }

    /** Takes a service port out of every verdict map. */
    method HideServicePort(si: ServiceInfo)
      requires nft.Valid()
      modifies nft
      ensures nft.Valid() && old(nft.history) <= nft.history && ElemsOnly()
      ensures nft.tables.elems
           == (if si.nft.withEndpoints then old(nft.tables).elems else old(nft.tables).elems - RejectKeys(si.base))
              - RemovedFor(si.base)
    {
      if !si.nft.withEndpoints {
        RemoveFromNoEndpointsList(si.base);
      }
      RemoveServicePortFromSets(si.base);
    }

    /** Empties a service port's chain and strips its endpoints of their affinity update rules. */
    method EmptyServiceChain(n: PortName, si: ServiceInfo, es: seq<Endpoint>)
      requires nft.Valid() && ServiceSynced(n, si, es, nft.tables) && DistinctIds(es)
      requires EndpointsSynced(n, es, MaybeMap(n, si.base, si.nft.withAffinity), epRules, nft.tables)
      modifies this`epRules, nft
      ensures nft.Valid() && old(nft.history) <= nft.history
      ensures EndpointsSynced(n, es, None, epRules, nft.tables)
      ensures OnlyEndpoints(n, es, old(epRules), epRules, Put(old(nft.tables), ChainOf(n, si.base), []), nft.tables)
    {
      var c := ChainOf(n, si.base);
      if |si.nft.ruleID| != 0 {
        DeleteAllRules(nft, c, si.nft.ruleID);
      }
      assert nft.tables == Put(old(nft.tables), c, []);
      EndpointsKept(n, es, MaybeMap(n, si.base, si.nft.withAffinity), epRules, old(nft.tables), nft.tables);
      if si.nft.withAffinity && si.nft.withEndpoints {
        DeleteAffinityEndpoints(n, es, MapOf(n, si.base));
      }
    }

    method DrainServicePort(n: PortName, si: ServiceInfo, es: seq<Endpoint>)
      requires nft.Valid() && ServiceSynced(n, si, es, nft.tables) && DistinctIds(es)
      requires EndpointsSynced(n, es, MaybeMap(n, si.base, si.nft.withAffinity), epRules, nft.tables)
      modifies this`epRules, nft
      ensures nft.Valid() && old(nft.history) <= nft.history
      ensures Drained(n, si, es, RemovedFor(si.base), old(epRules), epRules, old(nft.tables), nft.tables)
    {
      HideServicePort(si);
      EndpointsKept(n, es, MaybeMap(n, si.base, si.nft.withAffinity), epRules, old(nft.tables), nft.tables);
      EmptyServiceChain(n, si, es);
      assert ChainOf(n, si.base) !in EpChains(n, es);
    }

    method DeleteServiceChain(c: Chain, m: AffinityMap, affinity: bool)
      requires nft.Valid() && c in nft.tables.chains && nft.tables.chains[c] == []
      requires ChainUnreferenced(nft.tables, c) && MapUnreferenced(nft.tables, m)
      requires m in nft.tables.maps <==> affinity
      modifies nft
      ensures nft.Valid() && old(nft.history) <= nft.history
      ensures nft.tables == old(nft.tables).(chains := old(nft.tables).chains - {c}, maps := old(nft.tables).maps - {m})
    {
      if affinity {
        nft.DeleteMap(m);
      } else {
        assert nft.tables.maps - {m} == nft.tables.maps;
      }
      nft.DeleteChain(c);
    }

    method DeleteServicePort(n: PortName)
      requires Valid()
      requires n in serviceMap ==> Detachable(n)
      modifies this`serviceMap, this`epRules, nft
      ensures Valid() && old(nft.history) <= nft.history
      ensures n !in old(serviceMap) ==> serviceMap == old(serviceMap) && GetConfig() == old(GetConfig())
      ensures n in old(serviceMap) ==>
                GetConfig() == old(GetConfig()).(
                  services := old(GetConfig()).services - {n},
                  vmaps := old(GetConfig()).vmaps - RemovedFor(old(serviceMap)[n].base))
    {
      hide Synced, Closed, ServiceRules, EndpointSynced, ChainUnreferenced, MapUnreferenced;
      if n !in serviceMap {
        return;
      }
      ghost var b0, t0 := GetBooks(), nft.tables;
      ServiceFacts(cluster, b0, t0, n);
      var si := serviceMap[n];
      DrainServicePort(n, si, EpsOf(endpointsMap, n));
      ghost var t1 := nft.tables;
      DrainedUnreferenced(cluster, b0, epRules, t0, t1, n, RemovedFor(si.base));
      DeleteServiceChain(ChainOf(n, si.base), MapOf(n, si.base), si.nft.withAffinity);
      serviceMap := serviceMap - {n};
      assert forall k :: k in RemovedFor(si.base) ==> k.set_ != NoEndpoints;
      AfterDeleting(cluster, b0, GetBooks(), n, RemovedFor(si.base), t0, t1, nft.tables);
    }

    /** Creates the affinity map and puts the MatchAct rule before the load-balance rule. */
    method InsertSticky(n: PortName, si: ServiceInfo, es: seq<Endpoint>) returns (ruleID: seq<Handle>)
      requires nft.Valid() && ServiceSynced(n, si, es, nft.tables) && es != [] && ChainsExist(n, es, nft.tables)
      requires !si.nft.withAffinity && MapOf(n, si.base) !in nft.tables.maps
      modifies nft
      ensures nft.Valid() && old(nft.history) <= nft.history
      ensures var c := ChainOf(n, si.base);
              && ChainEdited(old(nft.tables).(maps := old(nft.tables).maps + {MapOf(n, si.base)}), nft.tables, c)
              && Rules(nft.tables.chains[c]) == ServiceRules(n, Service(si.base, true), es)
              && Handles(nft.tables.chains[c]) == ruleID
    {
      ghost var chain := nft.tables.chains[ChainOf(n, si.base)];
      nft.CreateMap(MapOf(n, si.base));
      StickyInserted(n, si, es, chain, 0);
      assert chain[1].handle == Handles(chain)[1];
      var h := AddServiceMatchActRule(nft, n, si.base, es, si.nft.ruleID[1]);
      StickyInserted(n, si, es, chain, h);
      ruleID := [si.nft.ruleID[0]] + [h] + si.nft.ruleID[1..];
    }

    /** Puts the MatchAct rule into a service chain and the update rules into its endpoint chains. */
    method InstallAffinity(n: PortName, si: ServiceInfo, es: seq<Endpoint>) returns (ruleID: seq<Handle>)
      requires nft.Valid() && ServiceSynced(n, si, es, nft.tables) && es != [] && DistinctIds(es)
      requires !si.nft.withAffinity && MapOf(n, si.base) !in nft.tables.maps
      requires EndpointsSynced(n, es, None, epRules, nft.tables)
      modifies this`epRules, nft
      ensures nft.Valid() && old(nft.history) <= nft.history
      ensures EndpointsSynced(n, es, Some(MapOf(n, si.base)), epRules, nft.tables)
      ensures var c := ChainOf(n, si.base);
              && c in nft.tables.chains && c !in EpChains(n, es)
              && Rules(nft.tables.chains[c]) == ServiceRules(n, Service(si.base, true), es)
              && Handles(nft.tables.chains[c]) == ruleID
              && OnlyEndpoints(n, es, old(epRules), epRules,
                   Put(old(nft.tables), c, nft.tables.chains[c]).(maps := old(nft.tables).maps + {MapOf(n, si.base)}),
                   nft.tables)
    {
      hide Closed;
      forall i | 0 <= i < |es| ensures EpChain(n, es[i]) in nft.tables.chains {
        assert EndpointSynced(n, es[i], None, epRules, nft.tables);
      }
      ruleID := InsertSticky(n, si, es);
      EndpointsKept(n, es, None, epRules, old(nft.tables), nft.tables);
      ghost var t1 := nft.tables;
      AddAffinityEndpoints(n, es, MapOf(n, si.base));
      assert ChainOf(n, si.base) !in EpChains(n, es);
      assert nft.tables.chains[ChainOf(n, si.base)] == t1.chains[ChainOf(n, si.base)];
    }

    /** Turns session affinity on for a port that has endpoints. */
    method AffinityOn(n: PortName)
      requires Valid() && n in serviceMap && !serviceMap[n].nft.withAffinity && EpsOf(endpointsMap, n) != []
      modifies this`serviceMap, this`epRules, nft
      ensures Valid() && old(nft.history) <= nft.history
      ensures GetConfig() == old(GetConfig()).(services :=
                old(GetConfig()).services[n := Service(old(serviceMap)[n].base, true)])
    {
      ghost var b0, t0 := GetBooks(), nft.tables;
      ServiceFacts(cluster, b0, t0, n);
      var si := serviceMap[n];
      var ruleID := InstallAffinity(n, si, EpsOf(endpointsMap, n));
      serviceMap := serviceMap[n := si.(nft := si.nft.(withAffinity := true, ruleID := ruleID))];
      assert PortSynced(n, b0, t0);
      ToggledStep(b0, GetBooks(), n, t0, nft.tables);
      AfterToggle(cluster, b0, GetBooks(), n, t0, nft.tables);
    }

    /** Takes the MatchAct rule and the update rules out again. */
    method UninstallAffinity(n: PortName, si: ServiceInfo, es: seq<Endpoint>) returns (ruleID: seq<Handle>)
      requires nft.Valid() && ServiceSynced(n, si, es, nft.tables) && DistinctIds(es) && si.nft.withAffinity
      requires EndpointsSynced(n, es, Some(MapOf(n, si.base)), epRules, nft.tables)
      modifies this`epRules, nft
      ensures nft.Valid() && old(nft.history) <= nft.history
      ensures EndpointsSynced(n, es, None, epRules, nft.tables)
      ensures var c := ChainOf(n, si.base);
              && c in nft.tables.chains && c !in EpChains(n, es)
              && Rules(nft.tables.chains[c]) == ServiceRules(n, Service(si.base, false), es)
              && Handles(nft.tables.chains[c]) == ruleID
              && OnlyEndpoints(n, es, old(epRules), epRules,
                   Put(old(nft.tables), c, nft.tables.chains[c]), nft.tables)
    {
      var c := ChainOf(n, si.base);
      ruleID := si.nft.ruleID;
      assert c !in EpChains(n, es);
      if si.nft.withEndpoints {
        StickyRemoved(n, si, es, nft.tables.chains[c]);
        DeleteChainRules(nft, c, [si.nft.ruleID[1]]);
        EndpointsKept(n, es, Some(MapOf(n, si.base)), epRules, old(nft.tables), nft.tables);
        ghost var t1 := nft.tables;
        DeleteAffinityEndpoints(n, es, MapOf(n, si.base));
        ruleID := [ruleID[0]] + ruleID[2..];
        assert nft.tables.chains[c] == t1.chains[c];
      }
    }

    /** Turns session affinity off for a port, with or without endpoints. */
    method AffinityOff(n: PortName)
      requires Valid() && n in serviceMap && serviceMap[n].nft.withAffinity
      modifies this`serviceMap, this`epRules, nft
      ensures Valid() && old(nft.history) <= nft.history
      ensures GetConfig() == old(GetConfig()).(services :=
                old(GetConfig()).services[n := Service(old(serviceMap)[n].base, false)])
    {
      hide Synced, Closed, ServiceRules, EndpointSynced;
      ghost var b0, t0 := GetBooks(), nft.tables;
      ServiceFacts(cluster, b0, t0, n);
      PortFacts(cluster, b0, t0, n);
      var si := serviceMap[n];
      ghost var es := EpsOf(endpointsMap, n);
      var ruleID := UninstallAffinity(n, si, EpsOf(endpointsMap, n));
      ghost var t1 := nft.tables;
      forall d, j | d in t1.chains && 0 <= j < |t1.chains[d]|
        ensures MapOf(n, si.base) !in MapRefs(t1.chains[d][j].rule)
      {
        DrainedReferences(cluster, b0, t0, epRules, t1, n, es, d, j);
      }
      nft.DeleteMap(MapOf(n, si.base));
      EndpointsKept(n, es, None, epRules, t1, nft.tables);
      serviceMap := serviceMap[n := si.(nft := si.nft.(withAffinity := false, ruleID := ruleID))];
      hide PortSynced;
      ToggledStep(b0, GetBooks(), n, t0, nft.tables);
      AfterToggle(cluster, b0, GetBooks(), n, t0, nft.tables);
    }

    /** Adds an element that leads to a service port, or marks its packets, as the update handlers do. */
    method AddToSet(n: PortName, k: Elem)
      requires Valid() && n in serviceMap && k.set_ != NoEndpoints && k.family == TableFamily(serviceMap[n].base)
      modifies nft
      ensures Valid() && old(nft.history) <= nft.history
      ensures GetConfig() == old(GetConfig()).(vmaps := AddOne(n, serviceMap[n].base, old(GetConfig()).vmaps, k))
    {
      hide Closed, Synced, ServiceRules;
      ghost var t0 := nft.tables;
      ServiceFacts(cluster, GetBooks(), t0, n);
      StaticPresent(cluster, GetBooks(), t0, k.family, K8sNatDoMarkMasq);
      var b := serviceMap[n].base;
      nft.AddElem(k, Target(n, b, k));
      ElemAdded(cluster, GetBooks(), t0, n, b, k);
    }

    method RemoveFromSet(k: Elem)
      requires Valid() && k.set_ != NoEndpoints
      modifies nft
      ensures Valid() && old(nft.history) <= nft.history
      ensures GetConfig() == old(GetConfig()).(vmaps := old(GetConfig()).vmaps - {k})
    {
      hide Closed, Synced;
      ghost var t0 := nft.tables;
      nft.RemoveElem(k);
      ElemRemoved(cluster, GetBooks(), t0, k);
    }

    /** Every element that leads to the port is among those the delete path will remove. */
    ghost predicate Detachable(n: PortName)
      requires n in serviceMap
      reads this, nft
    {
      forall k :: k in nft.tables.elems && nft.tables.elems[k] == ChainOf(n, serviceMap[n].base) ==>
        k in RemovedFor(serviceMap[n].base)
    }

    ghost function RemovedFor(b: BaseInfo): (keys: set<Elem>)
      reads this
      ensures forall k :: k in keys ==> k.set_ != NoEndpoints
    {
      if b.service in svcCache then RemovedKeys(b, svcCache[b.service]) else {}
    }
  }
}
