/** What the slice handlers achieve: each service port has the ready entries of all cached slices. */
module SliceSync {
  import opened Names
  import opened Ruleset
  import opened Mirror
  import opened Api
  import opened Reconciler
  import opened EndpointEvents
  import opened EndpointSync
  import opened SliceEvents

  type SliceCache = map<NamespacedName, SliceObject>

  ghost predicate ReadyIn(sl: SliceObject, x: Binding, hostname: string) {
    ValidSlice(sl) && x in Ready(SliceEntries(sl), hostname)
  }

  ghost predicate ReadyInSome(cache: SliceCache, x: Binding, hostname: string) {
    exists s :: s in cache && ReadyIn(cache[s], x, hostname)
  }

  /** Installed is the union of the ready entries of all cached slices. */
  ghost predicate SlicesInSync(cache: SliceCache, installed: set<Binding>, hostname: string) {
    && (forall s :: s in cache ==> cache[s].name == s)
    && (forall x :: x in installed <==> ReadyInSome(cache, x, hostname))
  }

  /** Slices of a service are disjoint: no endpoint is ready in two of them. */
  ghost predicate SlicesApart(cache: SliceCache, hostname: string) {
    forall s, t, x, y :: s in cache && t in cache && s != t && ReadyIn(cache[s], x, hostname) && ReadyIn(cache[t], y, hostname) ==>
      !(x.n == y.n && x.id == y.id)
  }

  lemma {:induction false} EntriesNamed(service: NamespacedName, endpoints: seq<SliceEndpoint>, ports: seq<EndpointPort>, e: EpEntry)
    requires e in Entries(service, endpoints, ports)
    ensures e.n == PortName(service, e.port.name, e.port.protocol)
  {
    if e in Blocks(service, ports, endpoints[0]) {
      BlocksNamed(service, ports, endpoints[0], e);
    } else {
      EntriesNamed(service, endpoints[1..], ports, e);
    }
  }

  lemma {:induction false} BlocksNamed(service: NamespacedName, ports: seq<EndpointPort>, se: SliceEndpoint, e: EpEntry)
    requires e in Blocks(service, ports, se)
    ensures e.n == PortName(service, e.port.name, e.port.protocol)
  {
    if e !in Block(PortName(service, ports[0].name, ports[0].protocol), ports[0], se) {
      BlocksNamed(service, ports[1..], se, e);
    }
  }

  /** Two versions of one slice: same name, same service label. */
  ghost predicate SameSlice(a: SliceObject, b: SliceObject) {
    a.name == b.name && a.service == b.service
  }

  lemma SliceEntryNamed(sl: SliceObject, e: EpEntry)
    requires e in SliceEntries(sl)
    ensures sl.service.Some?
    ensures e.n == PortName(NamespacedName(sl.name.namespace, sl.service.value), e.port.name, e.port.protocol)
  {
    EntriesNamed(NamespacedName(sl.name.namespace, sl.service.value), sl.endpoints, sl.ports, e);
  }

  /** In one version of a slice, the search for an entry of another version finds its place. */
  lemma SearchFindsPlace(a: SliceObject, b: SliceObject, e: EpEntry)
    requires SameSlice(a, b) && e in SliceEntries(a)
    ensures FirstReady(RawEntries(b), e.port, e.addr.ip).Some? <==> exists f :: f in SliceEntries(b) && SamePlace(e, f)
  {
    SliceEntryNamed(a, e);
    var fs := SliceEntries(b);
    FirstIgnoresService(b.name, NamespacedName(b.name.namespace, b.service.value), b.endpoints, b.ports, e.port, e.addr.ip);
    FirstOfSame(fs, e.port, e.addr.ip);
    if i :| 0 <= i < |fs| && fs[i].port == e.port && fs[i].addr.ip == e.addr.ip {
      SliceEntryNamed(b, fs[i]);
      assert SamePlace(e, fs[i]);
    }
    if f :| f in fs && SamePlace(e, f) {
      SliceEntryNamed(b, f);
      var i :| 0 <= i < |fs| && fs[i] == f;
    }
  }

  lemma SearchFindsReadiness(a: SliceObject, b: SliceObject, e: EpEntry)
    requires SameSlice(a, b) && e in SliceEntries(a) && DistinctEntries(SliceEntries(b))
    ensures WasReady(e, b) <==> exists f :: f in SliceEntries(b) && SamePlace(e, f) && f.ready
  {
    SliceEntryNamed(a, e);
    var fs := SliceEntries(b);
    FirstIgnoresService(b.name, NamespacedName(b.name.namespace, b.service.value), b.endpoints, b.ports, e.port, e.addr.ip);
    FirstOfSame(fs, e.port, e.addr.ip);
    if FirstReady(fs, e.port, e.addr.ip).Some? {
      var i :| 0 <= i < |fs| && fs[i].port == e.port && fs[i].addr.ip == e.addr.ip
               && FirstReady(fs, e.port, e.addr.ip) == Some(fs[i].ready);
      SliceEntryNamed(b, fs[i]);
      assert SamePlace(e, fs[i]);
      forall f | f in fs && SamePlace(e, f) ensures f == fs[i] {
        OnePlace(fs, f, fs[i]);
      }
    } else {
      forall f | f in fs ensures !SamePlace(e, f) {
        SliceEntryNamed(b, f);
        var i :| 0 <= i < |fs| && fs[i] == f;
        assert !(fs[i].port == e.port && fs[i].addr.ip == e.addr.ip);
      }
    }
  }

  lemma OnePlace(es: seq<EpEntry>, e: EpEntry, f: EpEntry)
    requires DistinctEntries(es) && e in es && f in es && SamePlace(e, f)
    ensures e == f
  {
    var i, j :| 0 <= i < |es| && es[i] == e && 0 <= j < |es| && es[j] == f;
  }

  /** The side conditions of an update: two sound versions of one slice. */
  ghost predicate Comparable(stored: SliceObject, slNew: SliceObject, hostname: string) {
    && SameSlice(stored, slNew) && ValidSlice(stored) && ValidSlice(slNew)
    && DistinctEntries(SliceEntries(stored)) && DistinctEntries(SliceEntries(slNew))
    && StableNodes(SliceEntries(stored), SliceEntries(slNew), hostname)
  }

  /** What stops being installed was ready in the stored slice. */
  lemma RemovedWasReady(stored: SliceObject, slNew: SliceObject, hostname: string, x: Binding)
    requires Comparable(stored, slNew, hostname)
    requires x in Down(SliceEntries(slNew), stored, hostname) || x in Gone(SliceEntries(stored), slNew, hostname)
    ensures ReadyIn(stored, x, hostname)
  {
    if x in Down(SliceEntries(slNew), stored, hostname) {
      var e :| e in SliceEntries(slNew) && GoesDown(e, stored) && x == BindingOf(e, hostname);
      SearchFindsReadiness(slNew, stored, e);
      var f :| f in SliceEntries(stored) && SamePlace(e, f) && f.ready;
      assert SamePlace(f, e);
    }
  }

  /** What is ready in the new slice ends up installed. */
  lemma ReadyStays(was: set<Binding>, stored: SliceObject, slNew: SliceObject, hostname: string, x: Binding)
    requires Comparable(stored, slNew, hostname) && ReadyIn(slNew, x, hostname)
    requires forall y :: ReadyIn(stored, y, hostname) ==> y in was
    ensures x in SliceUpdatedTo(was, stored, slNew, hostname)
  {
    var e :| e in SliceEntries(slNew) && e.ready && x == BindingOf(e, hostname);
    SearchFindsReadiness(slNew, stored, e);
    forall f | f in SliceEntries(stored) && BindingOf(f, hostname) == x
      ensures FirstReady(RawEntries(slNew), f.port, f.addr.ip).Some?
    {
      SearchFindsPlace(stored, slNew, f);
      assert SamePlace(f, e);
    }
    if WasReady(e, stored) {
      var f :| f in SliceEntries(stored) && SamePlace(e, f) && f.ready;
      assert SamePlace(f, e) && BindingOf(f, hostname) == x;
      assert ReadyIn(stored, x, hostname);
      forall e2 | e2 in SliceEntries(slNew) && BindingOf(e2, hostname) == x ensures e2.ready {
        OnePlace(SliceEntries(slNew), e2, e);
      }
    } else {
      assert GoesUp(e, stored);
    }
  }

  /** What was ready in the stored slice and no longer is in the new one goes. */
  lemma NotReadyGoes(was: set<Binding>, stored: SliceObject, slNew: SliceObject, hostname: string, x: Binding)
    requires Comparable(stored, slNew, hostname) && ReadyIn(stored, x, hostname) && !ReadyIn(slNew, x, hostname)
    ensures x !in SliceUpdatedTo(was, stored, slNew, hostname)
  {
    var f :| f in SliceEntries(stored) && f.ready && x == BindingOf(f, hostname);
    SearchFindsPlace(stored, slNew, f);
    if FirstReady(RawEntries(slNew), f.port, f.addr.ip).Some? {
      var e :| e in SliceEntries(slNew) && SamePlace(f, e);
      assert BindingOf(e, hostname) == x;
      SearchFindsReadiness(slNew, stored, e);
      assert SamePlace(e, f);
      assert GoesDown(e, stored);
      assert x in Down(SliceEntries(slNew), stored, hostname);
    }
    assert x !in Up(SliceEntries(slNew), stored, hostname);
  }

  /** After an update of a cached slice, whatever the caller's old version, installed is again the
      union of the ready entries of all cached slices. */
  lemma SliceUpdateInstalls(cache: SliceCache, was: set<Binding>, slOld: SliceObject, slNew: SliceObject, hostname: string)
    requires SlicesInSync(cache, was, hostname) && slNew.name in cache
    requires Comparable(cache[slNew.name], slNew, hostname)
    requires SlicesApart(cache, hostname) && SlicesApart(cache[slNew.name := slNew], hostname)
    ensures SlicesInSync(cache[slNew.name := slNew],
              SliceUpdatedTo(was, StoredSlice(cache, slOld, slNew), slNew, hostname), hostname)
  {
    var stored := cache[slNew.name];
    var cache' := cache[slNew.name := slNew];
    var now := SliceUpdatedTo(was, stored, slNew, hostname);
    forall y | ReadyIn(stored, y, hostname) ensures y in was {
      assert ReadyInSome(cache, y, hostname);
    }
    forall x: Binding ensures x in now <==> ReadyInSome(cache', x, hostname) {
      if s :| s in cache' && ReadyIn(cache'[s], x, hostname) {
        if s == slNew.name {
          ReadyStays(was, stored, slNew, hostname, x);
        } else {
          assert ReadyInSome(cache, x, hostname) && !ReadyIn(stored, x, hostname);
          if x in Down(SliceEntries(slNew), stored, hostname) || x in Gone(SliceEntries(stored), slNew, hostname) {
            RemovedWasReady(stored, slNew, hostname, x);
          }
        }
      } else if x in now {
        NotReadyIsGone(cache, was, stored, slNew, hostname, x);
      }
    }
  }

  lemma NotReadyIsGone(cache: SliceCache, was: set<Binding>, stored: SliceObject, slNew: SliceObject, hostname: string, x: Binding)
    requires SlicesInSync(cache, was, hostname) && slNew.name in cache && stored == cache[slNew.name]
    requires Comparable(stored, slNew, hostname)
    requires !ReadyInSome(cache[slNew.name := slNew], x, hostname)
    ensures x !in SliceUpdatedTo(was, stored, slNew, hostname)
  {
    var cache' := cache[slNew.name := slNew];
    assert !ReadyIn(cache'[slNew.name], x, hostname);
    assert x !in Up(SliceEntries(slNew), stored, hostname);
    forall s | s in cache && s != slNew.name ensures !ReadyIn(cache[s], x, hostname) {
      assert cache'[s] == cache[s];
    }
    if x in was {
      assert ReadyInSome(cache, x, hostname);
      NotReadyGoes(was, stored, slNew, hostname, x);
    }
  }

  /** Entries that become ready can be added: nothing installed is in their place. */
  lemma SliceUpdateIsReady(cache: SliceCache, eps: map<PortName, seq<Endpoint>>, slNew: SliceObject, hostname: string, e: EpEntry)
    requires SlicesInSync(cache, Installed(eps), hostname) && slNew.name in cache
    requires Comparable(cache[slNew.name], slNew, hostname) && SlicesApart(cache[slNew.name := slNew], hostname)
    requires e in SliceEntries(slNew) && GoesUp(e, cache[slNew.name])
    ensures Absent(eps, e)
  {
    var stored := cache[slNew.name];
    var cache' := cache[slNew.name := slNew];
    SearchFindsReadiness(slNew, stored, e);
    forall x | x in Installed(eps) ensures !(x.n == e.n && x.id == Proxy.IdFor(e.addr, e.port)) {
      assert ReadyInSome(cache, x, hostname);
      var s :| s in cache && ReadyIn(cache[s], x, hostname);
      if s == slNew.name {
        var f :| f in SliceEntries(stored) && f.ready && x == BindingOf(f, hostname);
        assert !SamePlace(e, f);
      } else {
        assert cache'[s] == cache[s] && ReadyIn(cache'[slNew.name], BindingOf(e, hostname), hostname);
      }
    }
  }

  lemma SliceAddInstalls(cache: SliceCache, was: set<Binding>, sl: SliceObject, hostname: string)
    requires SlicesInSync(cache, was, hostname) && sl.name !in cache
    ensures SlicesInSync(cache[sl.name := sl],
              was + if ValidSlice(sl) then Ready(SliceEntries(sl), hostname) else {}, hostname)
  {
    var cache' := cache[sl.name := sl];
    var now := was + if ValidSlice(sl) then Ready(SliceEntries(sl), hostname) else {};
    forall x: Binding ensures x in now <==> ReadyInSome(cache', x, hostname) {
      if s :| s in cache && ReadyIn(cache[s], x, hostname) {
        assert cache'[s] == cache[s];
      }
      assert ReadyIn(sl, x, hostname) ==> ReadyIn(cache'[sl.name], x, hostname);
    }
  }

  /** Ready endpoints of the cached version that the deleted one does not have ready stay behind; ready
      endpoints of other slices that it has go with it. */
  ghost predicate DeletesItsOwn(cache: SliceCache, sl: SliceObject, hostname: string) {
    && (forall x :: sl.name in cache && ReadyIn(cache[sl.name], x, hostname) ==> ReadyIn(sl, x, hostname))
    && (forall s, x :: s in cache && s != sl.name && ReadyIn(cache[s], x, hostname) ==> !ReadyIn(sl, x, hostname))
  }

  /** A deletion works from the slice it is given, so the union is right afterwards if and only if that
      slice covers the cached version and no other slice. */
  lemma SliceDeleteUninstalls(cache: SliceCache, was: set<Binding>, sl: SliceObject, hostname: string)
    requires SlicesInSync(cache, was, hostname) && SlicesApart(cache, hostname)
    requires sl.name in cache && ValidSlice(sl)
    ensures SlicesInSync(cache - {sl.name}, was - Ready(SliceEntries(sl), hostname), hostname)
            <==> DeletesItsOwn(cache, sl, hostname)
  {
    var cache' := cache - {sl.name};
    var now := was - Ready(SliceEntries(sl), hostname);
    forall x: Binding ensures x in now <==> ReadyInSome(cache, x, hostname) && !ReadyIn(sl, x, hostname) {}
    forall s, x | s in cache && ReadyIn(cache[s], x, hostname)
      ensures ReadyInSome(cache', x, hostname) <==> s != sl.name
    {
      if s != sl.name {
        assert cache'[s] == cache[s];
      } else {
        forall t | t in cache' ensures !ReadyIn(cache'[t], x, hostname) {
          assert cache'[t] == cache[t] && t != s;
        }
      }
    }
    if DeletesItsOwn(cache, sl, hostname) {
      forall x: Binding ensures x in now <==> ReadyInSome(cache', x, hostname) {
        if s :| s in cache' && ReadyIn(cache'[s], x, hostname) {
          assert ReadyIn(cache[s], x, hostname);
        }
      }
    }
    if SlicesInSync(cache', now, hostname) {
      forall s, x | s in cache && ReadyIn(cache[s], x, hostname) ensures ReadyIn(sl, x, hostname) <==> s == sl.name {
        assert x in now <==> ReadyInSome(cache', x, hostname);
      }
    }
  }

  lemma DeletesWhenCached(cache: SliceCache, sl: SliceObject, hostname: string)
    requires SlicesApart(cache, hostname) && sl.name in cache && cache[sl.name] == sl
    ensures DeletesItsOwn(cache, sl, hostname)
  {}

  function ListBindings(n: PortName, es: seq<Endpoint>): (bs: seq<Binding>)
    ensures |bs| == |es|
  {
    seq(|es|, i requires 0 <= i < |es| => Binding(n, es[i].id, es[i].isLocal))
  }

  ghost function ReadySlices(cache: SliceCache, x: Binding, hostname: string): set<NamespacedName> {
    set s | s in cache && ReadyIn(cache[s], x, hostname)
  }

  /** As a multiset, the endpoint list of a service port is the union over the cached slices. */
  lemma ListIsMultisetUnion(cache: SliceCache, eps: map<PortName, seq<Endpoint>>, n: PortName, x: Binding, hostname: string)
    requires SlicesInSync(cache, Installed(eps), hostname) && SlicesApart(cache, hostname)
    requires DistinctIds(EpsOf(eps, n)) && x.n == n
    ensures multiset(ListBindings(n, EpsOf(eps, n)))[x] == |ReadySlices(cache, x, hostname)|
  {
    var es := EpsOf(eps, n);
    CountDistinct(n, es, x);
    if x in Installed(eps) {
      assert ReadyInSome(cache, x, hostname);
      var s :| s in cache && ReadyIn(cache[s], x, hostname);
      forall t | t in ReadySlices(cache, x, hostname) ensures t == s {}
      assert ReadySlices(cache, x, hostname) == {s};
      var m, i :| m in eps && 0 <= i < |eps[m]| && x == Binding(m, eps[m][i].id, eps[m][i].isLocal);
      assert ListBindings(n, es)[i] == x;
    } else {
      assert ReadySlices(cache, x, hostname) == {} by {
        assert !ReadyInSome(cache, x, hostname);
      }
      forall i | 0 <= i < |es| ensures ListBindings(n, es)[i] != x {
        assert n in eps && Binding(n, eps[n][i].id, eps[n][i].isLocal) in Installed(eps);
      }
    }
  }

  lemma {:induction false} CountDistinct(n: PortName, es: seq<Endpoint>, x: Binding)
    requires DistinctIds(es)
    ensures multiset(ListBindings(n, es))[x] == if x in ListBindings(n, es) then 1 else 0
  {
    if es != [] {
      var last := |es| - 1;
      var front := ListBindings(n, es[..last]);
      CountDistinct(n, es[..last], x);
      assert ListBindings(n, es) == front + [Binding(n, es[last].id, es[last].isLocal)];
      forall i | 0 <= i < last ensures front[i].id != es[last].id {
        assert es[..last][i] == es[i];
      }
    }
  }
}
