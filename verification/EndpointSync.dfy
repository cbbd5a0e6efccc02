/** What the endpoint handlers achieve: the installed endpoints are those of the last known objects. */
module EndpointSync {
  import opened Names
  import opened Mirror
  import opened Ruleset
  import opened Api
  import opened Reconciler
  import opened EndpointEvents

  type Cache = map<NamespacedName, EndpointsObject>

  ghost predicate Denoted(cache: Cache, x: Binding, hostname: string) {
    && x.n.service in cache
    && ValidObject(cache[x.n.service])
    && x in Bindings(EntriesOf(cache[x.n.service]), hostname)
  }

  /** Installed are exactly the endpoints that the cached objects denote. */
  ghost predicate InSync(cache: Cache, installed: set<Binding>, hostname: string) {
    && (forall s :: s in cache ==> cache[s].name == s)
    && (forall x :: x in installed <==> Denoted(cache, x, hostname))
  }

  /** An address does not move to another node between two versions of an object. */
  ghost predicate StableNodes(es: seq<EpEntry>, fs: seq<EpEntry>, hostname: string) {
    forall e, f :: e in es && f in fs && SamePlace(e, f) ==> BindingOf(e, hostname) == BindingOf(f, hostname)
  }

  /** Within one service the search compares exactly what identifies an endpoint. */
  lemma SameEntryIsSamePlace(a: EndpointsObject, b: EndpointsObject, e: EpEntry, f: EpEntry)
    requires a.name == b.name && e in EntriesOf(a) && f in EntriesOf(b)
    ensures SameEntry(f, e.port, e.addr) <==> SamePlace(e, f)
    ensures e.n.service == a.name
  {
    OfSubsetsNamed(a.name, a.subsets, e);
    OfSubsetsNamed(b.name, b.subsets, f);
  }

  lemma HasEntryIsHasPlace(a: EndpointsObject, b: EndpointsObject, e: EpEntry)
    requires a.name == b.name && e in EntriesOf(a)
    ensures HasEntry(EntriesOf(b), e.port, e.addr) <==> exists f :: f in EntriesOf(b) && SamePlace(e, f)
    ensures e.n.service == a.name
  {
    OfSubsetsNamed(a.name, a.subsets, e);
    var fs := EntriesOf(b);
    if i :| 0 <= i < |fs| && SameEntry(fs[i], e.port, e.addr) {
      SameEntryIsSamePlace(a, b, e, fs[i]);
    }
    if f :| f in fs && SamePlace(e, f) {
      SameEntryIsSamePlace(a, b, e, f);
      var i :| 0 <= i < |fs| && fs[i] == f;
    }
  }

  /** Entries that the cached object does not have can be added: nothing installed is in their place. */
  lemma UpdateIsReady(cache: Cache, eps: map<PortName, seq<Endpoint>>, epNew: EndpointsObject, hostname: string, e: EpEntry)
    requires InSync(cache, Installed(eps), hostname)
    requires e in EntriesOf(epNew)
    requires epNew.name in cache ==> !HasEntry(EntriesOf(cache[epNew.name]), e.port, e.addr)
    ensures Absent(eps, e)
  {
    OfSubsetsNamed(epNew.name, epNew.subsets, e);
    forall x | x in Installed(eps) ensures !(x.n == e.n && x.id == Proxy.IdFor(e.addr, e.port)) {
      assert Denoted(cache, x, hostname);
      var f :| f in EntriesOf(cache[x.n.service]) && x == BindingOf(f, hostname);
      OfSubsetsNamed(cache[x.n.service].name, cache[x.n.service].subsets, f);
      if x.n.service == epNew.name {
        HasEntryIsHasPlace(epNew, cache[epNew.name], e);
        assert !SamePlace(e, f);
      }
    }
  }

  /** The bindings of a service after an update from the cached object. */
  lemma UpdatedBindings(cache: Cache, was: set<Binding>, epNew: EndpointsObject, hostname: string, x: Binding)
    requires InSync(cache, was, hostname) && epNew.name in cache
    requires ValidObject(cache[epNew.name])
    requires StableNodes(EntriesOf(cache[epNew.name]), EntriesOf(epNew), hostname)
    requires x.n.service == epNew.name
    ensures x in UpdatedTo(was, cache[epNew.name], epNew, hostname) <==> x in Bindings(EntriesOf(epNew), hostname)
  {
    var stored := cache[epNew.name];
    if x in Bindings(EntriesOf(epNew), hostname) {
      var e :| e in EntriesOf(epNew) && x == BindingOf(e, hostname);
      HasEntryIsHasPlace(epNew, stored, e);
      if HasEntry(EntriesOf(stored), e.port, e.addr) {
        var f :| f in EntriesOf(stored) && SamePlace(e, f);
        assert SamePlace(f, e) && BindingOf(f, hostname) == x;
        assert Denoted(cache, x, hostname);
      } else {
        assert x in Missing(EntriesOf(epNew), EntriesOf(stored), hostname);
      }
      forall f | f in EntriesOf(stored) && BindingOf(f, hostname) == x
        ensures HasEntry(EntriesOf(epNew), f.port, f.addr)
      {
        HasEntryIsHasPlace(stored, epNew, f);
        assert SamePlace(f, e);
      }
    } else if x in was {
      assert Denoted(cache, x, hostname);
      var f :| f in EntriesOf(stored) && x == BindingOf(f, hostname);
      HasEntryIsHasPlace(stored, epNew, f);
      forall e | e in EntriesOf(epNew) ensures !SamePlace(f, e) {
        assert SamePlace(f, e) ==> BindingOf(e, hostname) == x;
      }
      assert x in Missing(EntriesOf(stored), EntriesOf(epNew), hostname);
    }
  }

  lemma OtherBindingsKept(was: set<Binding>, stored: EndpointsObject, epNew: EndpointsObject, hostname: string, x: Binding)
    requires stored.name == epNew.name && x.n.service != epNew.name
    ensures x in UpdatedTo(was, stored, epNew, hostname) <==> x in was
  {
    forall e | e in EntriesOf(epNew) ensures BindingOf(e, hostname) != x {
      OfSubsetsNamed(epNew.name, epNew.subsets, e);
    }
    forall e | e in EntriesOf(stored) ensures BindingOf(e, hostname) != x {
      OfSubsetsNamed(stored.name, stored.subsets, e);
    }
  }

  /** An update of a cached object installs exactly what the new object denotes, whatever old object
      the caller supplies: a lost update is repaired. */
  lemma UpdateInstallsNew(cache: Cache, was: set<Binding>, epOld: EndpointsObject, epNew: EndpointsObject, hostname: string)
    requires InSync(cache, was, hostname) && epNew.name in cache
    requires ValidObject(epNew) && ValidObject(cache[epNew.name])
    requires StableNodes(EntriesOf(cache[epNew.name]), EntriesOf(epNew), hostname)
    ensures InSync(cache[epNew.name := epNew], UpdatedTo(was, Stored(cache, epOld, epNew), epNew, hostname), hostname)
  {
    var now := UpdatedTo(was, Stored(cache, epOld, epNew), epNew, hostname);
    forall x: Binding ensures x in now <==> Denoted(cache[epNew.name := epNew], x, hostname) {
      if x.n.service == epNew.name {
        UpdatedBindings(cache, was, epNew, hostname, x);
      } else {
        OtherBindingsKept(was, cache[epNew.name], epNew, hostname, x);
        assert x in was <==> Denoted(cache, x, hostname);
      }
    }
  }

  /** An invalid object is cached although nothing of it is installed.  The next valid version is
      then installed in full if and only if it shares no entry with the invalid one. */
  lemma UpdateAfterInvalid(cache: Cache, was: set<Binding>, epOld: EndpointsObject, epNew: EndpointsObject, hostname: string)
    requires InSync(cache, was, hostname) && epNew.name in cache
    requires ValidObject(epNew) && !ValidObject(cache[epNew.name])
    ensures InSync(cache[epNew.name := epNew], UpdatedTo(was, Stored(cache, epOld, epNew), epNew, hostname), hostname) <==>
              forall e :: e in EntriesOf(epNew) ==> !HasEntry(EntriesOf(cache[epNew.name]), e.port, e.addr)
  {
    var stored := cache[epNew.name];
    var now := UpdatedTo(was, Stored(cache, epOld, epNew), epNew, hostname);
    forall e | e in EntriesOf(epNew)
      ensures BindingOf(e, hostname) in now <==> !HasEntry(EntriesOf(stored), e.port, e.addr)
      ensures e.n.service == epNew.name
    {
      HasEntryIsHasPlace(epNew, stored, e);
      assert !Denoted(cache, BindingOf(e, hostname), hostname);
      if BindingOf(e, hostname) in Missing(EntriesOf(epNew), EntriesOf(stored), hostname) {
        var f :| f in EntriesOf(epNew) && !HasEntry(EntriesOf(stored), f.port, f.addr) && BindingOf(f, hostname) == BindingOf(e, hostname);
        OfSubsetsNamed(epNew.name, epNew.subsets, e);
        OfSubsetsNamed(epNew.name, epNew.subsets, f);
        assert f.port == e.port && f.addr.ip == e.addr.ip;
      }
    }
    if forall e :: e in EntriesOf(epNew) ==> !HasEntry(EntriesOf(stored), e.port, e.addr) {
      forall x: Binding ensures x in now <==> Denoted(cache[epNew.name := epNew], x, hostname) {
        if x.n.service != epNew.name {
          OtherBindingsKept(was, stored, epNew, hostname, x);
          assert x in was <==> Denoted(cache, x, hostname);
        } else {
          assert x !in was;
        }
      }
    } else {
      var e :| e in EntriesOf(epNew) && HasEntry(EntriesOf(stored), e.port, e.addr);
      assert Denoted(cache[epNew.name := epNew], BindingOf(e, hostname), hostname);
    }
  }

  /** An object that is not cached yet is installed in full. */
  lemma AddInstalls(cache: Cache, was: set<Binding>, ep: EndpointsObject, hostname: string)
    requires InSync(cache, was, hostname) && ep.name !in cache
    ensures InSync(cache[ep.name := ep],
              was + if ValidObject(ep) then Bindings(EntriesOf(ep), hostname) else {}, hostname)
  {
    var now := was + if ValidObject(ep) then Bindings(EntriesOf(ep), hostname) else {};
    forall x: Binding ensures x in now <==> Denoted(cache[ep.name := ep], x, hostname) {
      assert x in was <==> Denoted(cache, x, hostname);
      forall e | e in EntriesOf(ep) ensures e.n.service == ep.name {
        OfSubsetsNamed(ep.name, ep.subsets, e);
      }
    }
  }

  /** A deletion works from the object it is given, so nothing of the service is left behind if and
      only if that object covers everything the cached one denotes. */
  lemma DeleteUninstalls(cache: Cache, was: set<Binding>, ep: EndpointsObject, hostname: string)
    requires InSync(cache, was, hostname) && ep.name in cache && ValidObject(ep) && ValidObject(cache[ep.name])
    ensures InSync(cache - {ep.name}, was - Bindings(EntriesOf(ep), hostname), hostname) <==>
              Bindings(EntriesOf(cache[ep.name]), hostname) <= Bindings(EntriesOf(ep), hostname)
  {
    var now := was - Bindings(EntriesOf(ep), hostname);
    var cached := cache[ep.name];
    forall e | e in EntriesOf(ep) ensures e.n.service == ep.name {
      OfSubsetsNamed(ep.name, ep.subsets, e);
    }
    forall e | e in EntriesOf(cached) ensures Denoted(cache, BindingOf(e, hostname), hostname) {
      OfSubsetsNamed(cached.name, cached.subsets, e);
    }
    if Bindings(EntriesOf(cached), hostname) <= Bindings(EntriesOf(ep), hostname) {
      forall x: Binding ensures x in now <==> Denoted(cache - {ep.name}, x, hostname) {
        assert x in was <==> Denoted(cache, x, hostname);
      }
    } else {
      var e :| e in EntriesOf(cached) && BindingOf(e, hostname) !in Bindings(EntriesOf(ep), hostname);
      OfSubsetsNamed(cached.name, cached.subsets, e);
      assert BindingOf(e, hostname) in now && !Denoted(cache - {ep.name}, BindingOf(e, hostname), hostname);
    }
  }
}
