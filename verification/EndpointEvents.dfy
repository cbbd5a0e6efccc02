/** The endpoint thread's handlers: Endpoints objects against the last known one. */
module EndpointEvents {
  import opened Names
  import opened Netfilter
  import opened Ruleset
  import opened Mirror
  import opened Steps
  import opened Api
  import opened Reconciler

  datatype EpEntry = EpEntry(n: PortName, addr: EndpointAddress, port: EndpointPort, ready: bool)

  /** An installed endpoint, apart from its place in the list. */
  datatype Binding = Binding(n: PortName, id: EndpointId, isLocal: bool)

  function BindingOf(e: EpEntry, hostname: string): Binding {
    Binding(e.n, Proxy.IdFor(e.addr, e.port), e.addr.nodeName == Some(hostname))
  }

  function Installed(eps: map<PortName, seq<Endpoint>>): set<Binding> {
    set n, i | n in eps && 0 <= i < |eps[n]| :: Binding(n, eps[n][i].id, eps[n][i].isLocal)
  }

  /** No installed endpoint prints like the given entry. */
  ghost predicate Absent(eps: map<PortName, seq<Endpoint>>, e: EpEntry) {
    forall x :: x in Installed(eps) ==> !(x.n == e.n && x.id == Proxy.IdFor(e.addr, e.port))
  }

  ghost predicate Fits(svcs: map<PortName, Service>, e: EpEntry) {
    e.n in svcs ==> FamilyOf(e.addr.ip) == TableFamily(svcs[e.n].base)
  }

  lemma InstalledAdded(eps: map<PortName, seq<Endpoint>>, n: PortName, e: Endpoint)
    ensures Installed(eps[n := EpsOf(eps, n) + [e]]) == Installed(eps) + {Binding(n, e.id, e.isLocal)}
  {
    var es := EpsOf(eps, n);
    var now := eps[n := es + [e]];
    forall x | x in Installed(eps) ensures x in Installed(now) {
      var m, i :| m in eps && 0 <= i < |eps[m]| && x == Binding(m, eps[m][i].id, eps[m][i].isLocal);
      assert now[m][i] == eps[m][i];
    }
    assert now[n][|es|] == e;
    forall x | x in Installed(now) ensures x in Installed(eps) + {Binding(n, e.id, e.isLocal)} {
      var m, i :| m in now && 0 <= i < |now[m]| && x == Binding(m, now[m][i].id, now[m][i].isLocal);
      if m != n || i < |es| {
        assert m in eps && now[m][i] == eps[m][i];
      }
    }
  }

  lemma InstalledRemoved(eps: map<PortName, seq<Endpoint>>, n: PortName, i: nat)
    requires n in eps && i < |eps[n]| && DistinctIds(eps[n])
    ensures Installed(WithList(eps, n, RemovedEp(eps[n], i)))
         == Installed(eps) - {Binding(n, eps[n][i].id, eps[n][i].isLocal)}
  {
    var es, rest := eps[n], RemovedEp(eps[n], i);
    var now := WithList(eps, n, rest);
    var gone := Binding(n, es[i].id, es[i].isLocal);
    forall x | x in Installed(now) ensures x in Installed(eps) && x != gone {
      var m, j :| m in now && 0 <= j < |now[m]| && x == Binding(m, now[m][j].id, now[m][j].isLocal);
      var k := if m == n && j >= i then j + 1 else j;
      assert m in eps && now[m][j] == eps[m][k];
    }
    forall x | x in Installed(eps) && x != gone ensures x in Installed(now) {
      var m, j :| m in eps && 0 <= j < |eps[m]| && x == Binding(m, eps[m][j].id, eps[m][j].isLocal);
      var k := if m == n && j > i then j - 1 else j;
      assert m in now && now[m][k] == eps[m][j];
    }
  }

  lemma InstalledDropped(eps: map<PortName, seq<Endpoint>>, n: PortName, id: EndpointId, isLocal: bool)
    requires n in eps && eps[n] != [] && DistinctIds(eps[n])
    ensures Installed(WithList(eps, n, Dropped(eps[n], id, isLocal))) == Installed(eps) - {Binding(n, id, isLocal)}
  {
    var es := eps[n];
    if i :| 0 <= i < |es| && es[i].id == id && es[i].isLocal == isLocal {
      DroppedAt(es, i);
      InstalledRemoved(eps, n, i);
    } else {
      DroppedAbsent(es, id, isLocal);
      assert WithList(eps, n, es) == eps;
    }
  }

  /** Only the endpoint lists may change in an endpoint handler. */
  twostate predicate ServicesKept(p: Proxy)
    reads p, p.nft
  {
    && old(p.nft.history) <= p.nft.history
    && p.GetConfig() == old(p.GetConfig()).(endpoints := p.endpointsMap)
    && p.svcCache == old(p.svcCache)
  }

  /** One critical section: the addition of an entry. */
  method AddEntry(p: Proxy, e: EpEntry)
    requires p.Valid() && Absent(p.endpointsMap, e) && Fits(p.GetConfig().services, e)
    modifies p`serviceMap, p`endpointsMap, p`epRules, p.nft
    ensures p.Valid() && ServicesKept(p)
    ensures Installed(p.endpointsMap) == Installed(old(p.endpointsMap)) + {BindingOf(e, p.hostname)}
  {
    forall i | 0 <= i < |EpsOf(p.endpointsMap, e.n)|
      ensures EpsOf(p.endpointsMap, e.n)[i].id != Proxy.IdFor(e.addr, e.port)
    {
      var x := p.endpointsMap[e.n][i];
      assert Binding(e.n, x.id, x.isLocal) in Installed(p.endpointsMap);
    }
    assert e.n in p.serviceMap ==> e.n in p.GetConfig().services;
    ghost var es := EpsOf(p.endpointsMap, e.n);
    InstalledAdded(p.endpointsMap, e.n, Endpoint(Proxy.IdFor(e.addr, e.port), p.IsLocal(e.addr), |es|));
    p.AddEndpoint(e.n, e.addr, e.port);
  }

  /** Two critical sections: the snapshot of the list, and the deletion of an entry from it. */
  method DeleteEntry(p: Proxy, e: EpEntry)
    requires p.Valid()
    modifies p`serviceMap, p`endpointsMap, p`epRules, p.nft
    ensures p.Valid() && ServicesKept(p)
    ensures Installed(p.endpointsMap) == Installed(old(p.endpointsMap)) - {BindingOf(e, p.hostname)}
  {
    if e.n !in p.endpointsMap {
      assert p.GetConfig().endpoints == p.endpointsMap;
      return;
    }
    var eps := p.endpointsMap[e.n];
    assert DistinctIds(eps) && eps != [] by { assert PortSynced(e.n, p.GetBooks(), p.nft.tables); }
    InstalledDropped(p.endpointsMap, e.n, Proxy.IdFor(e.addr, e.port), p.IsLocal(e.addr));
    p.DeleteEndpoint(e.n, e.addr, e.port, eps);
  }

  // Endpoints objects -------------------------------------------------------------------------

  function OfPort(n: PortName, port: EndpointPort, addrs: seq<EndpointAddress>): (es: seq<EpEntry>)
    ensures |es| == |addrs|
  {
    seq(|addrs|, i requires 0 <= i < |addrs| => EpEntry(n, addrs[i], port, true))
  }

  function OfPorts(service: NamespacedName, ports: seq<EndpointPort>, addrs: seq<EndpointAddress>): seq<EpEntry> {
    if ports == [] then []
    else OfPort(PortName(service, ports[0].name, ports[0].protocol), ports[0], addrs)
         + OfPorts(service, ports[1..], addrs)
  }

  function AllAddresses(s: Subset): seq<EndpointAddress> {
    s.addresses + s.notReadyAddresses
  }

  function OfSubsets(service: NamespacedName, subsets: seq<Subset>): seq<EpEntry> {
    if subsets == [] then []
    else OfPorts(service, subsets[0].ports, AllAddresses(subsets[0])) + OfSubsets(service, subsets[1..])
  }

  /** What an Endpoints object denotes, ready or not. */
  function EntriesOf(ep: EndpointsObject): seq<EpEntry> {
    OfSubsets(ep.name, ep.subsets)
  }

  predicate NoEmpty(addrs: seq<EndpointAddress>) {
    forall j :: 0 <= j < |addrs| ==> addrs[j].ip != NoAddress
  }

  /** Ports without a number, or addresses that are empty, make an object invalid; addresses only count
      once there is a port to use them. */
  predicate ValidSubset(s: Subset) {
    forall i :: 0 <= i < |s.ports| ==> s.ports[i].port != 0 && NoEmpty(s.addresses) && NoEmpty(s.notReadyAddresses)
  }

  predicate ValidObject(ep: EndpointsObject) {
    forall i :: 0 <= i < |ep.subsets| ==> ValidSubset(ep.subsets[i])
  }

  method ProcessPort(n: PortName, port: EndpointPort, addrs: seq<EndpointAddress>) returns (r: Option<seq<EpEntry>>)
    ensures r == if NoEmpty(addrs) then Some(OfPort(n, port, addrs)) else None
  {
    var acc: seq<EpEntry> := [];
    for i := 0 to |addrs|
      invariant acc == OfPort(n, port, addrs[..i])
      invariant forall j :: 0 <= j < i ==> addrs[j].ip != NoAddress
    {
      if addrs[i].ip == NoAddress {
        return None;
      }
      acc := acc + [EpEntry(n, addrs[i], port, true)];
    }
    assert addrs[..|addrs|] == addrs;
    r := Some(acc);
  }

  /** The entries of one port: first the ready addresses, then the others. */
  method ProcessBoth(n: PortName, port: EndpointPort, s: Subset) returns (r: Option<seq<EpEntry>>)
    ensures r == if port.port != 0 && NoEmpty(s.addresses) && NoEmpty(s.notReadyAddresses)
                 then Some(OfPort(n, port, AllAddresses(s))) else None
  {
    hide OfPort, NoEmpty, AllAddresses;
    if port.port == 0 {
      return None;
    }
    var ready := ProcessPort(n, port, s.addresses);
    if ready.None? {
      return None;
    }
    var notReady := ProcessPort(n, port, s.notReadyAddresses);
    if notReady.None? {
      return None;
    }
    OfBoth(n, port, s);
    r := Some(ready.value + notReady.value);
  }

  method ProcessSubset(service: NamespacedName, s: Subset) returns (r: Option<seq<EpEntry>>)
    ensures r == if ValidSubset(s) then Some(OfPorts(service, s.ports, AllAddresses(s))) else None
  {
    hide OfPort, NoEmpty, AllAddresses;
    var acc: seq<EpEntry> := [];
    for i := 0 to |s.ports|
      invariant acc + OfPorts(service, s.ports[i..], AllAddresses(s)) == OfPorts(service, s.ports, AllAddresses(s))
      invariant forall k :: 0 <= k < i ==> s.ports[k].port != 0 && NoEmpty(s.addresses) && NoEmpty(s.notReadyAddresses)
    {
      var one := ProcessBoth(PortName(service, s.ports[i].name, s.ports[i].protocol), s.ports[i], s);
      if one.None? {
        return None;
      }
      acc := acc + one.value;
      assert s.ports[i..][1..] == s.ports[i + 1..];
    }
    assert s.ports[|s.ports|..] == [] && acc + [] == acc;
    r := Some(acc);
  }

  lemma OfBoth(n: PortName, port: EndpointPort, s: Subset)
    ensures OfPort(n, port, AllAddresses(s)) == OfPort(n, port, s.addresses) + OfPort(n, port, s.notReadyAddresses)
  {}

  method ProcessEpSubsets(ep: EndpointsObject) returns (r: Option<seq<EpEntry>>)
    ensures r == if ValidObject(ep) then Some(EntriesOf(ep)) else None
  {
    hide OfPorts, ValidSubset, AllAddresses;
    var acc: seq<EpEntry> := [];
    for i := 0 to |ep.subsets|
      invariant acc + OfSubsets(ep.name, ep.subsets[i..]) == EntriesOf(ep)
      invariant forall j :: 0 <= j < i ==> ValidSubset(ep.subsets[j])
    {
      var one := ProcessSubset(ep.name, ep.subsets[i]);
      if one.None? {
        return None;
      }
      acc := acc + one.value;
      assert ep.subsets[i..][1..] == ep.subsets[i + 1..];
    }
    assert ep.subsets[|ep.subsets|..] == [] && acc + [] == acc;
    r := Some(acc);
  }

  /** Two entries that the search takes for the same: port name, number, protocol and address. */
  predicate SameEntry(e: EpEntry, port: EndpointPort, addr: EndpointAddress) {
    e.port == port && e.addr.ip == addr.ip
  }

  predicate HasEntry(es: seq<EpEntry>, port: EndpointPort, addr: EndpointAddress) {
    exists i :: 0 <= i < |es| && SameEntry(es[i], port, addr)
  }

  ghost predicate HasIp(addrs: seq<EndpointAddress>, ip: Address) {
    exists j :: 0 <= j < |addrs| && addrs[j].ip == ip
  }

  /** The subset has the port and, ready or not, the address. */
  ghost predicate InSubset(s: Subset, port: EndpointPort, addr: EndpointAddress) {
    port in s.ports && (HasIp(s.addresses, addr.ip) || HasIp(s.notReadyAddresses, addr.ip))
  }

  method FindPair(addrs: seq<EndpointAddress>, ports: seq<EndpointPort>, port: EndpointPort, addr: EndpointAddress)
    returns (found: bool)
    ensures found <==> port in ports && HasIp(addrs, addr.ip)
  {
    for a := 0 to |addrs|
      invariant forall x, y :: 0 <= x < a && 0 <= y < |ports| ==> !(addrs[x].ip == addr.ip && ports[y] == port)
    {
      for q := 0 to |ports|
        invariant forall y :: 0 <= y < q ==> !(addrs[a].ip == addr.ip && ports[y] == port)
      {
        if ports[q] == port && addrs[a].ip == addr.ip {
          return true;
        }
      }
    }
    found := false;
  }

  method IsPortInSubsets(subsets: seq<Subset>, port: EndpointPort, addr: EndpointAddress) returns (found: bool)
    ensures found <==> exists i :: 0 <= i < |subsets| && InSubset(subsets[i], port, addr)
  {
    for i := 0 to |subsets|
      invariant forall j :: 0 <= j < i ==> !InSubset(subsets[j], port, addr)
    {
      found := FindPair(subsets[i].addresses, subsets[i].ports, port, addr);
      if found {
        return;
      }
      found := FindPair(subsets[i].notReadyAddresses, subsets[i].ports, port, addr);
      if found {
        return;
      }
    }
    found := false;
  }

  lemma {:induction false} OfPortsHas(service: NamespacedName, ports: seq<EndpointPort>, addrs: seq<EndpointAddress>,
                                      port: EndpointPort, addr: EndpointAddress)
    ensures HasEntry(OfPorts(service, ports, addrs), port, addr) <==> port in ports && HasIp(addrs, addr.ip)
  {
    if ports != [] {
      var n := PortName(service, ports[0].name, ports[0].protocol);
      var head, rest := OfPort(n, ports[0], addrs), OfPorts(service, ports[1..], addrs);
      OfPortsHas(service, ports[1..], addrs, port, addr);
      HasConcat(head, rest, port, addr);
      if j :| 0 <= j < |addrs| && addrs[j].ip == addr.ip {
        assert head[j].addr == addrs[j];
      }
      if i :| 0 <= i < |ports| && ports[i] == port {
        assert i > 0 ==> ports[1..][i - 1] == port;
      }
    }
  }

  lemma HasIpConcat(xs: seq<EndpointAddress>, ys: seq<EndpointAddress>, ip: Address)
    ensures HasIp(xs + ys, ip) <==> HasIp(xs, ip) || HasIp(ys, ip)
  {
    if j :| 0 <= j < |xs| && xs[j].ip == ip {
      assert (xs + ys)[j] == xs[j];
    }
    if j :| 0 <= j < |ys| && ys[j].ip == ip {
      assert (xs + ys)[|xs| + j] == ys[j];
    }
  }

  lemma HasConcat(es: seq<EpEntry>, fs: seq<EpEntry>, port: EndpointPort, addr: EndpointAddress)
    ensures HasEntry(es + fs, port, addr) <==> HasEntry(es, port, addr) || HasEntry(fs, port, addr)
  {
    if i :| 0 <= i < |es| && SameEntry(es[i], port, addr) {
      assert (es + fs)[i] == es[i];
    }
    if i :| 0 <= i < |fs| && SameEntry(fs[i], port, addr) {
      assert (es + fs)[|es| + i] == fs[i];
    }
  }

  /** The search finds a pair if and only if the object denotes it. */
  lemma {:induction false} SubsetsHave(service: NamespacedName, subsets: seq<Subset>, port: EndpointPort, addr: EndpointAddress)
    ensures (exists i :: 0 <= i < |subsets| && InSubset(subsets[i], port, addr)) <==>
            HasEntry(OfSubsets(service, subsets), port, addr)
  {
    if subsets != [] {
      var s := subsets[0];
      OfPortsHas(service, s.ports, AllAddresses(s), port, addr);
      HasIpConcat(s.addresses, s.notReadyAddresses, addr.ip);
      SubsetsHave(service, subsets[1..], port, addr);
      HasConcat(OfPorts(service, s.ports, AllAddresses(s)), OfSubsets(service, subsets[1..]), port, addr);
      if i :| 0 <= i < |subsets| && InSubset(subsets[i], port, addr) {
        assert i > 0 ==> subsets[1..][i - 1] == subsets[i];
      }
      if i :| 0 <= i < |subsets[1..]| && InSubset(subsets[1..][i], port, addr) {
        assert subsets[i + 1] == subsets[1..][i];
      }
    }
  }

  /** Entries of one object carry the names that their ports give them. */
  lemma {:induction false} OfSubsetsNamed(service: NamespacedName, subsets: seq<Subset>, e: EpEntry)
    requires e in OfSubsets(service, subsets)
    ensures e.n == PortName(service, e.port.name, e.port.protocol)
  {
    if e in OfPorts(service, subsets[0].ports, AllAddresses(subsets[0])) {
      OfPortsNamed(service, subsets[0].ports, AllAddresses(subsets[0]), e);
    } else {
      OfSubsetsNamed(service, subsets[1..], e);
    }
  }

  lemma {:induction false} OfPortsNamed(service: NamespacedName, ports: seq<EndpointPort>, addrs: seq<EndpointAddress>, e: EpEntry)
    requires e in OfPorts(service, ports, addrs)
    ensures e.n == PortName(service, e.port.name, e.port.protocol)
  {
    if e !in OfPort(PortName(service, ports[0].name, ports[0].protocol), ports[0], addrs) {
      OfPortsNamed(service, ports[1..], addrs, e);
    }
  }

  // The handlers ------------------------------------------------------------------------------

  /** One entry for each port and each address. */
  lemma {:induction false} OfPortsExactly(service: NamespacedName, ports: seq<EndpointPort>, addrs: seq<EndpointAddress>, e: EpEntry)
    ensures e in OfPorts(service, ports, addrs) <==>
              e.port in ports && e.addr in addrs && e.ready && e.n == PortName(service, e.port.name, e.port.protocol)
  {
    if ports != [] {
      OfPortsExactly(service, ports[1..], addrs, e);
      var n := PortName(service, ports[0].name, ports[0].protocol);
      var head := OfPort(n, ports[0], addrs);
      if e.port == ports[0] && e.addr in addrs && e.ready && e.n == n {
        var j :| 0 <= j < |addrs| && addrs[j] == e.addr;
        assert head[j] == e;
      }
    }
  }

  lemma {:induction false} OfSubsetsExactly(service: NamespacedName, subsets: seq<Subset>, e: EpEntry)
    ensures e in OfSubsets(service, subsets) <==>
              && e.ready && e.n == PortName(service, e.port.name, e.port.protocol)
              && exists s :: s in subsets && e.port in s.ports && (e.addr in s.addresses || e.addr in s.notReadyAddresses)
  {
    if subsets != [] {
      OfPortsExactly(service, subsets[0].ports, AllAddresses(subsets[0]), e);
      OfSubsetsExactly(service, subsets[1..], e);
    }
  }

  /** The object's pair of a port and an address, ready or not, asks for this binding. */
  predicate AsksFor(ep: EndpointsObject, s: Subset, q: EndpointPort, a: EndpointAddress, hostname: string, x: Binding) {
    && s in ep.subsets && q in s.ports && (a in s.addresses || a in s.notReadyAddresses)
    && x == Binding(PortName(ep.name, q.name, q.protocol), EndpointId(a.ip, q.port, q.protocol), a.nodeName == Some(hostname))
  }

  /** What an Endpoints object denotes, by its fields: every port of a subset with every address of it,
      ready or not, under the name the service knows the port by. */
  lemma BindingsExactly(ep: EndpointsObject, hostname: string, x: Binding)
    ensures x in Bindings(EntriesOf(ep), hostname) <==> exists s, q, a :: AsksFor(ep, s, q, a, hostname, x)
  {
    if x in Bindings(EntriesOf(ep), hostname) {
      var e :| e in EntriesOf(ep) && x == BindingOf(e, hostname);
      OfSubsetsExactly(ep.name, ep.subsets, e);
      var s :| s in ep.subsets && e.port in s.ports && (e.addr in s.addresses || e.addr in s.notReadyAddresses);
      assert AsksFor(ep, s, e.port, e.addr, hostname, x);
    }
    if s, q, a :| AsksFor(ep, s, q, a, hostname, x) {
      var e := EpEntry(PortName(ep.name, q.name, q.protocol), a, q, true);
      OfSubsetsExactly(ep.name, ep.subsets, e);
      assert e in EntriesOf(ep) && x == BindingOf(e, hostname);
    }
  }

  predicate SamePlace(e: EpEntry, f: EpEntry) {
    e.n == f.n && Proxy.IdFor(e.addr, e.port) == Proxy.IdFor(f.addr, f.port)
  }

  /** No two entries denote the same endpoint of the same port. */
  ghost predicate DistinctEntries(es: seq<EpEntry>) {
    forall i, j :: 0 <= i < j < |es| ==> !SamePlace(es[i], es[j])
  }

  function Bindings(es: seq<EpEntry>, hostname: string): set<Binding> {
    set e | e in es :: BindingOf(e, hostname)
  }

  /** The bindings of the entries that another object does not have. */
  function Missing(es: seq<EpEntry>, other: seq<EpEntry>, hostname: string): set<Binding> {
    set e | e in es && !HasEntry(other, e.port, e.addr) :: BindingOf(e, hostname)
  }

  lemma MissingNone(other: seq<EpEntry>, hostname: string)
    ensures Missing([], other, hostname) == {}
  {}

  lemma MissingListed(es: seq<EpEntry>, other: seq<EpEntry>, hostname: string, i: nat)
    requires i <= |es|
    ensures Missing(es[..i], other, hostname) <= Bindings(es[..i], hostname)
  {}

  lemma MissingSnoc(es: seq<EpEntry>, other: seq<EpEntry>, hostname: string, i: nat)
    requires i < |es|
    ensures Missing(es[..i + 1], other, hostname)
         == Missing(es[..i], other, hostname)
            + if HasEntry(other, es[i].port, es[i].addr) then {} else {BindingOf(es[i], hostname)}
  {
    assert es[..i + 1] == es[..i] + [es[i]];
  }

  lemma BindingsSnoc(es: seq<EpEntry>, hostname: string, i: nat)
    requires i < |es|
    ensures Bindings(es[..i + 1], hostname) == Bindings(es[..i], hostname) + {BindingOf(es[i], hostname)}
  {
    assert es[..i + 1] == es[..i] + [es[i]];
  }

  /** Entries added so far do not get in the way of the next one. */
  lemma StillAbsent(eps0: map<PortName, seq<Endpoint>>, eps: map<PortName, seq<Endpoint>>, es: seq<EpEntry>, i: nat,
                    hostname: string, added: set<Binding>)
    requires i < |es| && DistinctEntries(es) && Absent(eps0, es[i])
    requires Installed(eps) <= Installed(eps0) + added && added <= Bindings(es[..i], hostname)
    ensures Absent(eps, es[i])
  {
    forall x | x in Installed(eps) ensures !(x.n == es[i].n && x.id == Proxy.IdFor(es[i].addr, es[i].port)) {
      if x !in Installed(eps0) {
        var e :| e in es[..i] && x == BindingOf(e, hostname);
        var j :| 0 <= j < i && es[j] == e;
        assert !SamePlace(es[j], es[i]);
      }
    }
  }

  /** The endpoint caches, which only the endpoint thread uses. */
  twostate predicate CachesKept(p: Proxy)
    reads p
  {
    p.epCache == old(p.epCache) && p.sliceCache == old(p.sliceCache)
  }

  method AddEndpoints(p: Proxy, ep: EndpointsObject)
    requires p.Valid()
    requires ValidObject(ep) ==> DistinctEntries(EntriesOf(ep))
    requires ValidObject(ep) ==>
               forall e :: e in EntriesOf(ep) ==> Absent(p.endpointsMap, e) && Fits(p.GetConfig().services, e)
    modifies p, p.nft
    ensures p.Valid() && ServicesKept(p)
    ensures p.epCache == old(p.epCache)[ep.name := ep] && p.sliceCache == old(p.sliceCache)
    ensures Installed(p.endpointsMap)
         == Installed(old(p.endpointsMap)) + if ValidObject(ep) then Bindings(EntriesOf(ep), p.hostname) else {}
  {
    hide Synced;
    p.epCache := p.epCache[ep.name := ep];
    var info := ProcessEpSubsets(ep);
    if info.None? {
      return;
    }
    var es := info.value;
    for i := 0 to |es|
      invariant p.Valid() && ServicesKept(p)
      invariant p.epCache == old(p.epCache)[ep.name := ep] && p.sliceCache == old(p.sliceCache)
      invariant Installed(p.endpointsMap) == Installed(old(p.endpointsMap)) + Bindings(es[..i], p.hostname)
    {
      StillAbsent(old(p.endpointsMap), p.endpointsMap, es, i, p.hostname, Bindings(es[..i], p.hostname));
      AddEntry(p, es[i]);
      BindingsSnoc(es, p.hostname, i);
    }
    assert es[..|es|] == es;
  }

  /** Works from the object it is given, not from the cached one. */
  method DeleteEndpoints(p: Proxy, ep: EndpointsObject)
    requires p.Valid()
    modifies p, p.nft
    ensures p.Valid() && ServicesKept(p) && p.sliceCache == old(p.sliceCache)
    ensures !ValidObject(ep) ==> p.epCache == old(p.epCache) && p.endpointsMap == old(p.endpointsMap)
    ensures ValidObject(ep) ==>
              && p.epCache == old(p.epCache) - {ep.name}
              && Installed(p.endpointsMap) == Installed(old(p.endpointsMap)) - Bindings(EntriesOf(ep), p.hostname)
  {
    hide Synced;
    var info := ProcessEpSubsets(ep);
    if info.None? {
      return;
    }
    var es := info.value;
    for i := 0 to |es|
      invariant p.Valid() && ServicesKept(p) && CachesKept(p)
      invariant Installed(p.endpointsMap) == Installed(old(p.endpointsMap)) - Bindings(es[..i], p.hostname)
    {
      DeleteEntry(p, es[i]);
      BindingsSnoc(es, p.hostname, i);
    }
    assert es[..|es|] == es;
    p.epCache := p.epCache - {ep.name};
  }

  /** The object an update is compared with: the cached one, or the caller's old one without it. */
  function Stored(cache: map<NamespacedName, EndpointsObject>, epOld: EndpointsObject, epNew: EndpointsObject): EndpointsObject {
    if epNew.name in cache then cache[epNew.name] else epOld
  }

  /** The installed bindings after an update from `stored` to `epNew`. */
  function UpdatedTo(was: set<Binding>, stored: EndpointsObject, epNew: EndpointsObject, hostname: string): set<Binding> {
    was + Missing(EntriesOf(epNew), EntriesOf(stored), hostname)
    - if ValidObject(stored) then Missing(EntriesOf(stored), EntriesOf(epNew), hostname) else {}
  }

  method UpdateEndpoints(p: Proxy, epOld: EndpointsObject, epNew: EndpointsObject)
    requires p.Valid()
    requires ValidObject(epNew) ==> DistinctEntries(EntriesOf(epNew))
    requires ValidObject(epNew) ==>
               forall e :: e in EntriesOf(epNew)
                           && !HasEntry(EntriesOf(Stored(p.epCache, epOld, epNew)), e.port, e.addr) ==>
                 Absent(p.endpointsMap, e) && Fits(p.GetConfig().services, e)
    modifies p, p.nft
    ensures p.Valid() && ServicesKept(p) && p.sliceCache == old(p.sliceCache)
    ensures epNew.name == NamespacedName("", "") || !ValidObject(epNew) ==>
              p.epCache == old(p.epCache) && p.endpointsMap == old(p.endpointsMap)
    ensures epNew.name != NamespacedName("", "") && ValidObject(epNew) ==>
              && p.epCache == old(p.epCache)[epNew.name := epNew]
              && Installed(p.endpointsMap)
                 == UpdatedTo(Installed(old(p.endpointsMap)), Stored(old(p.epCache), epOld, epNew), epNew, p.hostname)
  {
    hide Synced;
    if epNew.name == NamespacedName("", "") {
      return;
    }
    var stored := if epNew.name in p.epCache then p.epCache[epNew.name] else epOld;
    var info := ProcessEpSubsets(epNew);
    if info.None? {
      return;
    }
    UpdateAdds(p, info.value, stored);
    ghost var mid := Installed(p.endpointsMap);
    var gone := ProcessEpSubsets(stored);
    if gone.Some? {
      UpdateDeletes(p, gone.value, epNew);
    }
    p.epCache := p.epCache[epNew.name := epNew];
  }

  method UpdateAdds(p: Proxy, es: seq<EpEntry>, stored: EndpointsObject)
    requires p.Valid() && DistinctEntries(es)
    requires forall e :: e in es && !HasEntry(EntriesOf(stored), e.port, e.addr) ==>
               Absent(p.endpointsMap, e) && Fits(p.GetConfig().services, e)
    modifies p, p.nft
    ensures p.Valid() && ServicesKept(p) && CachesKept(p)
    ensures Installed(p.endpointsMap)
         == Installed(old(p.endpointsMap)) + Missing(es, EntriesOf(stored), p.hostname)
  {
    hide Synced, Installed, OfSubsets, Fits, InSubset, Missing, Bindings, HasEntry;
    MissingNone(EntriesOf(stored), p.hostname);
    for i := 0 to |es|
      invariant p.Valid() && ServicesKept(p) && CachesKept(p)
      invariant Installed(p.endpointsMap)
             == Installed(old(p.endpointsMap)) + Missing(es[..i], EntriesOf(stored), p.hostname)
    {
      MissingSnoc(es, EntriesOf(stored), p.hostname, i);
      SubsetsHave(stored.name, stored.subsets, es[i].port, es[i].addr);
      var found := IsPortInSubsets(stored.subsets, es[i].port, es[i].addr);
      if !found {
        MissingListed(es, EntriesOf(stored), p.hostname, i);
        StillAbsent(old(p.endpointsMap), p.endpointsMap, es, i, p.hostname, Missing(es[..i], EntriesOf(stored), p.hostname));
        AddEntry(p, es[i]);
      }
    }
    assert es[..|es|] == es;
  }

  method UpdateDeletes(p: Proxy, es: seq<EpEntry>, epNew: EndpointsObject)
    requires p.Valid()
    modifies p, p.nft
    ensures p.Valid() && ServicesKept(p) && CachesKept(p)
    ensures Installed(p.endpointsMap)
         == Installed(old(p.endpointsMap)) - Missing(es, EntriesOf(epNew), p.hostname)
  {
    hide Synced;
    for i := 0 to |es|
      invariant p.Valid() && ServicesKept(p) && CachesKept(p)
      invariant Installed(p.endpointsMap)
             == Installed(old(p.endpointsMap)) - Missing(es[..i], EntriesOf(epNew), p.hostname)
    {
      MissingSnoc(es, EntriesOf(epNew), p.hostname, i);
      SubsetsHave(epNew.name, epNew.subsets, es[i].port, es[i].addr);
      var found := IsPortInSubsets(epNew.subsets, es[i].port, es[i].addr);
      if !found {
        DeleteEntry(p, es[i]);
      }
    }
    assert es[..|es|] == es;
  }
}
