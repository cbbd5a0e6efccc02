/** The endpoint thread's handlers for EndpointSlice objects, which carry readiness. */
module SliceEvents {
  import opened Names
  import opened Netfilter
  import opened Ruleset
  import opened Mirror
  import opened Api
  import opened Reconciler
  import opened EndpointEvents

  function Block(n: PortName, port: EndpointPort, e: SliceEndpoint): (es: seq<EpEntry>)
    ensures |es| == |e.addresses|
  {
    seq(|e.addresses|, i requires 0 <= i < |e.addresses| =>
      EpEntry(n, EndpointAddress(e.addresses[i], e.hostname), port, e.ready))
  }

  function Blocks(service: NamespacedName, ports: seq<EndpointPort>, e: SliceEndpoint): seq<EpEntry> {
    if ports == [] then []
    else Block(PortName(service, ports[0].name, ports[0].protocol), ports[0], e) + Blocks(service, ports[1..], e)
  }

  function Entries(service: NamespacedName, endpoints: seq<SliceEndpoint>, ports: seq<EndpointPort>): seq<EpEntry> {
    if endpoints == [] then []
    else Blocks(service, ports, endpoints[0]) + Entries(service, endpoints[1..], ports)
  }

  /** What a slice denotes; without the service label that is nothing. */
  function SliceEntries(sl: SliceObject): seq<EpEntry> {
    if sl.service.None? then []
    else Entries(NamespacedName(sl.name.namespace, sl.service.value), sl.endpoints, sl.ports)
  }

  /** The same, whether or not the slice has the label. */
  function RawEntries(sl: SliceObject): seq<EpEntry> {
    Entries(sl.name, sl.endpoints, sl.ports)
  }

  /** Port numbers are checked once there is an endpoint to use them. */
  predicate ValidSlice(sl: SliceObject) {
    sl.service.None? || sl.endpoints == [] || Numbered(sl.ports)
  }

  predicate Numbered(ports: seq<EndpointPort>) {
    ports == [] || (ports[0].port != 0 && Numbered(ports[1..]))
  }

  lemma {:induction false} NumberedExactly(ports: seq<EndpointPort>)
    ensures Numbered(ports) <==> forall q :: q in ports ==> q.port != 0
  {
    if ports != [] {
      NumberedExactly(ports[1..]);
    }
  }

  lemma {:induction false} BlocksExactly(service: NamespacedName, ports: seq<EndpointPort>, se: SliceEndpoint, e: EpEntry)
    ensures e in Blocks(service, ports, se) <==>
              && e.port in ports && e.n == PortName(service, e.port.name, e.port.protocol)
              && e.addr.ip in se.addresses && e.addr.nodeName == se.hostname && e.ready == se.ready
  {
    if ports != [] {
      BlocksExactly(service, ports[1..], se, e);
      var n := PortName(service, ports[0].name, ports[0].protocol);
      var head := Block(n, ports[0], se);
      if e.port == ports[0] && e.n == n && e.addr.ip in se.addresses && e.addr.nodeName == se.hostname && e.ready == se.ready {
        var j :| 0 <= j < |se.addresses| && se.addresses[j] == e.addr.ip;
        assert head[j] == e;
      }
    }
  }

  /** One entry for each port, each endpoint and each of its addresses, with the endpoint's readiness. */
  lemma {:induction false} EntriesExactly(service: NamespacedName, endpoints: seq<SliceEndpoint>, ports: seq<EndpointPort>, e: EpEntry)
    ensures e in Entries(service, endpoints, ports) <==>
              && e.port in ports && e.n == PortName(service, e.port.name, e.port.protocol)
              && exists se :: se in endpoints && e.addr.ip in se.addresses && e.addr.nodeName == se.hostname && e.ready == se.ready
  {
    if endpoints != [] {
      BlocksExactly(service, ports, endpoints[0], e);
      EntriesExactly(service, endpoints[1..], ports, e);
    }
  }

  /** The slice's port, ready endpoint and address ask for this binding. */
  predicate SliceAsksFor(sl: SliceObject, se: SliceEndpoint, q: EndpointPort, ip: Address, hostname: string, x: Binding) {
    && sl.service.Some? && se in sl.endpoints && se.ready && q in sl.ports && ip in se.addresses
    && x == Binding(PortName(NamespacedName(sl.name.namespace, sl.service.value), q.name, q.protocol),
                    EndpointId(ip, q.port, q.protocol), se.hostname == Some(hostname))
  }

  /** What a slice denotes, by its fields: every port with every address of every ready endpoint. */
  lemma ReadyExactly(sl: SliceObject, hostname: string, x: Binding)
    ensures x in Ready(SliceEntries(sl), hostname) <==> exists se, q, ip :: SliceAsksFor(sl, se, q, ip, hostname, x)
  {
    if x in Ready(SliceEntries(sl), hostname) {
      var e :| e in SliceEntries(sl) && e.ready && x == BindingOf(e, hostname);
      EntriesExactly(NamespacedName(sl.name.namespace, sl.service.value), sl.endpoints, sl.ports, e);
      var se :| se in sl.endpoints && e.addr.ip in se.addresses && e.addr.nodeName == se.hostname && e.ready == se.ready;
      assert SliceAsksFor(sl, se, e.port, e.addr.ip, hostname, x);
    }
    if se, q, ip :| SliceAsksFor(sl, se, q, ip, hostname, x) {
      var service := NamespacedName(sl.name.namespace, sl.service.value);
      var e := EpEntry(PortName(service, q.name, q.protocol), EndpointAddress(ip, se.hostname), q, true);
      EntriesExactly(service, sl.endpoints, sl.ports, e);
      assert e in SliceEntries(sl) && x == BindingOf(e, hostname);
    }
  }

  /** A slice is refused if and only if it has the label, an endpoint, and a port without a number. */
  lemma ValidSliceExactly(sl: SliceObject)
    ensures ValidSlice(sl) <==> sl.service.None? || sl.endpoints == [] || forall q :: q in sl.ports ==> q.port != 0
  {
    NumberedExactly(sl.ports);
  }

  method ProcessEpSlice(sl: SliceObject) returns (r: Option<seq<EpEntry>>)
    ensures r == if ValidSlice(sl) then Some(SliceEntries(sl)) else None
  {
    if sl.service.None? {
      return Some([]);
    }
    var service := NamespacedName(sl.name.namespace, sl.service.value);
    var acc: seq<EpEntry> := [];
    for i := 0 to |sl.endpoints|
      invariant acc + Entries(service, sl.endpoints[i..], sl.ports) == Entries(service, sl.endpoints, sl.ports)
      invariant i > 0 ==> ValidSlice(sl)
    {
      var one := ProcessBlocks(service, sl.ports, sl.endpoints[i]);
      if one.None? {
        return None;
      }
      acc := acc + one.value;
      assert sl.endpoints[i..][1..] == sl.endpoints[i + 1..];
    }
    assert sl.endpoints[|sl.endpoints|..] == [] && acc + [] == acc;
    r := Some(acc);
  }

  method ProcessBlock(n: PortName, port: EndpointPort, e: SliceEndpoint) returns (acc: seq<EpEntry>)
    ensures acc == Block(n, port, e)
  {
    acc := [];
    for a := 0 to |e.addresses|
      invariant acc == Block(n, port, e)[..a]
    {
      acc := acc + [EpEntry(n, EndpointAddress(e.addresses[a], e.hostname), port, e.ready)];
    }
  }

  method ProcessBlocks(service: NamespacedName, ports: seq<EndpointPort>, e: SliceEndpoint) returns (r: Option<seq<EpEntry>>)
    ensures r == if Numbered(ports) then Some(Blocks(service, ports, e)) else None
  {
    hide Block;
    var acc: seq<EpEntry> := [];
    for q := 0 to |ports|
      invariant acc + Blocks(service, ports[q..], e) == Blocks(service, ports, e)
      invariant Numbered(ports) == Numbered(ports[q..])
    {
      if ports[q].port == 0 {
        return None;
      }
      var n := PortName(service, ports[q].name, ports[q].protocol);
      var one := ProcessBlock(n, ports[q], e);
      acc := acc + one;
      assert ports[q..][1..] == ports[q + 1..];
    }
    assert ports[|ports|..] == [] && acc + [] == acc;
    r := Some(acc);
  }

  /** Readiness of the first entry that matches. */
  function FirstReady(es: seq<EpEntry>, port: EndpointPort, ip: Address): Option<bool> {
    if es == [] then None
    else if es[0].port == port && es[0].addr.ip == ip then Some(es[0].ready)
    else FirstReady(es[1..], port, ip)
  }

  lemma {:induction false} FirstOfConcat(es: seq<EpEntry>, fs: seq<EpEntry>, port: EndpointPort, ip: Address)
    ensures FirstReady(es + fs, port, ip)
         == if FirstReady(es, port, ip).Some? then FirstReady(es, port, ip) else FirstReady(fs, port, ip)
  {
    if es == [] {
      assert es + fs == fs;
    } else {
      assert (es + fs)[1..] == es[1..] + fs;
      FirstOfConcat(es[1..], fs, port, ip);
    }
  }

  lemma {:induction false} FirstOfSame(es: seq<EpEntry>, port: EndpointPort, ip: Address)
    ensures FirstReady(es, port, ip).None? <==> forall i :: 0 <= i < |es| ==> !(es[i].port == port && es[i].addr.ip == ip)
    ensures FirstReady(es, port, ip).Some? ==>
              exists i :: 0 <= i < |es| && es[i].port == port && es[i].addr.ip == ip
                          && FirstReady(es, port, ip) == Some(es[i].ready)
  {
    if es != [] && !(es[0].port == port && es[0].addr.ip == ip) {
      FirstOfSame(es[1..], port, ip);
      if i :| 0 <= i < |es[1..]| && es[1..][i].port == port && es[1..][i].addr.ip == ip
              && FirstReady(es[1..], port, ip) == Some(es[1..][i].ready) {
        assert es[i + 1] == es[1..][i];
      }
    } else if es != [] {
      assert FirstReady(es, port, ip) == Some(es[0].ready);
    }
  }

  lemma FirstOfBlock(n: PortName, p: EndpointPort, e: SliceEndpoint, port: EndpointPort, ip: Address)
    ensures FirstReady(Block(n, p, e), port, ip) == if p == port && ip in e.addresses then Some(e.ready) else None
  {
    FirstOfSame(Block(n, p, e), port, ip);
    if p == port && ip in e.addresses {
      var i :| 0 <= i < |e.addresses| && e.addresses[i] == ip;
      assert Block(n, p, e)[i].addr.ip == ip;
    }
  }

  method FindInEndpoint(service: NamespacedName, ports: seq<EndpointPort>, e: SliceEndpoint, port: EndpointPort, ip: Address)
    returns (r: Option<bool>)
    ensures r == FirstReady(Blocks(service, ports, e), port, ip)
  {
    for q := 0 to |ports|
      invariant FirstReady(Blocks(service, ports, e), port, ip) == FirstReady(Blocks(service, ports[q..], e), port, ip)
    {
      var p := ports[q];
      ghost var n := PortName(service, p.name, p.protocol);
      assert ports[q..][1..] == ports[q + 1..];
      FirstOfConcat(Block(n, p, e), Blocks(service, ports[q + 1..], e), port, ip);
      FirstOfBlock(n, p, e, port, ip);
      if p == port {
        for a := 0 to |e.addresses|
          invariant ip !in e.addresses[..a]
        {
          if e.addresses[a] == ip {
            return Some(e.ready);
          }
        }
        assert e.addresses[..|e.addresses|] == e.addresses;
      }
    }
    r := None;
  }

  /** Looks for a port and address pair in a slice: its readiness, if it is there. */
  method IsPortInEndpointSlice(sl: SliceObject, port: EndpointPort, ip: Address) returns (r: Option<bool>)
    ensures r == FirstReady(RawEntries(sl), port, ip)
  {
    for i := 0 to |sl.endpoints|
      invariant FirstReady(RawEntries(sl), port, ip) == FirstReady(Entries(sl.name, sl.endpoints[i..], sl.ports), port, ip)
    {
      ghost var rest := Entries(sl.name, sl.endpoints[i + 1..], sl.ports);
      assert sl.endpoints[i..][1..] == sl.endpoints[i + 1..];
      FirstOfConcat(Blocks(sl.name, sl.ports, sl.endpoints[i]), rest, port, ip);
      r := FindInEndpoint(sl.name, sl.ports, sl.endpoints[i], port, ip);
      if r.Some? {
        return;
      }
    }
    r := None;
  }

  /** What the search finds, by the slice's fields: the readiness of the first endpoint with the address,
      if the slice has the port. */
  lemma {:induction false} SearchExactly(service: NamespacedName, endpoints: seq<SliceEndpoint>, ports: seq<EndpointPort>,
                                         port: EndpointPort, ip: Address, ready: bool)
    ensures FirstReady(Entries(service, endpoints, ports), port, ip) == Some(ready) <==>
              && port in ports
              && exists i :: 0 <= i < |endpoints| && ip in endpoints[i].addresses && endpoints[i].ready == ready
                             && forall j :: 0 <= j < i ==> ip !in endpoints[j].addresses
  {
    if endpoints != [] {
      var e, rest := endpoints[0], endpoints[1..];
      FirstOfConcat(Blocks(service, ports, e), Entries(service, rest, ports), port, ip);
      FirstOfBlocks(service, ports, e, port, ip);
      SearchExactly(service, rest, ports, port, ip, ready);
      FirstListed(endpoints, ip, ready);
    }
  }

  /** The first of a list is its head, or the first of the rest. */
  lemma FirstListed(endpoints: seq<SliceEndpoint>, ip: Address, ready: bool)
    requires endpoints != []
    ensures (exists i :: 0 <= i < |endpoints| && ip in endpoints[i].addresses && endpoints[i].ready == ready
                         && forall j :: 0 <= j < i ==> ip !in endpoints[j].addresses)
            <==> if ip in endpoints[0].addresses then endpoints[0].ready == ready
                 else exists i :: 0 <= i < |endpoints[1..]| && ip in endpoints[1..][i].addresses && endpoints[1..][i].ready == ready
                                  && forall j :: 0 <= j < i ==> ip !in endpoints[1..][j].addresses
  {
    var rest := endpoints[1..];
    if i :| 0 <= i < |endpoints| && ip in endpoints[i].addresses && endpoints[i].ready == ready
            && forall j :: 0 <= j < i ==> ip !in endpoints[j].addresses {
      if i > 0 {
        assert rest[i - 1] == endpoints[i];
        assert forall j :: 0 <= j < i - 1 ==> rest[j] == endpoints[j + 1];
      }
    }
    if i :| 0 <= i < |rest| && ip in rest[i].addresses && rest[i].ready == ready
            && forall j :: 0 <= j < i ==> ip !in rest[j].addresses {
      assert endpoints[i + 1] == rest[i];
      assert forall j :: 0 < j < i + 1 ==> endpoints[j] == rest[j - 1];
    }
  }

  lemma {:induction false} FirstOfBlocks(service: NamespacedName, ports: seq<EndpointPort>, e: SliceEndpoint,
                                         port: EndpointPort, ip: Address)
    ensures FirstReady(Blocks(service, ports, e), port, ip) == if port in ports && ip in e.addresses then Some(e.ready) else None
  {
    if ports != [] {
      var n := PortName(service, ports[0].name, ports[0].protocol);
      FirstOfConcat(Block(n, ports[0], e), Blocks(service, ports[1..], e), port, ip);
      FirstOfBlock(n, ports[0], e, port, ip);
      FirstOfBlocks(service, ports[1..], e, port, ip);
    }
  }

  /** The label does not matter to the search. */
  lemma {:induction false} FirstIgnoresService(s: NamespacedName, s': NamespacedName, endpoints: seq<SliceEndpoint>,
                                               ports: seq<EndpointPort>, port: EndpointPort, ip: Address)
    ensures FirstReady(Entries(s, endpoints, ports), port, ip) == FirstReady(Entries(s', endpoints, ports), port, ip)
  {
    if endpoints != [] {
      FirstIgnoresService(s, s', endpoints[1..], ports, port, ip);
      FirstOfConcat(Blocks(s, ports, endpoints[0]), Entries(s, endpoints[1..], ports), port, ip);
      FirstOfConcat(Blocks(s', ports, endpoints[0]), Entries(s', endpoints[1..], ports), port, ip);
      BlocksIgnoreService(s, s', ports, endpoints[0], port, ip);
    }
  }

  lemma {:induction false} BlocksIgnoreService(s: NamespacedName, s': NamespacedName, ports: seq<EndpointPort>, e: SliceEndpoint,
                                               port: EndpointPort, ip: Address)
    ensures FirstReady(Blocks(s, ports, e), port, ip) == FirstReady(Blocks(s', ports, e), port, ip)
  {
    if ports != [] {
      var n, n' := PortName(s, ports[0].name, ports[0].protocol), PortName(s', ports[0].name, ports[0].protocol);
      BlocksIgnoreService(s, s', ports[1..], e, port, ip);
      FirstOfConcat(Block(n, ports[0], e), Blocks(s, ports[1..], e), port, ip);
      FirstOfConcat(Block(n', ports[0], e), Blocks(s', ports[1..], e), port, ip);
      FirstOfBlock(n, ports[0], e, port, ip);
      FirstOfBlock(n', ports[0], e, port, ip);
    }
  }

  // The handlers ------------------------------------------------------------------------------

  function Ready(es: seq<EpEntry>, hostname: string): set<Binding> {
    set e | e in es && e.ready :: BindingOf(e, hostname)
  }

  /** Entries of a new slice that become ready. */
  function Up(es: seq<EpEntry>, stored: SliceObject, hostname: string): set<Binding> {
    set e | e in es && GoesUp(e, stored) :: BindingOf(e, hostname)
  }

  /** Entries of a new slice that stop being ready. */
  function Down(es: seq<EpEntry>, stored: SliceObject, hostname: string): set<Binding> {
    set e | e in es && GoesDown(e, stored) :: BindingOf(e, hostname)
  }

  /** Ready entries of the stored slice that the new one does not have at all. */
  function Gone(es: seq<EpEntry>, slNew: SliceObject, hostname: string): set<Binding> {
    set e | e in es && e.ready && FirstReady(RawEntries(slNew), e.port, e.addr.ip).None? :: BindingOf(e, hostname)
  }

  method AddEndpointSlice(p: Proxy, sl: SliceObject)
    requires p.Valid()
    requires ValidSlice(sl) ==> DistinctEntries(SliceEntries(sl))
    requires ValidSlice(sl) ==>
               forall e :: e in SliceEntries(sl) && e.ready ==> Absent(p.endpointsMap, e) && Fits(p.GetConfig().services, e)
    modifies p, p.nft
    ensures p.Valid() && ServicesKept(p)
    ensures p.sliceCache == old(p.sliceCache)[sl.name := sl] && p.epCache == old(p.epCache)
    ensures Installed(p.endpointsMap)
         == Installed(old(p.endpointsMap)) + if ValidSlice(sl) then Ready(SliceEntries(sl), p.hostname) else {}
  {
    hide Synced, Installed, Fits;
    p.sliceCache := p.sliceCache[sl.name := sl];
    var info := ProcessEpSlice(sl);
    if info.None? {
      return;
    }
    var es := info.value;
    for i := 0 to |es|
      invariant p.Valid() && ServicesKept(p)
      invariant p.sliceCache == old(p.sliceCache)[sl.name := sl] && p.epCache == old(p.epCache)
      invariant Installed(p.endpointsMap) == Installed(old(p.endpointsMap)) + Ready(es[..i], p.hostname)
    {
      assert es[..i + 1] == es[..i] + [es[i]];
      if es[i].ready {
        StillAbsent(old(p.endpointsMap), p.endpointsMap, es, i, p.hostname, Ready(es[..i], p.hostname));
        AddEntry(p, es[i]);
      }
    }
    assert es[..|es|] == es;
  }

  method DeleteEndpointSlice(p: Proxy, sl: SliceObject)
    requires p.Valid()
    modifies p, p.nft
    ensures p.Valid() && ServicesKept(p) && p.epCache == old(p.epCache)
    ensures !ValidSlice(sl) ==> p.sliceCache == old(p.sliceCache) && p.endpointsMap == old(p.endpointsMap)
    ensures ValidSlice(sl) ==>
              && p.sliceCache == old(p.sliceCache) - {sl.name}
              && Installed(p.endpointsMap) == Installed(old(p.endpointsMap)) - Ready(SliceEntries(sl), p.hostname)
  {
    hide Synced, Installed;
    var info := ProcessEpSlice(sl);
    if info.None? {
      return;
    }
    var es := info.value;
    for i := 0 to |es|
      invariant p.Valid() && ServicesKept(p) && CachesKept(p)
      invariant Installed(p.endpointsMap) == Installed(old(p.endpointsMap)) - Ready(es[..i], p.hostname)
    {
      assert es[..i + 1] == es[..i] + [es[i]];
      if es[i].ready {
        DeleteEntry(p, es[i]);
      }
    }
    assert es[..|es|] == es;
    p.sliceCache := p.sliceCache - {sl.name};
  }

  function StoredSlice(cache: map<NamespacedName, SliceObject>, slOld: SliceObject, slNew: SliceObject): SliceObject {
    if slNew.name in cache then cache[slNew.name] else slOld
  }

  /** The installed bindings after an update from `stored` to `slNew`. */
  function SliceUpdatedTo(was: set<Binding>, stored: SliceObject, slNew: SliceObject, hostname: string): set<Binding> {
    was - Down(SliceEntries(slNew), stored, hostname) + Up(SliceEntries(slNew), stored, hostname)
    - if ValidSlice(stored) then Gone(SliceEntries(stored), slNew, hostname) else {}
  }

  method UpdateEndpointSlice(p: Proxy, slOld: SliceObject, slNew: SliceObject)
    requires p.Valid()
    requires ValidSlice(slNew) ==> DistinctEntries(SliceEntries(slNew))
    requires ValidSlice(slNew) ==>
               forall e :: e in SliceEntries(slNew) && GoesUp(e, StoredSlice(p.sliceCache, slOld, slNew)) ==>
                 Absent(p.endpointsMap, e) && Fits(p.GetConfig().services, e)
    modifies p, p.nft
    ensures p.Valid() && ServicesKept(p) && p.epCache == old(p.epCache)
    ensures !ValidSlice(slNew) ==> p.sliceCache == old(p.sliceCache) && p.endpointsMap == old(p.endpointsMap)
    ensures ValidSlice(slNew) ==>
              && p.sliceCache == old(p.sliceCache)[slNew.name := slNew]
              && Installed(p.endpointsMap)
                 == SliceUpdatedTo(Installed(old(p.endpointsMap)), StoredSlice(old(p.sliceCache), slOld, slNew), slNew, p.hostname)
  {
    hide Synced;
    var stored := if slNew.name in p.sliceCache then p.sliceCache[slNew.name] else slOld;
    var info := ProcessEpSlice(slNew);
    if info.None? {
      return;
    }
    UpdateReadiness(p, info.value, stored);
    ghost var mid := Installed(p.endpointsMap);
    var gone := ProcessEpSlice(stored);
    if gone.Some? {
      DeleteGone(p, gone.value, slNew);
    }
    p.sliceCache := p.sliceCache[slNew.name := slNew];
  }

  predicate WasReady(e: EpEntry, stored: SliceObject) {
    var r := FirstReady(RawEntries(stored), e.port, e.addr.ip);
    r.Some? && r.value
  }

  predicate GoesUp(e: EpEntry, stored: SliceObject) {
    e.ready && !WasReady(e, stored)
  }

  predicate GoesDown(e: EpEntry, stored: SliceObject) {
    !e.ready && WasReady(e, stored)
  }

  function Updated(was: set<Binding>, e: EpEntry, stored: SliceObject, hostname: string): set<Binding> {
    if GoesUp(e, stored) then was + {BindingOf(e, hostname)}
    else if GoesDown(e, stored) then was - {BindingOf(e, hostname)}
    else was
  }

  lemma ReadinessSnoc(was: set<Binding>, es: seq<EpEntry>, stored: SliceObject, hostname: string, i: nat)
    requires i < |es| && DistinctEntries(es)
    ensures was - Down(es[..i + 1], stored, hostname) + Up(es[..i + 1], stored, hostname)
         == Updated(was - Down(es[..i], stored, hostname) + Up(es[..i], stored, hostname), es[i], stored, hostname)
  {
    assert es[..i + 1] == es[..i] + [es[i]];
    NotUp(es, stored, hostname, i);
    assert Up(es[..i + 1], stored, hostname)
        == Up(es[..i], stored, hostname) + (if GoesUp(es[i], stored) then {BindingOf(es[i], hostname)} else {});
    assert Down(es[..i + 1], stored, hostname)
        == Down(es[..i], stored, hostname) + (if GoesDown(es[i], stored) then {BindingOf(es[i], hostname)} else {});
  }

  /** The case analysis on old and new readiness. */
  method UpdateEntry(p: Proxy, e: EpEntry, stored: SliceObject)
    requires p.Valid()
    requires GoesUp(e, stored) ==> Absent(p.endpointsMap, e) && Fits(p.GetConfig().services, e)
    modifies p, p.nft
    ensures p.Valid() && ServicesKept(p) && CachesKept(p)
    ensures Installed(p.endpointsMap)
         == Updated(Installed(old(p.endpointsMap)), e, stored, p.hostname)
  {
    hide Synced;
    assert p.GetConfig().endpoints == p.endpointsMap;
    var was := IsPortInEndpointSlice(stored, e.port, e.addr.ip);
    if was.None? && e.ready {
      AddEntry(p, e);
    } else if was.Some? && was.value && !e.ready {
      DeleteEntry(p, e);
    } else if was.Some? && !was.value && e.ready {
      AddEntry(p, e);
    }
  }

  method UpdateReadiness(p: Proxy, es: seq<EpEntry>, stored: SliceObject)
    requires p.Valid() && DistinctEntries(es)
    requires forall e :: e in es && GoesUp(e, stored) ==> Absent(p.endpointsMap, e) && Fits(p.GetConfig().services, e)
    modifies p, p.nft
    ensures p.Valid() && ServicesKept(p) && CachesKept(p)
    ensures Installed(p.endpointsMap)
         == Installed(old(p.endpointsMap)) - Down(es, stored, p.hostname) + Up(es, stored, p.hostname)
  {
    hide Synced, Installed, Fits, Up, Down, GoesUp, Bindings;
    ghost var was := Installed(p.endpointsMap);
    NoReadiness(stored, p.hostname);
    for i := 0 to |es|
      invariant p.Valid() && ServicesKept(p) && CachesKept(p)
      invariant Installed(p.endpointsMap) == was - Down(es[..i], stored, p.hostname) + Up(es[..i], stored, p.hostname)
    {
      ReadinessSnoc(was, es, stored, p.hostname, i);
      if GoesUp(es[i], stored) {
        UpListed(es, stored, p.hostname, i);
        StillAbsent(old(p.endpointsMap), p.endpointsMap, es, i, p.hostname, Up(es[..i], stored, p.hostname));
      }
      UpdateEntry(p, es[i], stored);
    }
    assert es[..|es|] == es;
  }

  lemma NoReadiness(stored: SliceObject, hostname: string)
    ensures Up([], stored, hostname) == Down([], stored, hostname) == {}
  {}

  lemma UpListed(es: seq<EpEntry>, stored: SliceObject, hostname: string, i: nat)
    requires i <= |es|
    ensures Up(es[..i], stored, hostname) <= Bindings(es[..i], hostname)
  {}

  lemma NotUp(es: seq<EpEntry>, stored: SliceObject, hostname: string, i: nat)
    requires i < |es| && DistinctEntries(es)
    ensures BindingOf(es[i], hostname) !in Up(es[..i], stored, hostname)
  {
    forall e | e in es[..i] ensures BindingOf(e, hostname) != BindingOf(es[i], hostname) {
      var j :| 0 <= j < i && es[j] == e;
      assert !SamePlace(es[j], es[i]);
    }
  }

  method DeleteGone(p: Proxy, es: seq<EpEntry>, slNew: SliceObject)
    requires p.Valid()
    modifies p, p.nft
    ensures p.Valid() && ServicesKept(p) && CachesKept(p)
    ensures Installed(p.endpointsMap) == Installed(old(p.endpointsMap)) - Gone(es, slNew, p.hostname)
  {
    hide Synced;
    for i := 0 to |es|
      invariant p.Valid() && ServicesKept(p) && CachesKept(p)
      invariant Installed(p.endpointsMap) == Installed(old(p.endpointsMap)) - Gone(es[..i], slNew, p.hostname)
    {
      assert es[..i + 1] == es[..i] + [es[i]];
      var found := IsPortInEndpointSlice(slNew, es[i].port, es[i].addr.ip);
      if found.None? && es[i].ready {
        DeleteEntry(p, es[i]);
      }
    }
    assert es[..|es|] == es;
  }
}
