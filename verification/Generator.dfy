/** The stress test's objects: printed addresses, chunked into subsets, endpoints and services. */
module Generator {
  import opened Names
  import opened Text
  import opened Odometer

  // Printing an address, and reading it back ----------------------------------------------------

  function QuadParts(b: seq<Byte>): (parts: seq<string>)
    ensures |parts| == |b|
  {
    seq(|b|, i requires 0 <= i < |b| => Decimal(b[i]))
  }

  function Group(b: Byte, c: Byte): string {
    Hex2(b) + Hex2(c)
  }

  function GroupParts(b: seq<Byte>): (parts: seq<string>)
    requires |b| % 2 == 0
    ensures |parts| == |b| / 2
  {
    seq(|b| / 2, i requires 0 <= i < |b| / 2 => Group(b[2 * i], b[2 * i + 1]))
  }

  function Length(ipv6: bool): nat {
    if ipv6 then 16 else 4
  }

  /** The dotted quad, or the full form 1 of section 2.2 of RFC 4291. */
  function Printed(b: seq<Byte>, ipv6: bool): string
    requires |b| == Length(ipv6)
  {
    if ipv6 then Join(GroupParts(b), ':') else Join(QuadParts(b), '.')
  }

  method PrintQuad(g: seq<Byte>) returns (str: string)
    requires |g| == 4
    ensures str == Join(QuadParts(g), '.')
  {
    str := "";
    ghost var parts := QuadParts(g);
    for e := 0 to 4
      invariant str == if e < 4 then Trail(parts[..e], '.') else Join(parts, '.')
    {
      str := str + Decimal(g[e]);
      TrailJoin(parts[..e], parts[e], '.');
      assert parts[..e + 1] == parts[..e] + [parts[e]];
      if e < 3 {
        str := str + ".";
      } else {
        assert parts[..4] == parts;
      }
    }
  }

  /** What has been printed before byte e. */
  function GroupPrefix(g: seq<Byte>, e: nat): string
    requires |g| == 16 && e <= 16
  {
    if e == 16 then Join(GroupParts(g), ':')
    else Trail(GroupParts(g)[..e / 2], ':') + if e % 2 == 0 then "" else Hex2(g[e - 1])
  }

  lemma GroupPrefixNext(g: seq<Byte>, e: nat)
    requires |g| == 16 && e < 16
    ensures GroupPrefix(g, e + 1)
         == GroupPrefix(g, e) + Hex2(g[e]) + if e % 2 == 1 && e < 15 then ":" else ""
  {
    hide Hex2, Join, GroupParts, Trail;
    var done := Trail(GroupParts(g)[..e / 2], ':');
    if e % 2 == 1 {
      GroupEnds(g, e);
      assert GroupPrefix(g, e) == done + Hex2(g[e - 1]);
      if e < 15 {
        assert GroupPrefix(g, e + 1) == Trail(GroupParts(g)[..(e + 1) / 2], ':') + "";
        hide GroupPrefix;
      }
    } else {
      assert (e + 1) / 2 == e / 2;
      assert GroupPrefix(g, e) == done + "" == done;
      assert GroupPrefix(g, e + 1) == done + Hex2(g[e]);
      hide GroupPrefix;
    }
  }

  lemma GroupEnds(g: seq<Byte>, e: nat)
    requires |g| == 16 && e < 16 && e % 2 == 1
    ensures var str := Trail(GroupParts(g)[..e / 2], ':') + Hex2(g[e - 1]) + Hex2(g[e]);
            str + ":" == Trail(GroupParts(g)[..(e + 1) / 2], ':') && (e == 15 ==> str + "" == Join(GroupParts(g), ':'))
  {
    hide Hex2;
    var parts, i := GroupParts(g), e / 2;
    var str := Trail(parts[..i], ':') + Hex2(g[e - 1]) + Hex2(g[e]);
    assert parts[i] == Hex2(g[2 * i]) + Hex2(g[2 * i + 1]);
    hide GroupParts;
    assert str == Trail(parts[..i], ':') + parts[i];
    assert parts[..i + 1] == parts[..i] + [parts[i]];
    assert parts[..i + 1][..i] == parts[..i];
    if e == 15 {
      TrailJoin(parts[..i], parts[i], ':');
      assert parts[..i + 1] == parts;
    }
  }

  /** Every byte is two digits; a colon follows every second byte but the last. */
  method PrintGroups(g: seq<Byte>) returns (str: string)
    requires |g| == 16
    ensures str == Join(GroupParts(g), ':')
  {
    hide Hex2, Join, GroupParts, Trail;
    str := "";
    var t := 0;
    NothingPrinted(g);
    for e := 0 to 16
      invariant e < 16 ==> t == e % 2
      invariant str == GroupPrefix(g, e)
    {
      GroupPrefixNext(g, e);
      hide GroupPrefix;
      str := str + Hex2(g[e]);
      if t == 1 {
        if e < 15 {
          str := str + ":";
          t := 0;
        }
      } else {
        t := t + 1;
      }
      assert str == str + "";
    }
  }

  lemma NothingPrinted(g: seq<Byte>)
    requires |g| == 16
    ensures GroupPrefix(g, 0) == ""
  {}

  method GenAddrString(g: seq<Byte>, ipv6: bool) returns (str: string)
    requires |g| == Length(ipv6)
    ensures str == Printed(g, ipv6)
  {
    if ipv6 {
      str := PrintGroups(g);
    } else {
      str := PrintQuad(g);
    }
  }

  /** Decimal numbers of at most three digits, up to 255. */
  function ParseQuadParts(parts: seq<string>): Option<seq<Byte>> {
    if parts == [] then Some([]) else
    match (ParseDecimal(parts[0]), ParseQuadParts(parts[1..]))
    case (Some(n), Some(rest)) => if n < 256 && |parts[0]| <= 3 then Some([n] + rest) else None
    case _ => None
  }

  /** Hexadecimal numbers of one to four digits, two bytes each. */
  function ParseGroupParts(parts: seq<string>): Option<seq<Byte>> {
    if parts == [] then Some([]) else
    match (ParseHex(parts[0]), ParseGroupParts(parts[1..]))
    case (Some(n), Some(rest)) => if n < 0x1_0000 && |parts[0]| <= 4 then Some([n / 256, n % 256] + rest) else None
    case _ => None
  }

  function ParseAddress(s: string, ipv6: bool): Option<seq<Byte>> {
    var parts := Split(s, if ipv6 then ':' else '.');
    if ipv6 then (if |parts| == 8 then ParseGroupParts(parts) else None)
    else if |parts| == 4 then ParseQuadParts(parts) else None
  }

  lemma DecimalShort(n: nat)
    requires n < 1000
    ensures |Decimal(n)| <= 3
  {
    if n >= 10 {
      assert Decimal(n) == Decimal(n / 10) + [Digit(n % 10)];
    }
  }

  lemma {:induction false} QuadParses(b: seq<Byte>)
    ensures ParseQuadParts(QuadParts(b)) == Some(b)
    ensures forall i :: 0 <= i < |b| ==> '.' !in QuadParts(b)[i]
  {
    if b != [] {
      QuadParses(b[1..]);
      DecimalParses(b[0]);
      DecimalShort(b[0]);
      assert QuadParts(b)[1..] == QuadParts(b[1..]);
      assert b == [b[0]] + b[1..];
      forall i | 0 <= i < |b| ensures '.' !in QuadParts(b)[i] {
        DecimalParses(b[i]);
      }
    }
  }

  lemma GroupTail(b: seq<Byte>)
    requires |b| % 2 == 0 && b != []
    ensures GroupParts(b) == [Group(b[0], b[1])] + GroupParts(b[2..])
  {
    hide Group;
    var tail := b[2..];
    assert |tail| / 2 == |b| / 2 - 1;
    forall i | 0 <= i < |tail| / 2 ensures GroupParts(b)[i + 1] == GroupParts(tail)[i] {
      assert tail[2 * i] == b[2 * (i + 1)] && tail[2 * i + 1] == b[2 * (i + 1) + 1];
    }
  }

  lemma GroupParses(b: Byte, c: Byte)
    ensures ParseHex(Group(b, c)) == Some(256 * b + c) && |Group(b, c)| == 4 && ':' !in Group(b, c)
  {
    Hex4Parses(b, c);
  }

  lemma {:induction false} GroupsParse(b: seq<Byte>)
    requires |b| % 2 == 0
    ensures ParseGroupParts(GroupParts(b)) == Some(b)
    ensures forall i :: 0 <= i < |b| / 2 ==> ':' !in GroupParts(b)[i]
  {
    hide Group, GroupParts, ParseHex;
    if b != [] {
      GroupTail(b);
      GroupParses(b[0], b[1]);
      GroupsParse(b[2..]);
      var parts := GroupParts(b);
      assert parts[1..] == GroupParts(b[2..]);
      var x: int, y: int := b[0], b[1];
      assert (256 * x + y) / 256 == x && (256 * x + y) % 256 == y;
      assert b == [b[0], b[1]] + b[2..];
    }
  }

  /** Printed addresses can be read back, so no two addresses print alike. */
  lemma PrintedParses(b: seq<Byte>, ipv6: bool)
    requires |b| == Length(ipv6)
    ensures ParseAddress(Printed(b, ipv6), ipv6) == Some(b)
  {
    if ipv6 {
      GroupsParse(b);
      SplitJoin(GroupParts(b), ':');
    } else {
      QuadParses(b);
      SplitJoin(QuadParts(b), '.');
    }
  }

  // Subsets, endpoints and services -------------------------------------------------------------

  const PORT_BASE: nat := 16384

  datatype GenAddress = GenAddress(ip: string, hostname: string)

  datatype GenPort = GenPort(name: string, port: Port, protocol: Protocol)

  datatype GenSubset = GenSubset(addresses: seq<GenAddress>, ports: seq<GenPort>)

  datatype GenEndpoints = GenEndpoints(name: string, namespace: string, subsets: seq<GenSubset>)

  datatype GenService = GenService(name: string, namespace: string, ports: seq<GenPort>)

  function Dashed(s: string, ipv6: bool): string {
    seq(|s|, i requires 0 <= i < |s| => if s[i] == (if ipv6 then ':' else '.') then '-' else s[i])
  }

  function AddressFor(s: string, ipv6: bool): GenAddress {
    GenAddress(s, "host-" + Dashed(s, ipv6))
  }

  function PortFor(s: string, ipv6: bool, port: Port): GenPort {
    GenPort(Dashed(s, ipv6), port, TCP)
  }

  /** The i-th printed address, counted from zero; the start itself is not used. */
  function IpAt(g: seq<Byte>, ipv6: bool, i: nat): string
    requires |g| == Length(ipv6)
  {
    Printed(Iterate(g, i + 1), ipv6)
  }

  function Addresses(g: seq<Byte>, ipv6: bool, n: nat): (r: seq<GenAddress>)
    requires |g| == Length(ipv6)
    ensures |r| == n
  {
    seq(n, i requires 0 <= i < n => AddressFor(IpAt(g, ipv6, i), ipv6))
  }

  /** Ports count up from the base and wrap around with the 16 bits they have. */
  function Ports(g: seq<Byte>, ipv6: bool, n: nat): (r: seq<GenPort>)
    requires |g| == Length(ipv6)
    ensures |r| == n
  {
    seq(n, i requires 0 <= i < n => PortFor(IpAt(g, ipv6, i), ipv6, (PORT_BASE + i) % 0x1_0000))
  }

  function AllAddresses(subsets: seq<GenSubset>): seq<GenAddress> {
    if subsets == [] then [] else AllAddresses(subsets[..|subsets| - 1]) + subsets[|subsets| - 1].addresses
  }

  function AllPorts(subsets: seq<GenSubset>): seq<GenPort> {
    if subsets == [] then [] else AllPorts(subsets[..|subsets| - 1]) + subsets[|subsets| - 1].ports
  }

  function AllSubsets(eps: seq<GenEndpoints>): seq<GenSubset> {
    if eps == [] then [] else AllSubsets(eps[..|eps| - 1]) + eps[|eps| - 1].subsets
  }

  function AllServicePorts(svcs: seq<GenService>): seq<GenPort> {
    if svcs == [] then [] else AllServicePorts(svcs[..|svcs| - 1]) + svcs[|svcs| - 1].ports
  }

  predicate Sized(subsets: seq<GenSubset>, k: int) {
    forall i :: 0 <= i < |subsets| ==> |subsets[i].addresses| == k && |subsets[i].ports| == k
  }

  lemma {:induction false} SizedTotal(subsets: seq<GenSubset>, k: nat)
    requires Sized(subsets, k)
    ensures |AllAddresses(subsets)| == |AllPorts(subsets)| == |subsets| * k
  {
    if subsets != [] {
      SizedTotal(subsets[..|subsets| - 1], k);
      OneMore(|subsets| - 1, k);
    }
  }

  lemma NothingGenerated(g: seq<Byte>, ipv6: bool)
    requires |g| == Length(ipv6)
    ensures AllAddresses([]) + [] == Addresses(g, ipv6, 0) && AllPorts([]) + [] == Ports(g, ipv6, 0)
  {}

  lemma AllNext(subsets: seq<GenSubset>, s: GenSubset)
    ensures AllAddresses(subsets + [s]) == AllAddresses(subsets) + s.addresses
    ensures AllAddresses(subsets + [s]) + [] == AllAddresses(subsets) + s.addresses
    ensures AllPorts(subsets + [s]) == AllPorts(subsets) + s.ports
    ensures AllPorts(subsets + [s]) + [] == AllPorts(subsets) + s.ports
  {
    assert (subsets + [s])[..|subsets|] == subsets;
  }

  /** Cuts the generated addresses and ports into subsets; nothing is lost but an incomplete last one. */
  method GenerateSubsets(addr: seq<Byte>, ipv6: bool, number: int, ipPerSubset: int) returns (subsets: seq<GenSubset>)
    requires |addr| == Length(ipv6)
    ensures ipPerSubset <= 0 || number <= 0 ==> subsets == []
    ensures ipPerSubset > 0 && number > 0 ==>
              && Sized(subsets, ipPerSubset)
              && |AllAddresses(subsets)| <= number < |AllAddresses(subsets)| + ipPerSubset
              && AllAddresses(subsets) == Addresses(addr, ipv6, number)[..|AllAddresses(subsets)|]
              && AllPorts(subsets) == Ports(addr, ipv6, number)[..|AllAddresses(subsets)|]
  {
    hide Printed, Next, Addresses, Ports, AddressFor, PortFor, AllAddresses, AllPorts;
    subsets := [];
    NothingGenerated(addr, ipv6);
    var port: Port := PORT_BASE;
    var genAddr := new Byte[|addr|](i requires 0 <= i < |addr| => addr[i]);
    var epAddr, epPort := [], [];
    var s, i := 0, 0;
    assert genAddr[..] == addr;
    while i < number
      invariant number > 0 ==> 0 <= i <= number
      invariant genAddr.Length == |addr| && i >= 0 && genAddr[..] == Iterate(addr, i)
      invariant port == (PORT_BASE + i) % 0x1_0000
      invariant AllAddresses(subsets) + epAddr == Addresses(addr, ipv6, i)
      invariant AllPorts(subsets) + epPort == Ports(addr, ipv6, i)
      invariant s == |epAddr| == |epPort| && (ipPerSubset > 0 ==> s < ipPerSubset)
      invariant Sized(subsets, ipPerSubset) && (ipPerSubset <= 0 || number <= 0 ==> subsets == [])
    {
      Advance(genAddr);
      var str := GenAddrString(genAddr[..], ipv6);
      assert str == IpAt(addr, ipv6, i);
      AddressesNext(addr, ipv6, i);
      PortsNext(addr, ipv6, i);
      epAddr := epAddr + [AddressFor(str, ipv6)];
      epPort := epPort + [PortFor(str, ipv6, port)];
      if s == ipPerSubset - 1 {
        AllNext(subsets, GenSubset(epAddr, epPort));
        subsets := subsets + [GenSubset(epAddr, epPort)];
        s := 0;
        epAddr, epPort := [], [];
      } else {
        s := s + 1;
      }
      port := (port + 1) % 0x1_0000;
      i := i + 1;
    }
    if ipPerSubset > 0 && number > 0 {
      SizedTotal(subsets, ipPerSubset);
      assert Addresses(addr, ipv6, number)[..|AllAddresses(subsets)|] == AllAddresses(subsets);
      assert Ports(addr, ipv6, number)[..|AllAddresses(subsets)|] == AllPorts(subsets);
    }
  }

  lemma AddressesNext(g: seq<Byte>, ipv6: bool, i: nat)
    requires |g| == Length(ipv6)
    ensures Addresses(g, ipv6, i + 1) == Addresses(g, ipv6, i) + [AddressFor(IpAt(g, ipv6, i), ipv6)]
  {
    hide AddressFor, IpAt;
  }

  lemma PortsNext(g: seq<Byte>, ipv6: bool, i: nat)
    requires |g| == Length(ipv6)
    ensures Ports(g, ipv6, i + 1) == Ports(g, ipv6, i) + [PortFor(IpAt(g, ipv6, i), ipv6, (PORT_BASE + i) % 0x1_0000)]
  {
    hide PortFor, IpAt;
  }

  predicate Filled(eps: seq<GenEndpoints>, namespace: string, k: int, names: nat -> string) {
    forall i :: 0 <= i < |eps| ==> eps[i].name == names(i) && eps[i].namespace == namespace && |eps[i].subsets| == k
  }

  lemma {:induction false} FilledTotal(eps: seq<GenEndpoints>, namespace: string, k: nat, names: nat -> string)
    requires Filled(eps, namespace, k, names)
    ensures |AllSubsets(eps)| == |eps| * k
  {
    if eps != [] {
      FilledTotal(eps[..|eps| - 1], namespace, k, names);
      OneMore(|eps| - 1, k);
    }
  }

  lemma AllSubsetsNext(eps: seq<GenEndpoints>, e: GenEndpoints)
    ensures AllSubsets(eps + [e]) == AllSubsets(eps + [e]) + [] == AllSubsets(eps) + e.subsets
  {
    assert (eps + [e])[..|eps|] == eps;
  }

  /** Cuts the subsets into endpoints objects; the names are random. */
  method GenerateEndpoints(subsets: seq<GenSubset>, namespace: string, subsetNumber: int, names: nat -> string)
    returns (eps: seq<GenEndpoints>)
    ensures subsetNumber <= 0 ==> eps == []
    ensures subsetNumber > 0 ==>
              && Filled(eps, namespace, subsetNumber, names)
              && |AllSubsets(eps)| <= |subsets| < |AllSubsets(eps)| + subsetNumber
              && AllSubsets(eps) == subsets[..|AllSubsets(eps)|]
  {
    hide AllSubsets;
    eps := [];
    var sbs := [];
    var e := 0;
    AllSubsetsNone();
    for i := 0 to |subsets|
      invariant AllSubsets(eps) + sbs == subsets[..i]
      invariant e == |sbs| && (subsetNumber > 0 ==> e < subsetNumber)
      invariant Filled(eps, namespace, subsetNumber, names) && (subsetNumber <= 0 ==> eps == [])
    {
      sbs := sbs + [subsets[i]];
      assert subsets[..i + 1] == subsets[..i] + [subsets[i]];
      assert AllSubsets(eps) + sbs == subsets[..i + 1];
      if e == subsetNumber - 1 {
        AllSubsetsNext(eps, GenEndpoints(names(|eps|), namespace, sbs));
        eps := eps + [GenEndpoints(names(|eps|), namespace, sbs)];
        sbs := [];
        e := 0;
      } else {
        e := e + 1;
      }
    }
    assert subsets[..|subsets|] == subsets;
    assert AllSubsets(eps) == subsets[..|AllSubsets(eps)|];
  }

  lemma AllSubsetsNone()
    ensures AllSubsets([]) == []
  {}

  /** A service for each endpoints object: its name, and the ports of all its subsets in order. */
  method GenerateServices(eps: seq<GenEndpoints>) returns (svcs: seq<GenService>)
    ensures |svcs| == |eps|
    ensures forall i :: 0 <= i < |eps| ==>
              svcs[i] == GenService(eps[i].name, eps[i].namespace, AllPorts(eps[i].subsets))
    ensures AllServicePorts(svcs) == AllPorts(AllSubsets(eps))
  {
    hide AllPorts, AllServicePorts, AllSubsets;
    svcs := [];
    NoServicePorts();
    for i := 0 to |eps|
      invariant |svcs| == i
      invariant forall j :: 0 <= j < i ==> svcs[j] == GenService(eps[j].name, eps[j].namespace, AllPorts(eps[j].subsets))
      invariant AllServicePorts(svcs) == AllPorts(AllSubsets(eps[..i]))
    {
      var ports := CollectPorts(eps[i].subsets);
      ServicePortsNext(svcs, GenService(eps[i].name, eps[i].namespace, ports), eps, i);
      svcs := svcs + [GenService(eps[i].name, eps[i].namespace, ports)];
    }
    assert eps[..|eps|] == eps;
  }

  lemma NoServicePorts()
    ensures AllServicePorts([]) == [] == AllPorts(AllSubsets([]))
  {}

  lemma ServicePortsNext(svcs: seq<GenService>, svc: GenService, eps: seq<GenEndpoints>, i: nat)
    requires i < |eps| && AllServicePorts(svcs) == AllPorts(AllSubsets(eps[..i])) && svc.ports == AllPorts(eps[i].subsets)
    ensures AllServicePorts(svcs + [svc]) == AllPorts(AllSubsets(eps[..i + 1]))
  {
    assert (svcs + [svc])[..|svcs|] == svcs;
    assert eps[..i + 1] == eps[..i] + [eps[i]];
    AllSubsetsNext(eps[..i], eps[i]);
    AllPortsConcat(AllSubsets(eps[..i]), eps[i].subsets);
  }

  lemma {:induction false} AllPortsConcat(xs: seq<GenSubset>, ys: seq<GenSubset>)
    ensures AllPorts(xs + ys) == AllPorts(xs) + AllPorts(ys)
  {
    if ys == [] {
      assert xs + ys == xs && AllPorts(xs) + [] == AllPorts(xs);
    } else {
      hide AllPorts;
      var init, last := ys[..|ys| - 1], ys[|ys| - 1];
      AllPortsConcat(xs, init);
      assert ys == init + [last] && xs + ys == (xs + init) + [last];
      AllNext(xs + init, last);
      AllNext(init, last);
      assert AllPorts(xs) + AllPorts(init) + last.ports == AllPorts(xs) + (AllPorts(init) + last.ports);
    }
  }

  method CollectPorts(subsets: seq<GenSubset>) returns (ports: seq<GenPort>)
    ensures ports == AllPorts(subsets)
  {
    ports := [];
    for i := 0 to |subsets|
      invariant ports == AllPorts(subsets[..i])
    {
      for j := 0 to |subsets[i].ports|
        invariant ports == AllPorts(subsets[..i]) + subsets[i].ports[..j]
      {
        ports := ports + [GenPort(subsets[i].ports[j].name, subsets[i].ports[j].port, subsets[i].ports[j].protocol)];
      }
      assert subsets[..i + 1] == subsets[..i] + [subsets[i]];
      AllNext(subsets[..i], subsets[i]);
    }
    assert subsets[..|subsets|] == subsets;
  }

  lemma QuotientUnique(q: int, m: int, k: int)
    requires k > 0 && q * k <= m * k < q * k + k
    ensures q == m
  {
    TurnsApart(m * k - q * k, q, m, k);
    Away(m - q, k);
    assert m * k - q * k == (m - q) * k;
  }

  /** Generates all objects: `svcs` services and endpoints of `sub` subsets of `ip` addresses each, which
      together hold the generated sequence, nothing lost, repeated or reordered. */
  method GenerateObjects(addr: seq<Byte>, ipv6: bool, namespace: string, svcNumber: nat, subsetNumber: nat, ipInSubset: nat,
                         names: nat -> string)
    returns (eps: seq<GenEndpoints>, svcs: seq<GenService>)
    requires |addr| == Length(ipv6) && svcNumber > 0 && subsetNumber > 0 && ipInSubset > 0
    ensures |eps| == |svcs| == svcNumber && Filled(eps, namespace, subsetNumber, names) && Sized(AllSubsets(eps), ipInSubset)
    ensures var total := svcNumber * subsetNumber * ipInSubset;
            && AllAddresses(AllSubsets(eps)) == Addresses(addr, ipv6, total)
            && AllPorts(AllSubsets(eps)) == Ports(addr, ipv6, total) == AllServicePorts(svcs)
    ensures forall i :: 0 <= i < |eps| ==> svcs[i] == GenService(eps[i].name, eps[i].namespace, AllPorts(eps[i].subsets))
  {
    hide AllAddresses, AllPorts, AllSubsets, AllServicePorts, Addresses, Ports;
    var total := svcNumber * subsetNumber * ipInSubset;
    TotalPositive(svcNumber, subsetNumber, ipInSubset);
    var subsets := GenerateSubsets(addr, ipv6, total, ipInSubset);
    SizedTotal(subsets, ipInSubset);
    QuotientUnique(|subsets|, svcNumber * subsetNumber, ipInSubset);
    eps := GenerateEndpoints(subsets, namespace, subsetNumber, names);
    FilledTotal(eps, namespace, subsetNumber, names);
    QuotientUnique(|eps|, svcNumber, subsetNumber);
    assert subsets[..|subsets|] == subsets;
    assert Addresses(addr, ipv6, total)[..total] == Addresses(addr, ipv6, total);
    assert Ports(addr, ipv6, total)[..total] == Ports(addr, ipv6, total);
    svcs := GenerateServices(eps);
  }

  lemma TotalPositive(x: nat, y: nat, z: nat)
    requires x > 0 && y > 0 && z > 0
    ensures x * y > 0 && x * y * z > 0
  {}

  lemma IpsDistinct(g: seq<Byte>, ipv6: bool, i: nat, j: nat)
    requires |g| == Length(ipv6) && Iterate(g, i + 1) != Iterate(g, j + 1)
    ensures IpAt(g, ipv6, i) != IpAt(g, ipv6, j)
  {
    hide Printed, ParseAddress, Iterate;
    PrintedParses(Iterate(g, i + 1), ipv6);
    PrintedParses(Iterate(g, j + 1), ipv6);
  }

  /** The generated addresses are pairwise distinct, up to 254^(n-1) of them, from any start. */
  lemma GeneratedDistinct(g: seq<Byte>, ipv6: bool, n: nat, i: nat, j: nat)
    requires |g| == Length(ipv6) && i < j < n <= Pow254(|g| - 1)
    ensures Addresses(g, ipv6, n)[i].ip != Addresses(g, ipv6, n)[j].ip
  {
    hide Pow254, IpAt, Iterate, Dashed;
    Distinct(g, i + 1, j + 1);
    IpsDistinct(g, ipv6, i, j);
  }

  /** From a start without zeros or 255s, that bound is exact. */
  lemma DistinctExactly(g: seq<Byte>, ipv6: bool, n: nat)
    requires |g| == Length(ipv6) && Turning(g[1..])
    ensures (forall i, j :: 0 <= i < j < n ==> Addresses(g, ipv6, n)[i].ip != Addresses(g, ipv6, n)[j].ip)
            <==> n <= Pow254(|g| - 1)
  {
    hide Pow254, Printed, Iterate, Turning;
    var m := Pow254(|g| - 1);
    if n <= m {
      forall i, j | 0 <= i < j < n ensures Addresses(g, ipv6, n)[i].ip != Addresses(g, ipv6, n)[j].ip {
        GeneratedDistinct(g, ipv6, n, i, j);
      }
    } else {
      CoincideExactly(g, 1, m + 1);
      assert (m + 1 - 1) % m == 0;
      assert Addresses(g, ipv6, n)[0].ip == Addresses(g, ipv6, n)[m].ip;
    }
  }

  /** The fields of what is generated: the address reads back as the i-th position of the odometer, names
      are the address with dashes, and ports count up from 16384 in 16 bits. */
  lemma GeneratedFields(g: seq<Byte>, ipv6: bool, n: nat, i: nat)
    requires |g| == (if ipv6 then 16 else 4) && i < n
    ensures var a, q := Addresses(g, ipv6, n)[i], Ports(g, ipv6, n)[i];
            && ParseAddress(a.ip, ipv6) == Some(Iterate(g, i + 1))
            && a.hostname == "host-" + q.name && |q.name| == |a.ip|
            && (forall k :: 0 <= k < |a.ip| ==> q.name[k] == if a.ip[k] == (if ipv6 then ':' else '.') then '-' else a.ip[k])
            && q.port == (16384 + i) % 65536 && q.protocol == TCP
  {
    hide Iterate, Printed, ParseAddress;
    PrintedParses(Iterate(g, i + 1), ipv6);
  }
}
