/** The strings that are hashed into chain names and service IDs tell apart everything that the
    tuples of module Names tell apart. */
module Identity {
  import opened Names
  import opened Text
  import opened Ruleset
  import opened Api

  function ProtocolText(p: Protocol): string {
    match p
    case TCP => "TCP"
    case UDP => "UDP"
    case SCTP => "SCTP"
  }

  function FamilyText(f: Family): string {
    match f
    case IPv4 => "IPv4"
    case IPv6 => "IPv6"
  }

  function PortNameText(n: PortName): string {
    n.service.namespace + "/" + n.service.name + ":" + n.port + ":" + ProtocolText(n.protocol)
  }

  /** How an address prints is up to the caller, as long as it can be undone. */
  type Show = Address -> string

  /** Distinct addresses print differently, without slashes or brackets. */
  ghost predicate Faithful(show: Show) {
    && (forall a, b :: show(a) == show(b) ==> a == b)
    && (forall a :: '/' !in show(a) && '[' !in show(a))
  }

  function ServiceText(show: Show, id: ServiceId): string {
    FamilyText(id.family) + ":" + show(id.clusterIP) + ":" + Decimal(id.port) + "/" + ProtocolText(id.protocol)
  }

  function JoinHostPort(host: string, port: string): string {
    if ':' in host then "[" + host + "]:" + port else host + ":" + port
  }

  function EndpointText(show: Show, id: EndpointId): string {
    FamilyText(FamilyOf(id.ip)) + ":" + JoinHostPort(show(id.ip), Decimal(id.port)) + "/" + ProtocolText(id.protocol)
  }

  /** What is hashed into a service ID. */
  function HashedService(show: Show, id: ServiceId): string {
    PortNameText(id.name) + ProtocolText(id.protocol) + ServiceText(show, id)
  }

  /** What is hashed into the name of an endpoint chain. */
  function HashedEndpoint(show: Show, n: PortName, id: EndpointId): string {
    PortNameText(n) + ProtocolText(id.protocol) + EndpointText(show, id)
  }

  predicate PlainText(s: string) {
    '/' !in s && ':' !in s
  }

  predicate Plain(n: PortName) {
    PlainText(n.service.namespace) && PlainText(n.service.name) && PlainText(n.port)
  }

  lemma CutSame(a: string, x: string, b: string, y: string, c: char)
    requires c !in a && c !in b && a + [c] + x == b + [c] + y
    ensures a == b && x == y
  {
    CutAt(a, x, c);
    CutAt(b, y, c);
  }

  lemma CutLastSame(a: string, x: string, b: string, y: string, c: char)
    requires c !in x && c !in y && a + [c] + x == b + [c] + y
    ensures a == b && x == y
  {
    CutLastAt(a, x, c);
    CutLastAt(b, y, c);
  }

  lemma PrefixSame(a: string, x: string, b: string, y: string)
    requires a == b && a + x == b + y
    ensures x == y
  {
    assert (a + x)[|a|..] == x && (b + y)[|b|..] == y;
  }

  lemma ProtocolSame(p: Protocol, x: string, q: Protocol, y: string)
    requires ProtocolText(p) + x == ProtocolText(q) + y
    ensures p == q && x == y
  {
    assert (ProtocolText(p) + x)[0] == ProtocolText(p)[0] && (ProtocolText(q) + y)[0] == ProtocolText(q)[0];
    PrefixSame(ProtocolText(p), x, ProtocolText(q), y);
  }

  lemma FamilySame(f: Family, x: string, g: Family, y: string)
    requires FamilyText(f) + x == FamilyText(g) + y
    ensures f == g && x == y
  {
    assert (FamilyText(f) + x)[3] == FamilyText(f)[3] && (FamilyText(g) + y)[3] == FamilyText(g)[3];
    PrefixSame(FamilyText(f), x, FamilyText(g), y);
  }

  lemma PortNameSame(n: PortName, x: string, m: PortName, y: string)
    requires Plain(n) && Plain(m) && PortNameText(n) + x == PortNameText(m) + y
    ensures n == m && x == y
  {
    hide ProtocolText;
    var x1, y1 := ProtocolText(n.protocol) + x, ProtocolText(m.protocol) + y;
    var x2, y2 := n.port + ":" + x1, m.port + ":" + y1;
    var x3, y3 := n.service.name + ":" + x2, m.service.name + ":" + y2;
    assert PortNameText(n) + x == n.service.namespace + "/" + x3;
    assert PortNameText(m) + y == m.service.namespace + "/" + y3;
    hide PortNameText;
    CutSame(n.service.namespace, x3, m.service.namespace, y3, '/');
    CutSame(n.service.name, x2, m.service.name, y2, ':');
    CutSame(n.port, x1, m.port, y1, ':');
    ProtocolSame(n.protocol, x, m.protocol, y);
  }

  lemma DecimalSame(m: nat, n: nat)
    requires Decimal(m) == Decimal(n)
    ensures m == n
  {
    DecimalParses(m);
    DecimalParses(n);
  }

  lemma DecimalPlain(n: nat, c: char)
    requires !('0' <= c <= '9')
    ensures c !in Decimal(n)
  {
    DecimalParses(n);
  }

  lemma ProtocolPlain(p: Protocol)
    ensures '/' !in ProtocolText(p)
  {}

  function Bracketed(host: string): string {
    if ':' in host then ['['] + (host + [']']) else host
  }

  lemma BracketedSame(h: string, k: string)
    requires '[' !in h && '[' !in k && Bracketed(h) == Bracketed(k)
    ensures h == k
  {
    var h', k' := Bracketed(h), Bracketed(k);
    assert ':' in h ==> h'[0] == '[' && h'[1..|h'| - 1] == h;
    assert ':' in k ==> k'[0] == '[' && k'[1..|k'| - 1] == k;
  }

  lemma JoinedHost(host: string, port: string)
    ensures JoinHostPort(host, port) == Bracketed(host) + [':'] + port
  {}

  /** Host and port can be told apart again, with or without brackets. */
  lemma HostPortSame(h: string, m: nat, k: string, n: nat)
    requires '[' !in h && '[' !in k && JoinHostPort(h, Decimal(m)) == JoinHostPort(k, Decimal(n))
    ensures h == k && m == n
  {
    hide Decimal, JoinHostPort, Bracketed;
    DecimalPlain(m, ':');
    DecimalPlain(n, ':');
    JoinedHost(h, Decimal(m));
    JoinedHost(k, Decimal(n));
    CutLastSame(Bracketed(h), Decimal(m), Bracketed(k), Decimal(n), ':');
    DecimalSame(m, n);
    BracketedSame(h, k);
  }

  /** Service IDs differ exactly when what they stand for differs. */
  lemma ServiceIdsTell(show: Show, a: ServiceId, b: ServiceId)
    requires Faithful(show) && Plain(a.name) && Plain(b.name)
    ensures HashedService(show, a) == HashedService(show, b) <==> a == b
  {
    hide PortNameText, ProtocolText, ServiceText, Plain, Faithful;
    if HashedService(show, a) == HashedService(show, b) {
      var x, y := ProtocolText(a.protocol) + ServiceText(show, a), ProtocolText(b.protocol) + ServiceText(show, b);
      assert HashedService(show, a) == PortNameText(a.name) + x && HashedService(show, b) == PortNameText(b.name) + y;
      PortNameSame(a.name, x, b.name, y);
      ProtocolSame(a.protocol, ServiceText(show, a), b.protocol, ServiceText(show, b));
      ServiceTextSame(show, a, b);
    }
  }

  lemma ServiceTextSame(show: Show, a: ServiceId, b: ServiceId)
    requires Faithful(show) && ServiceText(show, a) == ServiceText(show, b)
    ensures a.family == b.family && a.clusterIP == b.clusterIP && a.port == b.port && a.protocol == b.protocol
  {
    hide Decimal, ProtocolText, FamilyText;
    var hx, hy := show(a.clusterIP) + [':'] + Decimal(a.port), show(b.clusterIP) + [':'] + Decimal(b.port);
    assert ServiceText(show, a) == FamilyText(a.family) + ":" + hx + "/" + ProtocolText(a.protocol);
    assert ServiceText(show, b) == FamilyText(b.family) + ":" + hy + "/" + ProtocolText(b.protocol);
    hide ServiceText;
    TextSame(a.family, hx, a.protocol, b.family, hy, b.protocol);
    DecimalPlain(a.port, ':');
    DecimalPlain(b.port, ':');
    CutLastSame(show(a.clusterIP), Decimal(a.port), show(b.clusterIP), Decimal(b.port), ':');
    DecimalSame(a.port, b.port);
  }

  /** Endpoint chain names differ exactly when the service port or the endpoint differs. */
  lemma EndpointChainsTell(show: Show, n: PortName, a: EndpointId, m: PortName, b: EndpointId)
    requires Faithful(show) && Plain(n) && Plain(m)
    ensures HashedEndpoint(show, n, a) == HashedEndpoint(show, m, b) <==> n == m && a == b
  {
    hide PortNameText, ProtocolText, EndpointText, Plain, Faithful;
    if HashedEndpoint(show, n, a) == HashedEndpoint(show, m, b) {
      var x, y := ProtocolText(a.protocol) + EndpointText(show, a), ProtocolText(b.protocol) + EndpointText(show, b);
      assert HashedEndpoint(show, n, a) == PortNameText(n) + x && HashedEndpoint(show, m, b) == PortNameText(m) + y;
      PortNameSame(n, x, m, y);
      ProtocolSame(a.protocol, EndpointText(show, a), b.protocol, EndpointText(show, b));
      EndpointTextSame(show, a, b);
    }
  }

  /** The comparison of endpoints by their printed form is a comparison of what they are. */
  lemma EndpointTextSame(show: Show, a: EndpointId, b: EndpointId)
    requires Faithful(show)
    ensures EndpointText(show, a) == EndpointText(show, b) <==> a == b
  {
    hide Decimal, ProtocolText, FamilyText, JoinHostPort;
    if EndpointText(show, a) == EndpointText(show, b) {
      var hx, hy := JoinHostPort(show(a.ip), Decimal(a.port)), JoinHostPort(show(b.ip), Decimal(b.port));
      TextSame(FamilyOf(a.ip), hx, a.protocol, FamilyOf(b.ip), hy, b.protocol);
      HostPortSame(show(a.ip), a.port, show(b.ip), b.port);
    }
  }

  /** What services and endpoints print have the same frame around the address and the port. */
  lemma TextSame(f: Family, x: string, p: Protocol, g: Family, y: string, q: Protocol)
    requires FamilyText(f) + ":" + x + "/" + ProtocolText(p) == FamilyText(g) + ":" + y + "/" + ProtocolText(q)
    ensures f == g && x == y && p == q
  {
    hide ProtocolText, FamilyText;
    var px, py := ProtocolText(p), ProtocolText(q);
    ProtocolPlain(p);
    ProtocolPlain(q);
    CutLastSame(FamilyText(f) + ":" + x, px, FamilyText(g) + ":" + y, py, '/');
    assert px + "" == px && py + "" == py;
    ProtocolSame(p, "", q, "");
    assert FamilyText(f) + ":" + x == FamilyText(f) + (":" + x) && FamilyText(g) + ":" + y == FamilyText(g) + (":" + y);
    FamilySame(f, ":" + x, g, ":" + y);
    PrefixSame(":", x, ":", y);
  }

  /** What is hashed for the port of a service object, spelled out. */
  lemma ServiceIdSpelled(show: Show, svc: ServiceObject, q: ServicePort)
    ensures var p := if q.protocol == TCP then "TCP" else if q.protocol == UDP then "UDP" else "SCTP";
            var f := if svc.ipFamily == Some(IPv6) then "IPv6" else "IPv4";
            HashedService(show, IdOf(PortNameOf(svc.name, q), NewBaseInfo(q, svc)))
            == svc.name.namespace + "/" + svc.name.name + ":" + q.name + ":" + p + p
               + (f + ":" + show(svc.clusterIP) + ":" + Decimal(q.port) + "/" + p)
  {
    hide Decimal;
    assert svc.ipFamily.Some? ==> svc.ipFamily.value == IPv4 || svc.ipFamily.value == IPv6;
  }

  /** What is hashed for an endpoint of a port, spelled out. */
  lemma EndpointChainSpelled(show: Show, n: PortName, a: Address, port: Port, protocol: Protocol)
    ensures var p := if protocol == TCP then "TCP" else if protocol == UDP then "UDP" else "SCTP";
            var f := if a.Ip6? then "IPv6" else "IPv4";
            var host := if ':' in show(a) then "[" + show(a) + "]:" + Decimal(port) else show(a) + ":" + Decimal(port);
            HashedEndpoint(show, n, EndpointId(a, port, protocol)) == PortNameText(n) + p + (f + ":" + host + "/" + p)
  {
    hide Decimal, PortNameText;
  }

  /** Names with colons in them would collide. */
  lemma ColonsCollide()
    ensures var n := PortName(NamespacedName("default", "web:a"), "b", TCP);
            var m := PortName(NamespacedName("default", "web"), "a:b", TCP);
            n != m && PortNameText(n) == PortNameText(m)
  {
    assert "default" + "/" + "web:a" + ":" + "b" + ":" + "TCP" == "default" + "/" + "web" + ":" + "a:b" + ":" + "TCP";
  }
}
