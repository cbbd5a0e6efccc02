/** The kernel side: chains of rules with handles, verdict maps and affinity maps.
    The netlink library is not part of this model; class Kernel states what is relied on. */
module Netfilter {
  import opened Names

  type Handle = nat

  datatype StaticChain =
    | FilterInput | FilterOutput | FilterForward
    | K8sFilterFirewall | K8sFilterServices | K8sFilterForward | K8sFilterDoReject
    | NatPrerouting | NatOutput | NatPostrouting
    | K8sNatMarkDrop | K8sNatDoMarkMasq | K8sNatMarkMasq | K8sNatDoMasquerade
    | K8sNatServices | K8sNatNodeports | K8sNatPostrouting

  /** Chains live in the table of their family. */
  datatype Chain =
    | Static(family: Family, base: StaticChain)
    | ServiceChain(family: Family, id: ServiceId)
    | EndpointChain(family: Family, port: PortName, endpoint: EndpointId)

  datatype AffinityMap = AffinityMap(family: Family, id: ServiceId)

  datatype SetName = NoEndpoints | MarkMasq | ClusterIP | ExternalIP | LoadbalancerIP | Nodeports

  /** A key of a verdict map; nodeport keys carry no address. */
  datatype Elem = Elem(family: Family, set_: SetName, protocol: Protocol, addr: Address, port: Port)

  datatype Cidr = Cidr(family: Family, first: nat, size: nat)

  datatype CtState = New | Established | Related | Invalid

  datatype Guard =
    | SrcIs(addr: Address)
    | SrcIn(cidr: Cidr)
    | SrcNotIn(cidr: Cidr)
    | DstIn(cidr: Cidr)
    | DstLocal
    | MarkIs(mark: nat)
    | CtIn(states: set<CtState>)

  datatype Action =
    | Count
    | SetMark(value: nat)
    | SetMarkAndReturn(value: nat)
    | Jump(target: Chain)
    | Lookup(vmap: SetName)
    | Return
    | Dnat(addr: Address, port: Port)
    | Masquerade
    | Drop
    | Accept
    | Reject
    | Touch(map_: AffinityMap, index: nat)
    | Sticky(map_: AffinityMap, act: map<nat, Chain>)
    | Balance(targets: seq<Chain>)

  datatype Rule = Rule(guards: seq<Guard>, action: Action)

  datatype Entry = Entry(handle: Handle, rule: Rule)

  datatype Tables = Tables(
    chains: map<Chain, seq<Entry>>,
    elems: map<Elem, Chain>,
    maps: set<AffinityMap>,
    next: Handle)

  function Rules(es: seq<Entry>): (rs: seq<Rule>)
    ensures |rs| == |es|
  {
    seq(|es|, i requires 0 <= i < |es| => es[i].rule)
  }

  function Handles(es: seq<Entry>): (hs: seq<Handle>)
    ensures |hs| == |es|
  {
    seq(|es|, i requires 0 <= i < |es| => es[i].handle)
  }

  /** The chains a rule can transfer to by itself (lookups go through the elements). */
  function Targets(r: Rule): set<Chain> {
    match r.action
    case Jump(c) => {c}
    case Sticky(_, act) => act.Values
    case Balance(cs) => set c | c in cs
    case _ => {}
  }

  function MapRefs(r: Rule): set<AffinityMap> {
    match r.action
    case Touch(m, _) => {m}
    case Sticky(m, _) => {m}
    case _ => {}
  }

  ghost predicate Resolves(t: Tables, r: Rule) {
    Targets(r) <= t.chains.Keys && MapRefs(r) <= t.maps
  }

  ghost predicate DistinctHandles(es: seq<Entry>) {
    forall i, j :: 0 <= i < j < |es| ==> es[i].handle != es[j].handle
  }

  /** Referential integrity: no rule and no element names something that does not exist. */
  ghost predicate Closed(t: Tables) {
    && 1 <= t.next
    && (forall c, i :: c in t.chains && 0 <= i < |t.chains[c]| ==>
          Resolves(t, t.chains[c][i].rule) && 1 <= t.chains[c][i].handle < t.next)
    && (forall c :: c in t.chains ==> DistinctHandles(t.chains[c]))
    && (forall k :: k in t.elems ==> t.elems[k] in t.chains)
  }

  ghost predicate ChainUnreferenced(t: Tables, c: Chain) {
    && (forall d, i :: d in t.chains && 0 <= i < |t.chains[d]| ==> c !in Targets(t.chains[d][i].rule))
    && (forall k :: k in t.elems ==> t.elems[k] != c)
  }

  ghost predicate MapUnreferenced(t: Tables, m: AffinityMap) {
    forall d, i :: d in t.chains && 0 <= i < |t.chains[d]| ==> m !in MapRefs(t.chains[d][i].rule)
  }

  /** Index of the entry with a given handle. */
  function PositionOf(es: seq<Entry>, h: Handle): (i: nat)
    requires h in Handles(es)
    ensures i < |es| && es[i].handle == h
    decreases |es|
  {
    if es[0].handle == h then 0 else
      assert h in Handles(es[1..]) by {
        var j :| 0 <= j < |es| && Handles(es)[j] == h;
        assert Handles(es[1..])[j - 1] == h;
      }
      1 + PositionOf(es[1..], h)
  }

  function InsertedAt(es: seq<Entry>, i: nat, e: Entry): seq<Entry>
    requires i <= |es|
  {
    es[..i] + [e] + es[i..]
  }

  function RemovedAt(es: seq<Entry>, i: nat): seq<Entry>
    requires i < |es|
  {
    es[..i] + es[i + 1..]
  }

  function Put(t: Tables, c: Chain, es: seq<Entry>): Tables {
    t.(chains := t.chains[c := es])
  }

  /** Adding a rule with a fresh handle, all of whose references resolve, keeps the tables closed. */
  lemma InsertedClosed(t: Tables, c: Chain, i: nat, r: Rule)
    requires Closed(t) && c in t.chains && i <= |t.chains[c]| && Resolves(t, r)
    ensures Closed(Put(t, c, InsertedAt(t.chains[c], i, Entry(t.next, r))).(next := t.next + 1))
  {
    var was := t.chains[c];
    var now := InsertedAt(was, i, Entry(t.next, r));
    var t1 := Put(t, c, now).(next := t.next + 1);
    assert t1.chains.Keys == t.chains.Keys;
    forall j | 0 <= j < |now|
      ensures Resolves(t1, now[j].rule) && 1 <= now[j].handle < t1.next
    {
      assert now[j] == if j < i then was[j] else if j == i then Entry(t.next, r) else was[j - 1];
    }
    forall d, j | d in t1.chains && 0 <= j < |t1.chains[d]|
      ensures Resolves(t1, t1.chains[d][j].rule) && 1 <= t1.chains[d][j].handle < t1.next
    {
      if d != c {
        assert Resolves(t, t.chains[d][j].rule);
      }
    }
    assert DistinctHandles(now);
  }

  lemma RemovedClosed(t: Tables, c: Chain, i: nat)
    requires Closed(t) && c in t.chains && i < |t.chains[c]|
    ensures Closed(Put(t, c, RemovedAt(t.chains[c], i)))
  {
    var was := t.chains[c];
    var now := RemovedAt(was, i);
    var t1 := Put(t, c, now);
    assert t1.chains.Keys == t.chains.Keys;
    forall d, j | d in t1.chains && 0 <= j < |t1.chains[d]|
      ensures Resolves(t1, t1.chains[d][j].rule) && 1 <= t1.chains[d][j].handle < t1.next
    {
      if d == c {
        assert now[j] == if j < i then was[j] else was[j + 1];
        assert Resolves(t, now[j].rule);
      } else {
        assert Resolves(t, t.chains[d][j].rule);
      }
    }
    assert DistinctHandles(now);
  }

  class Kernel {
    var tables: Tables
    /** Every state the tables went through, one per operation. */
    ghost var history: seq<Tables>

    /** A pair of tables that were just created. */
    constructor ()
      ensures Valid() && tables == Tables(map[], map[], {}, 1) && history == []
    {
      tables := Tables(map[], map[], {}, 1);
      history := [];
    }

    ghost predicate Valid()
      reads this
    {
      && Closed(tables)
      && forall i :: 0 <= i < |history| ==> Closed(history[i])
    }

    method CreateChain(c: Chain)
      requires Valid()
      modifies this
      ensures Valid() && history == old(history) + [tables]
      ensures tables == if c in old(tables).chains then old(tables) else Put(old(tables), c, [])
    {
      if c !in tables.chains {
        tables := Put(tables, c, []);
      }
      history := history + [tables];
    }

    /** The kernel refuses to delete a chain that has rules or is still referenced. */
    method DeleteChain(c: Chain)
      requires Valid()
      requires c in tables.chains && tables.chains[c] == [] && ChainUnreferenced(tables, c)
      modifies this
      ensures Valid() && history == old(history) + [tables]
      ensures tables == old(tables).(chains := old(tables).chains - {c})
    {
      tables := tables.(chains := tables.chains - {c});
      history := history + [tables];
    }

    /** Adds a rule after the one at `position`, or at the end when that is 0. */
    method CreateRule(c: Chain, r: Rule, position: Handle) returns (h: Handle)
      requires Valid()
      requires c in tables.chains && Resolves(tables, r)
      requires position == 0 || position in Handles(tables.chains[c])
      modifies this
      ensures Valid() && history == old(history) + [tables]
      ensures h == old(tables).next
      ensures var es := old(tables).chains[c];
              tables == Put(old(tables), c,
                            InsertedAt(es, if position == 0 then |es| else PositionOf(es, position) + 1, Entry(h, r)))
                        .(next := h + 1)
    {
      h := tables.next;
      var es := tables.chains[c];
      var i := if position == 0 then |es| else PositionOf(es, position) + 1;
      InsertedClosed(tables, c, i, r);
      tables := Put(tables, c, InsertedAt(es, i, Entry(h, r))).(next := h + 1);
      history := history + [tables];
    }

    /** Adds a rule before the one at `position`, or at the front when that is 0. */
    method InsertRule(c: Chain, r: Rule, position: Handle) returns (h: Handle)
      requires Valid()
      requires c in tables.chains && Resolves(tables, r)
      requires position == 0 || position in Handles(tables.chains[c])
      modifies this
      ensures Valid() && history == old(history) + [tables]
      ensures h == old(tables).next
      ensures var es := old(tables).chains[c];
              tables == Put(old(tables), c,
                            InsertedAt(es, if position == 0 then 0 else PositionOf(es, position), Entry(h, r)))
                        .(next := h + 1)
    {
      h := tables.next;
      var es := tables.chains[c];
      var i := if position == 0 then 0 else PositionOf(es, position);
      InsertedClosed(tables, c, i, r);
      tables := Put(tables, c, InsertedAt(es, i, Entry(h, r))).(next := h + 1);
      history := history + [tables];
    }

    method DeleteRule(c: Chain, h: Handle)
      requires Valid()
      requires c in tables.chains && h in Handles(tables.chains[c])
      modifies this
      ensures Valid() && history == old(history) + [tables]
      ensures var es := old(tables).chains[c];
              tables == Put(old(tables), c, RemovedAt(es, PositionOf(es, h)))
    {
      var es := tables.chains[c];
      RemovedClosed(tables, c, PositionOf(es, h));
      tables := Put(tables, c, RemovedAt(es, PositionOf(es, h)));
      history := history + [tables];
    }

    /** An element that is already present stays as it is. */
    method AddElem(k: Elem, target: Chain)
      requires Valid() && target in tables.chains
      modifies this
      ensures Valid() && history == old(history) + [tables]
      ensures tables == if k in old(tables).elems then old(tables)
                        else old(tables).(elems := old(tables).elems[k := target])
    {
      if k !in tables.elems {
        tables := tables.(elems := tables.elems[k := target]);
      }
      history := history + [tables];
    }

    /** Removing an absent element changes nothing. */
    method RemoveElem(k: Elem)
      requires Valid()
      modifies this
      ensures Valid() && history == old(history) + [tables]
      ensures tables == old(tables).(elems := old(tables).elems - {k})
    {
      tables := tables.(elems := tables.elems - {k});
      history := history + [tables];
    }

    method CreateMap(m: AffinityMap)
      requires Valid() && m !in tables.maps
      modifies this
      ensures Valid() && history == old(history) + [tables]
      ensures tables == old(tables).(maps := old(tables).maps + {m})
    {
      tables := tables.(maps := tables.maps + {m});
      history := history + [tables];
    }

    /** The kernel refuses to delete a map that a rule still uses. */
    method DeleteMap(m: AffinityMap)
      requires Valid() && m in tables.maps && MapUnreferenced(tables, m)
      modifies this
      ensures Valid() && history == old(history) + [tables]
      ensures tables == old(tables).(maps := old(tables).maps - {m})
    {
      tables := tables.(maps := tables.maps - {m});
      history := history + [tables];
    }
  }
}
