/** Rule programming: the functions that edit chains and keep track of rule handles. */
module Programming {
  import opened Names
  import opened Netfilter
  import opened Ruleset

  function Zip(hs: seq<Handle>, rs: seq<Rule>): (es: seq<Entry>)
    requires |hs| == |rs|
    ensures |es| == |rs|
  {
    seq(|rs|, i requires 0 <= i < |rs| => Entry(hs[i], rs[i]))
  }

  /** Nothing but one chain changed. */
  ghost predicate ChainEdited(t0: Tables, t1: Tables, c: Chain) {
    && c in t1.chains
    && t0.next <= t1.next
    && t1 == t0.(chains := t0.chains[c := t1.chains[c]], next := t1.next)
  }

  lemma PositionAt(es: seq<Entry>, i: nat)
    requires i < |es| && DistinctHandles(es)
    ensures es[i].handle in Handles(es) && PositionOf(es, es[i].handle) == i
  {
    assert Handles(es)[i] == es[i].handle;
  }

  function Spliced(es: seq<Entry>, at: nat, block: seq<Entry>): seq<Entry>
    requires at <= |es|
  {
    es[..at] + block + es[at..]
  }

  /** Where a rule created at a position goes. */
  function SlotAfter(es: seq<Entry>, position: Handle): (i: nat)
    requires position == 0 || position in Handles(es)
    ensures i <= |es|
  {
    if position == 0 then |es| else PositionOf(es, position) + 1
  }

  lemma SplicedGrows(es: seq<Entry>, at: nat, block: seq<Entry>, e: Entry)
    requires at <= |es|
    ensures InsertedAt(Spliced(es, at, block), at + |block|, e) == Spliced(es, at, block + [e])
  {}

  lemma SplicedSlot(es: seq<Entry>, at: nat, block: seq<Entry>, position: Handle)
    requires at <= |es| && DistinctHandles(Spliced(es, at, block))
    requires block == [] ==> (position == 0 || position in Handles(es)) && at == SlotAfter(es, position)
    requires block != [] ==> position == block[|block| - 1].handle && position != 0
    ensures position == 0 || position in Handles(Spliced(es, at, block))
    ensures SlotAfter(Spliced(es, at, block), position) == at + |block|
  {
    var now := Spliced(es, at, block);
    if block == [] {
      assert now == es;
    } else {
      assert now[at + |block| - 1] == block[|block| - 1];
      PositionAt(now, at + |block| - 1);
    }
  }

  method ExtendBlock(k: Kernel, c: Chain, r: Rule, position: Handle,
                     ghost es: seq<Entry>, ghost at: nat, ghost block: seq<Entry>)
    returns (h: Handle)
    requires k.Valid() && c in k.tables.chains && Resolves(k.tables, r)
    requires at <= |es| && k.tables.chains[c] == Spliced(es, at, block)
    requires block == [] ==> (position == 0 || position in Handles(es)) && at == SlotAfter(es, position)
    requires block != [] ==> position == block[|block| - 1].handle && position != 0
    modifies k
    ensures k.Valid() && old(k.history) <= k.history && h > 0
    ensures ChainEdited(old(k.tables), k.tables, c)
    ensures k.tables.chains[c] == Spliced(es, at, block + [Entry(h, r)])
  {
    SplicedSlot(es, at, block, position);
    h := k.CreateRule(c, r, position);
    SplicedGrows(es, at, block, Entry(h, r));
  }

  /** Programs a block of rules, each after the one before it. */
  method ProgramChainRules(k: Kernel, c: Chain, rules: seq<Rule>, position: Handle) returns (ids: seq<Handle>)
    requires k.Valid() && c in k.tables.chains
    requires forall i :: 0 <= i < |rules| ==> Resolves(k.tables, rules[i])
    requires position == 0 || position in Handles(k.tables.chains[c])
    modifies k
    ensures k.Valid() && old(k.history) <= k.history
    ensures |ids| == |rules| && ChainEdited(old(k.tables), k.tables, c)
    ensures var es := old(k.tables).chains[c];
            k.tables.chains[c] == Spliced(es, SlotAfter(es, position), Zip(ids, rules))
  {
    ghost var es := k.tables.chains[c];
    ghost var at := SlotAfter(es, position);
    assert Spliced(es, at, []) == es;
    var id := position;
    ids := [];
    for i := 0 to |rules|
      invariant |ids| == i && k.Valid() && old(k.history) <= k.history
      invariant ChainEdited(old(k.tables), k.tables, c)
      invariant id == if i == 0 then position else ids[i - 1]
      invariant i > 0 ==> id != 0
      invariant k.tables.chains[c] == Spliced(es, at, Zip(ids, rules[..i]))
    {
      ghost var block := Zip(ids, rules[..i]);
      assert Resolves(old(k.tables), rules[i]);
      id := ExtendBlock(k, c, rules[i], id, es, at, block);
      ids := ids + [id];
      assert Zip(ids, rules[..i + 1]) == block + [Entry(id, rules[i])];
    }
    assert rules[..|rules|] == rules;
  }

  function Without(es: seq<Entry>, hs: set<Handle>): seq<Entry> {
    if es == [] then []
    else if es[0].handle in hs then Without(es[1..], hs)
    else [es[0]] + Without(es[1..], hs)
  }

  lemma {:induction false} WithoutMembers(es: seq<Entry>, hs: set<Handle>, h: Handle)
    requires h in Handles(es) && h !in hs
    ensures h in Handles(Without(es, hs))
  {
    var rest := Without(es[1..], hs);
    if es[0].handle == h {
      assert Handles([es[0]] + rest)[0] == h;
    } else {
      var j :| 0 <= j < |es| && Handles(es)[j] == h;
      assert Handles(es[1..])[j - 1] == h;
      WithoutMembers(es[1..], hs, h);
      var i :| 0 <= i < |rest| && Handles(rest)[i] == h;
      assert Handles([es[0]] + rest)[i + 1] == h;
    }
  }

  lemma PositionShift(e: Entry, es: seq<Entry>, h: Handle)
    requires h in Handles([e] + es) && e.handle != h
    ensures h in Handles(es) && PositionOf([e] + es, h) == PositionOf(es, h) + 1
  {
    var j :| 0 <= j < |es| + 1 && Handles([e] + es)[j] == h;
    assert Handles(es)[j - 1] == h;
    assert ([e] + es)[1..] == es;
  }

  lemma RemovedShift(e: Entry, es: seq<Entry>, i: nat)
    requires i < |es|
    ensures RemovedAt([e] + es, i + 1) == [e] + RemovedAt(es, i)
    ensures RemovedAt([e] + es, 0) == es
  {}

  lemma {:induction false} WithoutOneMore(es: seq<Entry>, hs: set<Handle>, h: Handle)
    requires DistinctHandles(es) && h in Handles(Without(es, hs))
    ensures RemovedAt(Without(es, hs), PositionOf(Without(es, hs), h)) == Without(es, hs + {h})
  {
    var e, tail := es[0], es[1..];
    var rest := Without(tail, hs);
    assert DistinctHandles(tail) && Without(es, hs) == if e.handle in hs then rest else [e] + rest;
    assert Without(es, hs + {h}) == if e.handle in hs + {h} then Without(tail, hs + {h}) else [e] + Without(tail, hs + {h});
    if e.handle in hs {
      hide Without, PositionOf, Handles;
      WithoutOneMore(tail, hs, h);
    } else if e.handle == h {
      WithoutAbsent(tail, hs, h);
      hide Without;
      assert PositionOf([e] + rest, h) == 0;
      assert RemovedAt([e] + rest, 0) == rest;
    } else {
      hide Without, PositionOf, RemovedAt;
      PositionShift(e, rest, h);
      WithoutOneMore(tail, hs, h);
      RemovedShift(e, rest, PositionOf(rest, h));
    }
  }

  lemma {:induction false} WithoutAbsent(es: seq<Entry>, hs: set<Handle>, h: Handle)
    requires forall i :: 0 <= i < |es| ==> es[i].handle != h
    ensures Without(es, hs + {h}) == Without(es, hs)
  {
    if es != [] {
      WithoutAbsent(es[1..], hs, h);
    }
  }

  lemma {:induction false} WithoutNone(es: seq<Entry>)
    ensures Without(es, {}) == es
  {
    if es != [] {
      WithoutNone(es[1..]);
    }
  }

  lemma {:induction false} WithoutAll(es: seq<Entry>, hs: set<Handle>)
    requires forall i :: 0 <= i < |es| ==> es[i].handle in hs
    ensures Without(es, hs) == []
  {
    if es != [] {
      WithoutAll(es[1..], hs);
    }
  }

  lemma WithoutOne(es: seq<Entry>, i: nat)
    requires i < |es| && DistinctHandles(es)
    ensures Without(es, {es[i].handle}) == RemovedAt(es, i)
  {
    WithoutNone(es);
    PositionAt(es, i);
    WithoutOneMore(es, {}, es[i].handle);
    assert {} + {es[i].handle} == {es[i].handle};
  }

  ghost predicate NoRepeats(hs: seq<Handle>) {
    forall i, j :: 0 <= i < j < |hs| ==> hs[i] != hs[j]
  }

  function HandleSet(hs: seq<Handle>): set<Handle> {
    set h | h in hs
  }

  /** Deletes the listed rules of a chain. */
  method DeleteChainRules(k: Kernel, c: Chain, ids: seq<Handle>)
    requires k.Valid() && c in k.tables.chains
    requires NoRepeats(ids) && forall h :: h in ids ==> h in Handles(k.tables.chains[c])
    modifies k
    ensures k.Valid() && old(k.history) <= k.history
    ensures k.tables == Put(old(k.tables), c, Without(old(k.tables).chains[c], HandleSet(ids)))
  {
    ghost var es := k.tables.chains[c];
    ghost var gone: set<Handle> := {};
    WithoutNone(es);
    assert Put(k.tables, c, es) == k.tables;
    for i := 0 to |ids|
      invariant k.Valid() && old(k.history) <= k.history
      invariant gone == HandleSet(ids[..i])
      invariant k.tables == Put(old(k.tables), c, Without(es, gone))
    {
      assert ids[i] !in gone;
      WithoutMembers(es, gone, ids[i]);
      WithoutOneMore(es, gone, ids[i]);
      k.DeleteRule(c, ids[i]);
      gone := gone + {ids[i]};
    }
    assert ids[..|ids|] == ids;
  }

  /** Empties a chain whose handles are all listed. */
  method DeleteAllRules(k: Kernel, c: Chain, ids: seq<Handle>)
    requires k.Valid() && c in k.tables.chains && Handles(k.tables.chains[c]) == ids
    modifies k
    ensures k.Valid() && old(k.history) <= k.history
    ensures k.tables == Put(old(k.tables), c, [])
  {
    ghost var es := k.tables.chains[c];
    forall i, j | 0 <= i < j < |ids| ensures ids[i] != ids[j] {
      assert ids[i] == es[i].handle && ids[j] == es[j].handle;
    }
    DeleteChainRules(k, c, ids);
    forall i | 0 <= i < |es| ensures es[i].handle in HandleSet(ids) {
      assert ids[i] == es[i].handle;
    }
    WithoutAll(es, HandleSet(ids));
  }

  /** Creates the endpoint chain if needed and appends its counter, mark and DNAT rules. */
  method AddEndpointRules(k: Kernel, c: Chain, id: EndpointId) returns (ids: seq<Handle>)
    requires k.Valid()
    modifies k
    ensures k.Valid() && old(k.history) <= k.history
    ensures ChainEdited(old(k.tables), k.tables, c)
    ensures var es := if c in old(k.tables.chains) then old(k.tables).chains[c] else [];
            && Rules(k.tables.chains[c]) == Rules(es) + DnatRules(id)
            && Handles(k.tables.chains[c]) == Handles(es) + ids
  {
    k.CreateChain(c);
    ghost var es := k.tables.chains[c];
    var rules := DnatRules(id);
    ids := ProgramChainRules(k, c, rules, 0);
    assert k.tables.chains[c] == es + Zip(ids, rules);
    assert Rules(k.tables.chains[c]) == Rules(es) + rules;
    assert Handles(k.tables.chains[c]) == Handles(es) + ids;
  }

  lemma ConsEntry(e: Entry, es: seq<Entry>)
    ensures InsertedAt(es, 0, e) == [e] + es
    ensures Rules([e] + es) == [e.rule] + Rules(es)
    ensures Handles([e] + es) == [e.handle] + Handles(es)
  {}

  /** Creates the endpoint chain if needed and puts the affinity update rule first. */
  method AddEndpointUpdateRule(k: Kernel, c: Chain, index: nat, m: AffinityMap) returns (ids: seq<Handle>)
    requires k.Valid() && m in k.tables.maps
    modifies k
    ensures k.Valid() && old(k.history) <= k.history
    ensures ChainEdited(old(k.tables), k.tables, c)
    ensures var es := if c in old(k.tables.chains) then old(k.tables).chains[c] else [];
            && Rules(k.tables.chains[c]) == [TouchRule(m, index)] + Rules(es)
            && Handles(k.tables.chains[c]) == ids + Handles(es)
            && |ids| == 1
  {
    k.CreateChain(c);
    ghost var es := k.tables.chains[c];
    var h := k.InsertRule(c, TouchRule(m, index), 0);
    ids := [h];
    ConsEntry(Entry(h, TouchRule(m, index)), es);
  }

  /** The action map of a MatchAct rule, filled endpoint by endpoint. */
  method BuildAct(n: PortName, es: seq<Endpoint>) returns (act: map<nat, Chain>)
    ensures act == ActOf(n, es)
  {
    act := map[];
    for i := 0 to |es|
      invariant act == ActOf(n, es[..i])
    {
      act := act[es[i].index := EpChain(n, es[i])];
      assert es[..i + 1][..i] == es[..i];
    }
    assert es[..|es|] == es;
  }

  lemma {:induction false} ActTargets(n: PortName, es: seq<Endpoint>)
    ensures forall x :: x in ActOf(n, es) ==> ActOf(n, es)[x] in EpChains(n, es)
  {
    if es != [] {
      var front := es[..|es| - 1];
      ActTargets(n, front);
      var act := ActOf(n, es);
      forall x | x in act ensures act[x] in EpChains(n, es) {
        if x == es[|es| - 1].index {
          assert EpChains(n, es)[|es| - 1] == act[x];
        } else {
          assert act[x] == ActOf(n, front)[x];
          var j :| 0 <= j < |front| && EpChains(n, front)[j] == act[x];
          assert EpChains(n, es)[j] == act[x];
        }
      }
    }
  }

  ghost predicate ChainsExist(n: PortName, es: seq<Endpoint>, t: Tables) {
    forall i :: 0 <= i < |es| ==> EpChain(n, es[i]) in t.chains
  }

  lemma RulesResolve(n: PortName, s: Service, es: seq<Endpoint>, t: Tables)
    requires ChainsExist(n, es, t) && (s.affinity ==> MapOf(n, s.base) in t.maps)
    ensures Resolves(t, BalanceRule(n, es))
    ensures s.affinity ==> Resolves(t, StickyRule(MapOf(n, s.base), n, es))
  {
    ActTargets(n, es);
  }

  /** A chain that is in service: it has a load-balance rule, and whatever rule takes the packet
      takes it to one of the given endpoint chains. */
  ghost predicate Serving(es: seq<Entry>, allowed: set<Chain>) {
    && (exists i :: 0 <= i < |es| && es[i].rule.action.Balance? && es[i].rule.guards == [] && es[i].rule.action.targets != [])
    && (forall i :: 0 <= i < |es| ==> Targets(es[i].rule) <= allowed)
  }

  lemma ServingInserted(es: seq<Entry>, allowed: set<Chain>, i: nat, e: Entry)
    requires Serving(es, allowed) && i <= |es| && Targets(e.rule) <= allowed
    ensures Serving(InsertedAt(es, i, e), allowed)
  {
    var j :| 0 <= j < |es| && es[j].rule.action.Balance? && es[j].rule.guards == [] && es[j].rule.action.targets != [];
    var now := InsertedAt(es, i, e);
    assert now[if j < i then j else j + 1] == es[j];
  }

  lemma ServingReplaced(es: seq<Entry>, allowed: set<Chain>, i: nat, e: Entry)
    requires Serving(es, allowed) && i < |es| && Targets(e.rule) <= allowed
    requires es[i].rule.action.Balance? ==>
               e.rule.guards == [] && e.rule.action.Balance? && e.rule.action.targets != []
    ensures Serving(es[i := e], allowed)
  {
    var j :| 0 <= j < |es| && es[j].rule.action.Balance? && es[j].rule.guards == [] && es[j].rule.action.targets != [];
    assert es[i := e][j] == if j == i then e else es[j];
  }

  lemma ServiceChainServes(n: PortName, s: Service, was: seq<Endpoint>, es: seq<Entry>)
    requires was != [] && Rules(es) == ServiceRules(n, s, was)
    ensures Serving(es, ChainSet(n, was))
  {
    ActTargets(n, was);
    var j := |es| - 1;
    assert es[j].rule == Rules(es)[j] == BalanceRule(n, was);
    forall i | 0 <= i < |es| ensures Targets(es[i].rule) <= ChainSet(n, was) {
      assert es[i].rule == Rules(es)[i];
    }
  }

  function ChainSet(n: PortName, es: seq<Endpoint>): set<Chain> {
    set c | c in EpChains(n, es)
  }

  /** In every state from one point of the history on, the chain serves. */
  ghost predicate ServingSince(history: seq<Tables>, from: nat, c: Chain, allowed: set<Chain>) {
    forall i :: from <= i < |history| ==> c in history[i].chains && Serving(history[i].chains[c], allowed)
  }

  lemma SwapEntries(es: seq<Entry>, i: nat, e: Entry)
    requires i < |es| && DistinctHandles(InsertedAt(es, i, e))
    ensures es[i].handle in Handles(InsertedAt(es, i, e))
    ensures PositionOf(InsertedAt(es, i, e), es[i].handle) == i + 1
    ensures RemovedAt(InsertedAt(es, i, e), i + 1) == es[i := e]
  {
    assert InsertedAt(es, i, e)[i + 1] == es[i];
    PositionAt(InsertedAt(es, i, e), i + 1);
  }

  method SwapRule(k: Kernel, c: Chain, i: nat, ruleID: seq<Handle>, r: Rule) returns (h: Handle)
    requires k.Valid() && c in k.tables.chains && Handles(k.tables.chains[c]) == ruleID && i < |ruleID|
    requires Resolves(k.tables, r)
    modifies k
    ensures k.Valid() && ChainEdited(old(k.tables), k.tables, c)
    ensures k.tables.chains[c] == old(k.tables).chains[c][i := Entry(h, r)]
    ensures |k.history| == |old(k.history)| + 2 && old(k.history) <= k.history
    ensures k.history[|old(k.history)| + 1] == k.tables
    ensures c in k.history[|old(k.history)|].chains
    ensures k.history[|old(k.history)|].chains[c] == InsertedAt(old(k.tables).chains[c], i, Entry(h, r))
  {
    ghost var es := k.tables.chains[c];
    assert DistinctHandles(es) && ruleID[i] != 0;
    PositionAt(es, i);
    hide Resolves;
    h := k.InsertRule(c, r, ruleID[i]);
    SwapEntries(es, i, Entry(h, r));
    k.DeleteRule(c, ruleID[i]);
  }

  /** Insert before, then delete: at no point is the position empty. */
  method ReplaceRule(k: Kernel, c: Chain, i: nat, ruleID: seq<Handle>, r: Rule, ghost allowed: set<Chain>)
    returns (h: Handle)
    requires k.Valid() && c in k.tables.chains && Handles(k.tables.chains[c]) == ruleID && i < |ruleID|
    requires Resolves(k.tables, r)
    requires Serving(k.tables.chains[c], allowed) && Targets(r) <= allowed
    requires Rules(k.tables.chains[c])[i].action.Balance? ==>
               r.guards == [] && r.action.Balance? && r.action.targets != []
    modifies k
    ensures k.Valid() && old(k.history) <= k.history
    ensures ChainEdited(old(k.tables), k.tables, c)
    ensures Rules(k.tables.chains[c]) == Rules(old(k.tables).chains[c])[i := r]
    ensures Handles(k.tables.chains[c]) == ruleID[i := h]
    ensures Serving(k.tables.chains[c], allowed)
    ensures ServingSince(k.history, |old(k.history)|, c, allowed)
  {
    ghost var es := k.tables.chains[c];
    assert es[i].rule == Rules(es)[i];
    h := SwapRule(k, c, i, ruleID, r);
    ServingInserted(es, allowed, i, Entry(h, r));
    ServingReplaced(es, allowed, i, Entry(h, r));
  }

  lemma ReplacedRules(n: PortName, s: Service, was: seq<Endpoint>, es: seq<Endpoint>)
    requires was != [] && es != []
    ensures !s.affinity ==>
              ServiceRules(n, s, es) == ServiceRules(n, s, was)[1 := BalanceRule(n, es)]
    ensures s.affinity ==>
              ServiceRules(n, s, es)
              == ServiceRules(n, s, was)[1 := StickyRule(MapOf(n, s.base), n, es)][2 := BalanceRule(n, es)]
  {}

  method ProgramFirst(k: Kernel, n: PortName, s: Service, es: seq<Endpoint>) returns (ids: seq<Handle>)
    requires k.Valid() && es != []
    requires ChainsExist(n, es, k.tables) && (s.affinity ==> MapOf(n, s.base) in k.tables.maps)
    requires ChainOf(n, s.base) in k.tables.chains && k.tables.chains[ChainOf(n, s.base)] == []
    modifies k
    ensures k.Valid() && old(k.history) <= k.history
    ensures ChainEdited(old(k.tables), k.tables, ChainOf(n, s.base))
    ensures Rules(k.tables.chains[ChainOf(n, s.base)]) == ServiceRules(n, s, es)
    ensures Handles(k.tables.chains[ChainOf(n, s.base)]) == ids
  {
    var c := ChainOf(n, s.base);
    RulesResolve(n, s, es, k.tables);
    var rules := [CounterRule];
    if s.affinity {
      var act := BuildAct(n, es);
      rules := rules + [Rule([], Sticky(MapOf(n, s.base), act))];
    }
    rules := rules + [BalanceRule(n, es)];
    ids := ProgramChainRules(k, c, rules, 0);
    assert k.tables.chains[c] == Zip(ids, rules);
    assert Handles(k.tables.chains[c]) == ids;
    assert Rules(k.tables.chains[c]) == rules;
  }

  /** Replaces the MatchAct rule, if there is one, and the load-balance rule of a chain in service. */
  method ReprogramService(k: Kernel, n: PortName, s: Service, es: seq<Endpoint>, ruleID: seq<Handle>,
                          ghost was: seq<Endpoint>, ghost allowed: set<Chain>)
    returns (ids: seq<Handle>)
    requires k.Valid() && es != [] && was != []
    requires Resolves(k.tables, BalanceRule(n, es)) && Targets(BalanceRule(n, es)) <= allowed
    requires s.affinity ==> Resolves(k.tables, StickyRule(MapOf(n, s.base), n, es))
                            && Targets(StickyRule(MapOf(n, s.base), n, es)) <= allowed
    requires var c := ChainOf(n, s.base);
             && c in k.tables.chains
             && Rules(k.tables.chains[c]) == ServiceRules(n, s, was)
             && Handles(k.tables.chains[c]) == ruleID
             && Serving(k.tables.chains[c], allowed)
    modifies k
    ensures k.Valid() && old(k.history) <= k.history
    ensures ChainEdited(old(k.tables), k.tables, ChainOf(n, s.base))
    ensures Rules(k.tables.chains[ChainOf(n, s.base)]) == ServiceRules(n, s, es)
    ensures Handles(k.tables.chains[ChainOf(n, s.base)]) == ids
    ensures ServingSince(k.history, |old(k.history)|, ChainOf(n, s.base), allowed)
  {
    var c := ChainOf(n, s.base);
    ids := ruleID;
    ReplacedRules(n, s, was, es);
    var balance := 1;
    if s.affinity {
      var act := BuildAct(n, es);
      var h := ReplaceRule(k, c, 1, ids, Rule([], Sticky(MapOf(n, s.base), act)), allowed);
      ids := ids[1 := h];
      balance := 2;
    }
    var h := ReplaceRule(k, c, balance, ids, BalanceRule(n, es), allowed);
    ids := ids[balance := h];
  }

  /** Programs a service chain for a non-empty endpoint list: from scratch the first time, and by
      replacing its MatchAct and load-balance rules in place later on. */
  method ProgramServiceEndpoints(k: Kernel, n: PortName, s: Service, es: seq<Endpoint>, ruleID: seq<Handle>,
                                 ghost was: seq<Endpoint>)
    returns (ids: seq<Handle>)
    requires k.Valid() && es != []
    requires ChainsExist(n, es, k.tables) && (s.affinity ==> MapOf(n, s.base) in k.tables.maps)
    requires var c := ChainOf(n, s.base);
             && c in k.tables.chains
             && Rules(k.tables.chains[c]) == ServiceRules(n, s, was)
             && Handles(k.tables.chains[c]) == ruleID
    modifies k
    ensures k.Valid() && old(k.history) <= k.history
    ensures ChainEdited(old(k.tables), k.tables, ChainOf(n, s.base))
    ensures Rules(k.tables.chains[ChainOf(n, s.base)]) == ServiceRules(n, s, es)
    ensures Handles(k.tables.chains[ChainOf(n, s.base)]) == ids
    ensures was != [] ==>
              ServingSince(k.history, |old(k.history)|, ChainOf(n, s.base), ChainSet(n, was) + ChainSet(n, es))
  {
    RulesResolve(n, s, es, k.tables);
    if |ruleID| == 0 {
      ids := ProgramFirst(k, n, s, es);
    } else {
      ServiceChainServes(n, s, was, k.tables.chains[ChainOf(n, s.base)]);
      ActTargets(n, es);
      ids := ReprogramService(k, n, s, es, ruleID, was, ChainSet(n, was) + ChainSet(n, es));
    }
  }

  /** Inserts the MatchAct rule before the rule with the given handle. */
  method AddServiceMatchActRule(k: Kernel, n: PortName, b: BaseInfo, es: seq<Endpoint>, position: Handle)
    returns (h: Handle)
    requires k.Valid() && ChainOf(n, b) in k.tables.chains && MapOf(n, b) in k.tables.maps
    requires ChainsExist(n, es, k.tables)
    requires position in Handles(k.tables.chains[ChainOf(n, b)]) && position != 0
    modifies k
    ensures k.Valid() && old(k.history) <= k.history
    ensures ChainEdited(old(k.tables), k.tables, ChainOf(n, b))
    ensures var was := old(k.tables).chains[ChainOf(n, b)];
            k.tables.chains[ChainOf(n, b)]
            == InsertedAt(was, PositionOf(was, position), Entry(h, StickyRule(MapOf(n, b), n, es)))
  {
    var act := BuildAct(n, es);
    ActTargets(n, es);
    h := k.InsertRule(ChainOf(n, b), Rule([], Sticky(MapOf(n, b), act)), position);
  }
}
