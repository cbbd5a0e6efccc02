/** Affinity indices over runs: when the index of an endpoint is its own. */
module Indices {
  import opened Names
  import opened Netfilter
  import opened Ruleset
  import opened Mirror
  import opened Steps
  import opened Api
  import opened Reconciler
  import opened Runs
  import opened Packets
  import opened Traffic

  ghost predicate IndexIsPosition(es: seq<Endpoint>) {
    forall i :: 0 <= i < |es| ==> es[i].index == i
  }

  ghost predicate DistinctIndices(es: seq<Endpoint>) {
    forall i, j :: 0 <= i < j < |es| ==> es[i].index != es[j].index
  }

  /** The index of a new endpoint is the length of the list, so after a deletion the next addition
      gets an index of its own if and only if it was the last endpoint that had gone. */
  lemma ReaddedDistinctExactly(es: seq<Endpoint>, i: nat, e: Endpoint)
    requires IndexIsPosition(es) && i < |es| && e.index == |es| - 1
    ensures DistinctIndices(RemovedEp(es, i) + [e]) <==> i == |es| - 1
  {
    var now := RemovedEp(es, i) + [e];
    if i < |es| - 1 {
      assert now[|es| - 2] == es[|es| - 1] && now[|es| - 1] == e;
    }
  }

  /** Every deletion of the run takes the last endpoint of a list, or none. */
  ghost predicate TailOnly(w: World, hostname: string, evs: seq<Event>)
    decreases evs
  {
    evs == [] || (TailStep(w, hostname, evs[0]) && TailOnly(Step(w, hostname, evs[0]), hostname, evs[1..]))
  }

  ghost predicate TailStep(w: World, hostname: string, ev: Event) {
    ev.DeleteEp? ==>
      var es := EpsOf(w.cfg.endpoints, ev.n);
      var rest := Reconciler.Dropped(es, Proxy.IdFor(ev.addr, ev.port), ev.addr.nodeName == Some(hostname));
      rest == es || (es != [] && rest == es[..|es| - 1])
  }

  lemma {:induction false} PositionsKept(w: World, hostname: string, evs: seq<Event>, n: PortName)
    requires TailOnly(w, hostname, evs) && IndexIsPosition(EpsOf(w.cfg.endpoints, n))
    ensures IndexIsPosition(EpsOf(Run(w, hostname, evs).cfg.endpoints, n))
    decreases evs
  {
    if evs != [] {
      PositionsKept(Step(w, hostname, evs[0]), hostname, evs[1..], n);
    }
  }

  /** Session affinity works for lists built by additions and tail deletions. */
  lemma StickyWhenPositions(cluster: Cluster, b: Books, t: Tables, n: PortName, hook: StaticChain,
                            p: Packet, st: State, hook': StaticChain, p': Packet, mark: nat)
    requires Synced(cluster, b, t) && NatHook(hook) && NatHook(hook')
    requires ClusterIPOf(b, t, n, p) && ClusterIPOf(b, t, n, p') && p'.src == p.src
    requires EpsOf(b.endpoints, n) != [] && b.services[n].nft.withAffinity
    requires IndexIsPosition(EpsOf(b.endpoints, n))
    ensures var o := AtHook(cluster, b, t, hook, p, st);
            && o.verdict.Redirect?
            && AtHook(cluster, b, t, hook', p', State(mark, o.state.affinity)).verdict == o.verdict
  {
    var i, j := SecondPacket(cluster, b, t, n, hook, p, st, hook', p', mark);
    assert i == j;
  }
}
