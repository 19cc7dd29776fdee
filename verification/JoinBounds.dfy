/** How much work joined flows can do: every step of a flow or its forwarder adds to a
    measure that the flow's input limits. */
module JoinBounds {
  import opened Stages
  import opened Chains
  import opened Joins
  import opened Sums

  // The steps of a flow and its forwarder so far, and one for the flow's existence.
  ghost function FlowWork<V>(flow: Flow<V>): nat {
    Done(flow.chain) + |flow.chain.emitted| + (if flow.hand.None? then 1 else 0) + (if flow.returned then 1 else 0)
  }

  ghost function WorkOf<K, V>(flows: map<K, Flow<V>>): K -> nat {
    k => if k in flows then FlowWork(flows[k]) else 0
  }

  ghost function JoinWork<K(!new), V>(j: Join<K, V>): nat {
    Sum(j.flows.Keys, WorkOf(j.flows)) + if j.outClosed then 1 else 0
  }

  lemma FlowChanges<K(!new), V>(j: Join<K, V>, j': Join<K, V>, k: K, flow: Flow<V>)
    requires k in j.flows && j'.flows == j.flows[k := flow] && j'.outClosed == j.outClosed
    ensures JoinWork(j') == JoinWork(j) - FlowWork(j.flows[k]) + FlowWork(flow)
  {
    assert j'.flows.Keys == j.flows.Keys;
    SumChanges(j.flows.Keys, WorkOf(j.flows), WorkOf(j'.flows), k);
  }

  lemma OpensDoesWork<K(!new), V>(wiring: Wiring<K, V>, j: Join<K, V>, j': Join<K, V>, k: K)
    requires Opens(wiring, j, j', k)
    ensures JoinWork(j') == JoinWork(j) + 1
  {
    var keys := j.flows.Keys;
    assert j'.flows.Keys == keys + {k};
    SumSplit(keys + {k}, WorkOf(j'.flows), k);
    assert keys + {k} - {k} == keys;
    SumAtMost(keys, WorkOf(j.flows), WorkOf(j'.flows));
    SumAtMost(keys, WorkOf(j'.flows), WorkOf(j.flows));
    NewChainHasDoneNothing(wiring(k));
  }

  lemma FeedsFlowDoesWork<K(!new), V>(wiring: Wiring<K, V>, j: Join<K, V>, j': Join<K, V>, k: K, x: Any<V>)
    requires FeedsFlow(wiring, j, j', k, x)
    ensures JoinWork(j') == JoinWork(j) + 1
  {
    FeedsDoesWork(wiring(k), j.flows[k].chain, j'.flows[k].chain, x);
    FlowChanges(j, j', k, j'.flows[k]);
  }

  lemma ClosesFlowDoesWork<K(!new), V>(j: Join<K, V>, j': Join<K, V>, k: K)
    requires ClosesFlow(j, j', k)
    ensures JoinWork(j') == JoinWork(j) + 1
  {
    FlowChanges(j, j', k, j'.flows[k]);
  }

  lemma JoinMovesDoesWork<K(!new), V>(wiring: Wiring<K, V>, j: Join<K, V>, j': Join<K, V>, k: K)
    requires JoinMoves(wiring, j, j', k)
    ensures JoinWork(j') == JoinWork(j) + 1
  {
    FlowChanges(j, j', k, j'.flows[k]);
    if FlowMoves(wiring, j, j', k) {
      InternalDoesWork(wiring(k), j.flows[k].chain, j'.flows[k].chain);
      InternalEmitsNothing(wiring(k), j.flows[k].chain, j'.flows[k].chain);
    } else if ForwarderTakes(j, j', k) {
      EmitsDoesWork(j.flows[k].chain, j'.flows[k].chain);
    }
  }

  lemma InternalEmitsNothing<V>(gs: seq<Stage<V>>, c: Chain<V>, c': Chain<V>)
    requires Internal(gs, c, c')
    ensures c'.emitted == c.emitted
  {
  }

  // ---------- limits ----------

  ghost function FlowLimit<V>(gs: seq<Stage<V>>, fed: seq<Any<V>>): nat {
    ChainLimit(gs, fed) + |Compose(gs, fed)| + 2
  }

  lemma FlowIsLimited<K(!new), V>(wiring: Wiring<K, V>, j: Join<K, V>, k: K, fed: seq<Any<V>>)
    requires k in j.flows && FlowInv(wiring, j, k) && Fed(j.flows[k].chain) <= fed
    ensures FlowWork(j.flows[k]) <= FlowLimit(wiring(k), fed)
  {
    DoneIsLimited(wiring(k), j.flows[k].chain, fed);
    ChainIsDeterministic(wiring(k), j.flows[k].chain, fed);
  }

  lemma JoinIsLimited<K(!new), V>(j: Join<K, V>, keys: set<K>, limit: K -> nat)
    requires j.flows.Keys <= keys
    requires forall k | k in j.flows :: FlowWork(j.flows[k]) <= limit(k)
    ensures JoinWork(j) <= Sum(keys, limit) + 1
  {
    SumAtMost(j.flows.Keys, WorkOf(j.flows), limit);
    SumOfMore(j.flows.Keys, keys, limit);
  }
}
