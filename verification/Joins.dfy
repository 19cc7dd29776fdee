/** Several flows forwarded to one output: the goroutines, the wait group and the close that
    Merge and Keyed have in common (flow/util.go:82-105, flow/keyed.go:87-94, 144-151).
    Each flow is a chain of stages; what feeds it is left to its surroundings. */
module Joins {
  import opened Sequences
  import opened Stages
  import opened Chains
  import opened Shuffles

  // A flow, the element its forwarder holds, and whether its forwarder has returned.
  datatype Flow<V> = Flow(chain: Chain<V>, hand: Option<Any<V>>, returned: bool)

  // Each item on the output channel is tagged with the key of its flow.
  datatype Join<K, V> = Join(flows: map<K, Flow<V>>, waitGroup: int, out: seq<(K, Any<V>)>, outClosed: bool)

  type Wiring<!K, !V> = K -> seq<Stage<V>>

  ghost function NewFlow<V>(gs: seq<Stage<V>>): Flow<V> {
    Flow(NewChain(gs), None, false)
  }

  ghost function NewJoin<K, V>(wiring: Wiring<K, V>, keys: set<K>): Join<K, V> {
    Join(map k | k in keys :: NewFlow(wiring(k)), |keys|, [], false)
  }

  // ---------- steps ----------

  ghost function With<K, V>(j: Join<K, V>, k: K, flow: Flow<V>): Join<K, V> {
    j.(flows := j.flows[k := flow])
  }

  // A new flow is built, and its forwarder started, under a key that has none.
  ghost predicate Opens<K, V>(wiring: Wiring<K, V>, j: Join<K, V>, j': Join<K, V>, k: K) {
    k !in j.flows && j' == With(j, k, NewFlow(wiring(k))).(waitGroup := j.waitGroup + 1)
  }

  ghost predicate FeedsFlow<K, V>(wiring: Wiring<K, V>, j: Join<K, V>, j': Join<K, V>, k: K, x: Any<V>) {
    && k in j.flows && k in j'.flows && Feeds(wiring(k), j.flows[k].chain, j'.flows[k].chain, x)
    && j' == With(j, k, j.flows[k].(chain := j'.flows[k].chain))
  }

  ghost predicate ClosesFlow<K, V>(j: Join<K, V>, j': Join<K, V>, k: K) {
    && k in j.flows && k in j'.flows && ClosesInput(j.flows[k].chain, j'.flows[k].chain)
    && j' == With(j, k, j.flows[k].(chain := j'.flows[k].chain))
  }

  ghost predicate FlowMoves<K, V>(wiring: Wiring<K, V>, j: Join<K, V>, j': Join<K, V>, k: K) {
    && k in j.flows && k in j'.flows && Internal(wiring(k), j.flows[k].chain, j'.flows[k].chain)
    && j' == With(j, k, j.flows[k].(chain := j'.flows[k].chain))
  }

  ghost predicate ForwarderTakes<K, V>(j: Join<K, V>, j': Join<K, V>, k: K) {
    && k in j.flows && k in j'.flows && j.flows[k].hand == None && !j.flows[k].returned
    && Emits(j.flows[k].chain, j'.flows[k].chain)
    && var emitted := j'.flows[k].chain.emitted;
       j' == With(j, k, j.flows[k].(chain := j'.flows[k].chain, hand := Some(emitted[|emitted| - 1])))
  }

  // Nothing here checks that the output channel is open, as nothing in the code does.
  ghost predicate ForwarderSends<K, V>(j: Join<K, V>, j': Join<K, V>, k: K) {
    && k in j.flows && j.flows[k].hand.Some?
    && j' == With(j, k, j.flows[k].(hand := None)).(out := j.out + [(k, j.flows[k].hand.value)])
  }

  ghost predicate ForwarderReturns<K, V>(j: Join<K, V>, j': Join<K, V>, k: K) {
    && k in j.flows && j.flows[k].hand == None && !j.flows[k].returned && OutClosed(j.flows[k].chain)
    && j' == With(j, k, j.flows[k].(returned := true)).(waitGroup := j.waitGroup - 1)
  }

  ghost predicate OutCloses<K, V>(j: Join<K, V>, j': Join<K, V>) {
    j.waitGroup == 0 && !j.outClosed && j' == j.(outClosed := true)
  }

  // The steps in which the surroundings take no part.
  ghost predicate JoinMoves<K, V>(wiring: Wiring<K, V>, j: Join<K, V>, j': Join<K, V>, k: K) {
    FlowMoves(wiring, j, j', k) || ForwarderTakes(j, j', k) || ForwarderSends(j, j', k) || ForwarderReturns(j, j', k)
  }

  // ---------- the invariant ----------

  ghost predicate FlowInv<K, V>(wiring: Wiring<K, V>, j: Join<K, V>, k: K)
    requires k in j.flows
  {
    var flow := j.flows[k];
    && ChainInv(wiring(k), flow.chain)
    && Branch(j.out, k) + flow.hand.AsSeq() == flow.chain.emitted
    && (flow.returned ==> flow.hand == None && OutClosed(flow.chain))
  }

  ghost function LiveKeys<K, V>(flows: map<K, Flow<V>>): set<K> {
    set k | k in flows && !flows[k].returned
  }

  ghost predicate JoinInv<K(!new), V>(wiring: Wiring<K, V>, j: Join<K, V>) {
    && (forall k | k in j.flows :: FlowInv(wiring, j, k))
    && (forall t | t in j.out :: t.0 in j.flows)
    && j.waitGroup == |LiveKeys(j.flows)|
    && (j.outClosed ==> LiveKeys(j.flows) == {})
  }

  lemma NewJoinInv<K(!new), V>(wiring: Wiring<K, V>, keys: set<K>)
    requires forall k :: wiring(k) != []
    ensures JoinInv(wiring, NewJoin(wiring, keys))
    ensures forall k | k in keys :: Fed(NewJoin(wiring, keys).flows[k].chain) == []
  {
    var j := NewJoin(wiring, keys);
    assert LiveKeys(j.flows) == keys;
    forall k | k in keys ensures FlowInv(wiring, j, k) && Fed(j.flows[k].chain) == [] {
      NewChainInv(wiring(k));
    }
  }

  lemma OtherFlows<K(!new), V>(wiring: Wiring<K, V>, j: Join<K, V>, j': Join<K, V>, k: K)
    requires forall l | l in j.flows :: FlowInv(wiring, j, l)
    requires k in j'.flows && FlowInv(wiring, j', k)
    requires j'.flows == j.flows[k := j'.flows[k]]
    requires forall l | l != k :: Branch(j'.out, l) == Branch(j.out, l)
    ensures forall l | l in j'.flows :: FlowInv(wiring, j', l)
  {
    forall l | l in j'.flows ensures FlowInv(wiring, j', l) {
      if l != k {
        assert FlowInv(wiring, j, l);
      }
    }
  }

  lemma OpensOne<K(!new), V>(flows: map<K, Flow<V>>, k: K, flow: Flow<V>)
    requires k !in flows && !flow.returned
    ensures |LiveKeys(flows[k := flow])| == |LiveKeys(flows)| + 1
  {
    assert LiveKeys(flows[k := flow]) == LiveKeys(flows) + {k};
  }

  lemma OpensKeepsInv<K(!new), V>(wiring: Wiring<K, V>, j: Join<K, V>, j': Join<K, V>, k: K)
    requires JoinInv(wiring, j) && !j.outClosed && wiring(k) != [] && Opens(wiring, j, j', k)
    ensures JoinInv(wiring, j') && Fed(j'.flows[k].chain) == []
  {
    assert FlowInv(wiring, j', k) && Fed(j'.flows[k].chain) == [] by {
      NewChainInv(wiring(k));
      BranchOfStranger(j.out, k);
    }
    OtherFlows(wiring, j, j', k);
    OpensOne(j.flows, k, j'.flows[k]);
  }

  lemma ChainStepKeepsInv<K(!new), V>(wiring: Wiring<K, V>, j: Join<K, V>, j': Join<K, V>, k: K)
    requires JoinInv(wiring, j) && k in j.flows && k in j'.flows
    requires j' == With(j, k, j.flows[k].(chain := j'.flows[k].chain))
    requires ChainInv(wiring(k), j'.flows[k].chain) && j'.flows[k].chain.emitted == j.flows[k].chain.emitted
    requires OutClosed(j.flows[k].chain) ==> OutClosed(j'.flows[k].chain)
    ensures JoinInv(wiring, j')
  {
    assert FlowInv(wiring, j, k);
    OtherFlows(wiring, j, j', k);
    assert LiveKeys(j'.flows) == LiveKeys(j.flows);
  }

  lemma FeedsKeepsChain<K, V>(wiring: Wiring<K, V>, j: Join<K, V>, j': Join<K, V>, k: K, x: Any<V>)
    requires FeedsFlow(wiring, j, j', k, x) && FlowInv(wiring, j, k)
    ensures var c, c' := j.flows[k].chain, j'.flows[k].chain;
            && ChainInv(wiring(k), c') && c'.emitted == c.emitted && Fed(c') == Fed(c) + [x]
            && (OutClosed(c) ==> OutClosed(c'))
  {
    FeedsKeepsInv(wiring(k), j.flows[k].chain, j'.flows[k].chain, x);
  }

  lemma FeedsFlowKeepsInv<K(!new), V>(wiring: Wiring<K, V>, j: Join<K, V>, j': Join<K, V>, k: K, x: Any<V>)
    requires JoinInv(wiring, j) && FeedsFlow(wiring, j, j', k, x)
    ensures JoinInv(wiring, j') && Fed(j'.flows[k].chain) == Fed(j.flows[k].chain) + [x]
  {
    FeedsKeepsChain(wiring, j, j', k, x);
    ChainStepKeepsInv(wiring, j, j', k);
  }

  lemma ClosesKeepsChain<K, V>(wiring: Wiring<K, V>, j: Join<K, V>, j': Join<K, V>, k: K)
    requires ClosesFlow(j, j', k) && FlowInv(wiring, j, k)
    ensures var c, c' := j.flows[k].chain, j'.flows[k].chain;
            && ChainInv(wiring(k), c') && c'.emitted == c.emitted && Fed(c') == Fed(c)
            && (OutClosed(c) ==> OutClosed(c'))
  {
    ClosesInputKeepsInv(wiring(k), j.flows[k].chain, j'.flows[k].chain);
  }

  lemma ClosesFlowKeepsInv<K(!new), V>(wiring: Wiring<K, V>, j: Join<K, V>, j': Join<K, V>, k: K)
    requires JoinInv(wiring, j) && ClosesFlow(j, j', k)
    ensures JoinInv(wiring, j') && Fed(j'.flows[k].chain) == Fed(j.flows[k].chain)
  {
    ClosesKeepsChain(wiring, j, j', k);
    ChainStepKeepsInv(wiring, j, j', k);
  }

  // The two joins have flows under the same keys, fed the same.
  ghost predicate SameFeeds<K(!new), V>(j: Join<K, V>, j': Join<K, V>) {
    && j'.flows.Keys == j.flows.Keys && j'.outClosed == j.outClosed
    && forall k | k in j.flows :: SameFeed(j.flows[k].chain, j'.flows[k].chain)
  }

  ghost predicate SameFeed<V>(c: Chain<V>, c': Chain<V>) {
    Fed(c') == Fed(c) && c'.inClosed == c.inClosed
  }

  lemma ForwarderTakesKeepsInv<K(!new), V>(wiring: Wiring<K, V>, j: Join<K, V>, j': Join<K, V>, k: K)
    requires JoinInv(wiring, j) && ForwarderTakes(j, j', k)
    ensures JoinInv(wiring, j') && SameFeeds(j, j')
  {
    assert FlowInv(wiring, j, k);
    var flow, flow' := j.flows[k], j'.flows[k];
    EmitsKeepsInv(wiring(k), flow.chain, flow'.chain);
    assert Branch(j.out, k) + [] == Branch(j.out, k);
    OtherFlows(wiring, j, j', k);
    assert LiveKeys(j'.flows) == LiveKeys(j.flows);
  }

  lemma ForwarderSendsKeepsInv<K(!new), V>(wiring: Wiring<K, V>, j: Join<K, V>, j': Join<K, V>, k: K)
    requires JoinInv(wiring, j) && ForwarderSends(j, j', k)
    ensures JoinInv(wiring, j') && SameFeeds(j, j')
  {
    var x := j.flows[k].hand.value;
    BranchSnoc(j.out, k, x);
    assert FlowInv(wiring, j', k) by {
      assert FlowInv(wiring, j, k);
      assert Branch(j'.out, k) + [] == Branch(j.out, k) + [x];
    }
    OtherFlows(wiring, j, j', k);
    assert LiveKeys(j'.flows) == LiveKeys(j.flows);
  }

  lemma ForwarderReturnsKeepsInv<K(!new), V>(wiring: Wiring<K, V>, j: Join<K, V>, j': Join<K, V>, k: K)
    requires JoinInv(wiring, j) && ForwarderReturns(j, j', k)
    ensures JoinInv(wiring, j') && SameFeeds(j, j')
  {
    assert FlowInv(wiring, j, k);
    OtherFlows(wiring, j, j', k);
    assert k in LiveKeys(j.flows);
    assert LiveKeys(j'.flows) == LiveKeys(j.flows) - {k};
  }

  lemma FlowMovesKeepsInv<K(!new), V>(wiring: Wiring<K, V>, j: Join<K, V>, j': Join<K, V>, k: K)
    requires JoinInv(wiring, j) && FlowMoves(wiring, j, j', k)
    ensures JoinInv(wiring, j') && SameFeeds(j, j')
  {
    assert FlowInv(wiring, j, k);
    InternalKeepsInv(wiring(k), j.flows[k].chain, j'.flows[k].chain);
    InternalKeepsClosed(wiring(k), j.flows[k].chain, j'.flows[k].chain);
    ChainStepKeepsInv(wiring, j, j', k);
  }

  // No step of the flows and their forwarders changes what the flows were fed.
  lemma JoinMovesKeepsInv<K(!new), V>(wiring: Wiring<K, V>, j: Join<K, V>, j': Join<K, V>, k: K)
    requires JoinInv(wiring, j) && JoinMoves(wiring, j, j', k)
    ensures JoinInv(wiring, j') && SameFeeds(j, j')
  {
    if FlowMoves(wiring, j, j', k) {
      FlowMovesKeepsInv(wiring, j, j', k);
    } else if ForwarderTakes(j, j', k) {
      ForwarderTakesKeepsInv(wiring, j, j', k);
    } else if ForwarderSends(j, j', k) {
      ForwarderSendsKeepsInv(wiring, j, j', k);
    } else {
      ForwarderReturnsKeepsInv(wiring, j, j', k);
    }
  }

  lemma InternalKeepsClosed<V>(gs: seq<Stage<V>>, c: Chain<V>, c': Chain<V>)
    requires Internal(gs, c, c')
    ensures OutClosed(c) ==> OutClosed(c')
  {
  }

  lemma OutClosesKeepsInv<K(!new), V>(wiring: Wiring<K, V>, j: Join<K, V>, j': Join<K, V>)
    requires JoinInv(wiring, j) && OutCloses(j, j')
    ensures JoinInv(wiring, j')
  {
    forall k | k in j'.flows ensures FlowInv(wiring, j', k) {
      assert FlowInv(wiring, j, k);
    }
  }

  // ---------- the theorems ----------

  // At every moment, what a flow has contributed is a prefix of its chain's function of
  // what it was fed, and in order.
  lemma ContributionIsPrefix<K(!new), V>(wiring: Wiring<K, V>, j: Join<K, V>, k: K)
    requires JoinInv(wiring, j) && k in j.flows
    ensures Branch(j.out, k) <= Compose(wiring(k), Fed(j.flows[k].chain))
  {
    assert FlowInv(wiring, j, k);
    ChainIsDeterministic(wiring(k), j.flows[k].chain, Fed(j.flows[k].chain));
  }

  // Once the output is closed every forwarder has returned, every flow's input is closed,
  // and the output holds the whole of every flow's result, in order, and nothing else.
  lemma JoinIsComplete<K(!new), V>(wiring: Wiring<K, V>, j: Join<K, V>)
    requires JoinInv(wiring, j) && j.outClosed
    ensures forall k | k in j.flows ::
              && j.flows[k].returned && j.flows[k].chain.inClosed
              && Branch(j.out, k) == Compose(wiring(k), Fed(j.flows[k].chain))
    ensures forall k | k !in j.flows :: Branch(j.out, k) == []
  {
    forall k | k in j.flows
      ensures && j.flows[k].returned && j.flows[k].chain.inClosed
              && Branch(j.out, k) == Compose(wiring(k), Fed(j.flows[k].chain))
    {
      assert FlowInv(wiring, j, k);
      assert k !in LiveKeys(j.flows);
      ChainIsDeterministic(wiring(k), j.flows[k].chain, Fed(j.flows[k].chain));
      assert Branch(j.out, k) + [] == Branch(j.out, k);
    }
    forall k | k !in j.flows ensures Branch(j.out, k) == [] {
      BranchOfStranger(j.out, k);
    }
  }

  // No forwarder sends on the closed output.
  lemma NoSendAfterClose<K(!new), V>(wiring: Wiring<K, V>, j: Join<K, V>, j': Join<K, V>, k: K)
    requires JoinInv(wiring, j) && ForwarderSends(j, j', k)
    ensures !j.outClosed
  {
    assert FlowInv(wiring, j, k);
    assert k in LiveKeys(j.flows);
  }

  // A flow whose forwarder has not returned can move, unless it waits to be fed.
  lemma FlowCanMove<K(!new), V>(wiring: Wiring<K, V>, j: Join<K, V>, k: K)
    requires JoinInv(wiring, j) && k in LiveKeys(j.flows)
    ensures || (exists j' :: JoinMoves(wiring, j, j', k))
            || (Ready(j.flows[k].chain.nodes[0]) && !j.flows[k].chain.inClosed)
  {
    assert FlowInv(wiring, j, k);
    var flow := j.flows[k];
    var c := flow.chain;
    var j' := j;
    if flow.hand.Some? {
      j' := With(j, k, flow.(hand := None)).(out := j.out + [(k, flow.hand.value)]);
    } else if OutClosed(c) {
      j' := With(j, k, flow.(returned := true)).(waitGroup := j.waitGroup - 1);
    } else if HasOutput(c) {
      var n := |c.nodes| - 1;
      var c' := c.(nodes := c.nodes[n := Sent(c.nodes[n])], emitted := c.emitted + [c.nodes[n].pending[0]]);
      j' := With(j, k, flow.(chain := c', hand := Some(c.nodes[n].pending[0])));
    } else {
      ChainCanMove(wiring(k), c);
      if c' :| Internal(wiring(k), c, c') {
        j' := With(j, k, flow.(chain := c'));
      } else {
        return;
      }
    }
    assert JoinMoves(wiring, j, j', k);
  }

  // ---------- Merge ----------

  // Merge over flows that anything may feed, in any order, and close.
  ghost predicate MergeNext<K(!new), V(!new)>(wiring: Wiring<K, V>, j: Join<K, V>, j': Join<K, V>) {
    || (exists k, x :: FeedsFlow(wiring, j, j', k, x)) || (exists k :: ClosesFlow(j, j', k))
    || (exists k :: JoinMoves(wiring, j, j', k)) || OutCloses(j, j')
  }

  ghost predicate IsMergeRun<K(!new), V(!new)>(wiring: Wiring<K, V>, keys: set<K>, run: seq<Join<K, V>>) {
    && run != [] && run[0] == NewJoin(wiring, keys)
    && forall i | 0 < i < |run| :: MergeNext(wiring, run[i - 1], run[i])
  }

  lemma MergeNextKeepsInv<K(!new), V(!new)>(wiring: Wiring<K, V>, j: Join<K, V>, j': Join<K, V>)
    requires JoinInv(wiring, j) && MergeNext(wiring, j, j')
    ensures JoinInv(wiring, j') && j'.flows.Keys == j.flows.Keys
  {
    if k, x :| FeedsFlow(wiring, j, j', k, x) {
      FeedsFlowKeepsInv(wiring, j, j', k, x);
    } else if k :| ClosesFlow(j, j', k) {
      ClosesFlowKeepsInv(wiring, j, j', k);
    } else if k :| JoinMoves(wiring, j, j', k) {
      JoinMovesKeepsInv(wiring, j, j', k);
    } else {
      OutClosesKeepsInv(wiring, j, j');
    }
  }

  lemma {:induction false} MergeKeepsInv<K(!new), V(!new)>(wiring: Wiring<K, V>, keys: set<K>, run: seq<Join<K, V>>)
    requires (forall k :: wiring(k) != []) && IsMergeRun(wiring, keys, run)
    ensures forall i | 0 <= i < |run| :: JoinInv(wiring, run[i]) && run[i].flows.Keys == keys
  {
    assert JoinInv(wiring, run[0]) by {
      NewJoinInv(wiring, keys);
    }
    for i := 1 to |run|
      invariant forall j | 0 <= j < i :: JoinInv(wiring, run[j]) && run[j].flows.Keys == keys
    {
      MergeNextKeepsInv(wiring, run[i - 1], run[i]);
    }
  }

  // Merge's output interleaves prefixes of what its flows produce.  It closes only after
  // every flow is closed and every forwarder has returned; it is then a shuffle of the
  // whole of what the flows produced.
  lemma MergeIsShuffle<K(!new), V(!new)>(wiring: Wiring<K, V>, keys: set<K>, run: seq<Join<K, V>>)
    requires (forall k :: wiring(k) != []) && IsMergeRun(wiring, keys, run)
    ensures var j := run[|run| - 1];
            && j.flows.Keys == keys && (forall t | t in j.out :: t.0 in keys)
            && forall k | k in keys ::
                 var fed := Fed(j.flows[k].chain);
                 && Branch(j.out, k) <= Compose(wiring(k), fed)
                 && (j.outClosed ==>
                       && j.flows[k].returned && j.flows[k].chain.inClosed
                       && Branch(j.out, k) == Compose(wiring(k), fed))
  {
    MergeKeepsInv(wiring, keys, run);
    var j := run[|run| - 1];
    forall k | k in keys ensures Branch(j.out, k) <= Compose(wiring(k), Fed(j.flows[k].chain)) {
      ContributionIsPrefix(wiring, j, k);
    }
    if j.outClosed {
      JoinIsComplete(wiring, j);
    }
  }
}
