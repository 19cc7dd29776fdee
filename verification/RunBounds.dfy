/** Every run of Keyed, Split, RoundRobin and FanOut with their flows merged is finite: each
    step adds to a measure that the input limits. */
module RunBounds {
  import opened Sequences
  import opened Stages
  import opened Chains
  import opened Shuffles
  import opened Joins
  import opened JoinBounds
  import opened Sums
  import FanOuts
  import RoundRobins
  import Routers

  // ---------- Keyed and Split ----------

  ghost function Phase<K, V>(router: Routers.Router<K, V>): nat {
    if router.Waiting? then 2 else if router.Closing? then 1 else 0
  }

  ghost function RoutingWork<K(!new), V>(input: seq<Any<V>>, s: Routers.State<K, V>): int {
    |input| - |s.input| + JoinWork(s.join) + Phase(s.router)
  }

  lemma RoutingStepWorks<K(!new), V(!new)>(r: Routers.Routing<K, V>, input: seq<Any<V>>,
                                           s: Routers.State<K, V>, s': Routers.State<K, V>)
    requires Routers.Next(r, s, s')
    ensures RoutingWork(input, s') > RoutingWork(input, s)
  {
    if Routers.Builds(r, s, s') {
      OpensDoesWork(r.wiring, s.join, s'.join, r.key(s.router.x));
    } else if Routers.Routes(r, s, s') {
      FeedsFlowDoesWork(r.wiring, s.join, s'.join, r.key(s.router.x), s.router.x);
    } else if k :| Routers.ClosesOne(s, s', k) {
      ClosesFlowDoesWork(s.join, s'.join, k);
    } else if k :| Routers.FlowsMove(r, s, s', k) {
      JoinMovesDoesWork(r.wiring, s.join, s'.join, k);
    }
  }

  lemma {:induction false} RoutingRunWorks<K(!new), V(!new)>(r: Routers.Routing<K, V>, input: seq<Any<V>>,
                                                             run: seq<Routers.State<K, V>>, i: nat)
    requires Routers.IsRun(r, input, run) && i < |run|
    ensures i <= RoutingWork(input, run[i])
  {
    if i > 0 {
      RoutingRunWorks(r, input, run, i - 1);
      RoutingStepWorks(r, input, run[i - 1], run[i]);
    }
  }

  // The keys of all the flows there can be.
  ghost function RoutingKeys<K(!new), V>(r: Routers.Routing<K, V>, input: seq<Any<V>>): set<K> {
    if r.fixed.Some? then r.fixed.value else KeysOf(r.key, input)
  }

  ghost function RoutingLimit<K, V>(r: Routers.Routing<K, V>, input: seq<Any<V>>): K -> nat {
    k => FlowLimit(r.wiring(k), Filter(input, HasKey(r.key, k)))
  }

  lemma FlowsHaveKeys<K(!new), V(!new)>(r: Routers.Routing<K, V>, input: seq<Any<V>>, s: Routers.State<K, V>)
    requires Routers.RouterInv(r, input, s) && Routers.FeedInv(r, s)
    ensures s.join.flows.Keys <= RoutingKeys(r, input)
  {
    if r.fixed.None? {
      var seen := s.routed + Routers.Hand(s.router);
      forall k | k in s.join.flows ensures k in KeysOf(r.key, input) {
        var x :| x in seen && r.key(x) == k;
        var i :| 0 <= i < |seen| && seen[i] == x;
        assert input[i] == x;
        KeyIsOf(r.key, input, x);
      }
    }
  }

  lemma RoutingJoinIsLimited<K(!new), V(!new)>(r: Routers.Routing<K, V>, input: seq<Any<V>>, s: Routers.State<K, V>)
    requires Routers.Inv(r, input, s)
    ensures JoinWork(s.join) <= Sum(RoutingKeys(r, input), RoutingLimit(r, input)) + 1
  {
    FlowsHaveKeys(r, input, s);
    forall k | k in s.join.flows ensures FlowWork(s.join.flows[k]) <= RoutingLimit(r, input)(k) {
      Routers.RoutedIsPrefix(r, input, s, k);
      FlowIsLimited(r.wiring, s.join, k, Filter(input, HasKey(r.key, k)));
    }
    JoinIsLimited(s.join, RoutingKeys(r, input), RoutingLimit(r, input));
  }

  // No run of Keyed or Split is longer than this; some goroutine being able to move until
  // then, every schedule that runs on closes the output.
  lemma RoutingRunsAreBounded<K(!new), V(!new)>(r: Routers.Routing<K, V>, input: seq<Any<V>>,
                                                run: seq<Routers.State<K, V>>)
    requires Routers.IsRouting(r) && Routers.IsRun(r, input, run)
    ensures |run| - 1 <= |input| + 3 + Sum(RoutingKeys(r, input), RoutingLimit(r, input))
  {
    RoutingRunWorks(r, input, run, |run| - 1);
    RoutingJoinIsLimited(r, input, Routers.Last(run)) by {
      Routers.RunKeepsInv(r, input, run);
    }
  }

  // ---------- RoundRobin ----------

  ghost function RoundRobinWork<K(!new), V>(input: seq<Any<V>>, s: RoundRobins.State<K, V>): int {
    |input| - |s.input| + JoinWork(s.join)
  }

  lemma RoundRobinStepWorks<K(!new), V>(wiring: Wiring<K, V>, input: seq<Any<V>>,
                                        s: RoundRobins.State<K, V>, s': RoundRobins.State<K, V>)
    requires RoundRobins.Next(wiring, s, s')
    ensures RoundRobinWork(input, s') > RoundRobinWork(input, s)
  {
    if k :| RoundRobins.ReaderSends(wiring, s, s', k) {
      FeedsFlowDoesWork(wiring, s.join, s'.join, k, s.readers[k].x);
    } else if k :| RoundRobins.ReaderEnds(s, s', k) {
      ClosesFlowDoesWork(s.join, s'.join, k);
    } else if k :| RoundRobins.FlowsMove(wiring, s, s', k) {
      JoinMovesDoesWork(wiring, s.join, s'.join, k);
    }
  }

  lemma {:induction false} RoundRobinRunWorks<K(!new), V>(wiring: Wiring<K, V>, keys: set<K>, input: seq<Any<V>>,
                                                          run: seq<RoundRobins.State<K, V>>, i: nat)
    requires RoundRobins.IsRun(wiring, keys, input, run) && i < |run|
    ensures i <= RoundRobinWork(input, run[i])
  {
    if i > 0 {
      RoundRobinRunWorks(wiring, keys, input, run, i - 1);
      RoundRobinStepWorks(wiring, input, run[i - 1], run[i]);
    }
  }

  ghost function Max(a: nat, b: nat): nat {
    if a < b then b else a
  }

  // The most that a flow can do that has received got, whichever of the rest it receives.
  ghost function MostFor<V>(gs: seq<Stage<V>>, got: seq<Any<V>>, rest: seq<Any<V>>): nat
    decreases |rest|
  {
    if rest == [] then FlowLimit(gs, got)
    else Max(MostFor(gs, got, rest[1..]), MostFor(gs, got + [rest[0]], rest[1..]))
  }

  lemma {:induction false} MostForNoMore<V>(gs: seq<Stage<V>>, got: seq<Any<V>>, rest: seq<Any<V>>)
    ensures FlowLimit(gs, got) <= MostFor(gs, got, rest)
    decreases |rest|
  {
    if rest != [] {
      MostForNoMore(gs, got, rest[1..]);
    }
  }

  lemma {:induction false} MostForBranch<K(!new), V>(gs: seq<Stage<V>>, got: seq<Any<V>>, taken: seq<(K, Any<V>)>, k: K,
                                                     rest: seq<Any<V>>)
    ensures FlowLimit(gs, got + Branch(taken, k)) <= MostFor(gs, got, Untagged(taken) + rest)
    decreases |taken|
  {
    if taken == [] {
      assert got + [] == got && [] + rest == rest;
      MostForNoMore(gs, got, rest);
    } else {
      var t, taken' := taken[0], taken[1..];
      var mine: seq<Any<V>> := if t.0 == k then [t.1] else [];
      BranchOfFirst(taken, k);
      assert (Untagged(taken) + rest)[1..] == Untagged(taken') + rest;
      MostForBranch(gs, got + mine, taken', k, rest);
      assert got + Branch(taken, k) == got + mine + Branch(taken', k);
      assert got + [] == got;
    }
  }

  lemma BranchOfFirst<K, V>(taken: seq<(K, V)>, k: K)
    requires taken != []
    ensures Branch(taken, k) == (if taken[0].0 == k then [taken[0].1] else []) + Branch(taken[1..], k)
    ensures Untagged(taken) == [taken[0].1] + Untagged(taken[1..])
  {
    assert taken == [taken[0]] + taken[1..];
    BranchAppend([taken[0]], taken[1..], k);
    BranchSnoc([], taken[0].0, taken[0].1);
    assert [] + [taken[0]] == [taken[0]];
  }

  ghost function RoundRobinLimit<K, V>(wiring: Wiring<K, V>, input: seq<Any<V>>): K -> nat {
    k => MostFor(wiring(k), [], input)
  }

  lemma ReaderIsLimited<K(!new), V>(wiring: Wiring<K, V>, keys: set<K>, input: seq<Any<V>>,
                                    s: RoundRobins.State<K, V>, k: K)
    requires RoundRobins.Inv(wiring, keys, input, s) && k in s.join.flows
    ensures FlowWork(s.join.flows[k]) <= MostFor(wiring(k), [], input)
  {
    assert RoundRobins.ReaderInv(s, k) && FlowInv(wiring, s.join, k);
    FlowIsLimited(wiring, s.join, k, Branch(s.taken, k));
    MostForBranch(wiring(k), [], s.taken, k, s.input);
    assert [] + Branch(s.taken, k) == Branch(s.taken, k);
  }

  lemma RoundRobinJoinIsLimited<K(!new), V>(wiring: Wiring<K, V>, keys: set<K>, input: seq<Any<V>>,
                                            s: RoundRobins.State<K, V>)
    requires RoundRobins.Inv(wiring, keys, input, s)
    ensures JoinWork(s.join) <= Sum(keys, RoundRobinLimit(wiring, input)) + 1
  {
    forall k | k in s.join.flows ensures FlowWork(s.join.flows[k]) <= RoundRobinLimit(wiring, input)(k) {
      ReaderIsLimited(wiring, keys, input, s, k);
    }
    JoinIsLimited(s.join, keys, RoundRobinLimit(wiring, input));
  }

  // No run of a round robin is longer than this, however the readers divide the source.
  lemma RoundRobinRunsAreBounded<K(!new), V>(wiring: Wiring<K, V>, keys: set<K>, input: seq<Any<V>>,
                                             run: seq<RoundRobins.State<K, V>>)
    requires (forall k :: wiring(k) != []) && RoundRobins.IsRun(wiring, keys, input, run)
    ensures |run| - 1 <= |input| + 1 + Sum(keys, RoundRobinLimit(wiring, input))
  {
    RoundRobinRunWorks(wiring, keys, input, run, |run| - 1);
    RoundRobinJoinIsLimited(wiring, keys, input, RoundRobins.Last(run)) by {
      RoundRobins.RunKeepsInv(wiring, keys, input, run);
    }
  }

  // ---------- FanOut ----------

  ghost function FanOutWork<V>(input: seq<Any<V>>, s: FanOuts.State<V>): int {
    |input| - |s.input| + |s.spread| + JoinWork(s.join) + if s.distributor.Closing? then 1 else 0
  }

  lemma FanOutStepWorks<V>(wiring: Wiring<nat, V>, n: nat, input: seq<Any<V>>,
                           s: FanOuts.State<V>, s': FanOuts.State<V>)
    requires FanOuts.Next(wiring, n, s, s')
    ensures FanOutWork(input, s') > FanOutWork(input, s)
  {
    if FanOuts.SendsToNext(wiring, n, s, s') {
      FeedsFlowDoesWork(wiring, s.join, s'.join, s.distributor.next, s.distributor.x);
    } else if FanOuts.ClosesNext(n, s, s') {
      ClosesFlowDoesWork(s.join, s'.join, s.distributor.next);
    } else if k: nat :| FanOuts.FlowsMove(wiring, s, s', k) {
      JoinMovesDoesWork(wiring, s.join, s'.join, k);
    }
  }

  lemma {:induction false} FanOutRunWorks<V>(wiring: Wiring<nat, V>, n: nat, input: seq<Any<V>>,
                                             run: seq<FanOuts.State<V>>, i: nat)
    requires FanOuts.IsRun(wiring, n, input, run) && i < |run|
    ensures i <= FanOutWork(input, run[i])
  {
    if i > 0 {
      FanOutRunWorks(wiring, n, input, run, i - 1);
      FanOutStepWorks(wiring, n, input, run[i - 1], run[i]);
    }
  }

  ghost function FanOutLimit<V>(wiring: Wiring<nat, V>, input: seq<Any<V>>): nat -> nat {
    (k: nat) => FlowLimit(wiring(k), input)
  }

  lemma FanOutJoinIsLimited<V>(wiring: Wiring<nat, V>, n: nat, input: seq<Any<V>>, s: FanOuts.State<V>)
    requires FanOuts.Inv(wiring, n, input, s)
    ensures JoinWork(s.join) <= Sum(FanOuts.Indices(n), FanOutLimit(wiring, input)) + 1
  {
    forall k | k in s.join.flows ensures FlowWork(s.join.flows[k]) <= FanOutLimit(wiring, input)(k) {
      FanOuts.FlowGotPrefix(wiring, n, input, s, k);
      FlowIsLimited(wiring, s.join, k, input);
    }
    JoinIsLimited(s.join, FanOuts.Indices(n), FanOutLimit(wiring, input));
  }

  lemma SpreadIsLimited<V>(n: nat, input: seq<Any<V>>, s: FanOuts.State<V>)
    requires FanOuts.SpreadInv(n, input, s)
    ensures |s.spread| + |s.input| <= |input|
  {
  }

  // No run of a fan-out is longer than this.
  lemma FanOutRunsAreBounded<V>(wiring: Wiring<nat, V>, n: nat, input: seq<Any<V>>, run: seq<FanOuts.State<V>>)
    requires (forall k :: wiring(k) != []) && FanOuts.IsRun(wiring, n, input, run)
    ensures |run| - 1 <= 2 * |input| + 2 + Sum(FanOuts.Indices(n), FanOutLimit(wiring, input))
  {
    FanOutRunWorks(wiring, n, input, run, |run| - 1);
    FanOutIsLimited(wiring, n, input, FanOuts.Last(run)) by {
      FanOuts.RunKeepsInv(wiring, n, input, run);
    }
  }

  lemma FanOutIsLimited<V>(wiring: Wiring<nat, V>, n: nat, input: seq<Any<V>>, s: FanOuts.State<V>)
    requires FanOuts.Inv(wiring, n, input, s)
    ensures FanOutWork(input, s) <= 2 * |input| + 2 + Sum(FanOuts.Indices(n), FanOutLimit(wiring, input))
  {
    SpreadIsLimited(n, input, s);
    FanOutJoinIsLimited(wiring, n, input, s);
  }
}
