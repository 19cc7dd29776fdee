/** Elements routed by key to flows whose outputs are joined.  Keyed builds a flow when it
    meets a key for the first time (flow/keyed.go:76-95, 131-158); Split followed by Merge
    has its flows from the start (flow/util.go:21-41, 82-105). */
module Routers {
  import opened Sequences
  import opened Stages
  import opened Chains
  import opened Shuffles
  import opened Joins

  // key: the key selector, or Split's predicate.  wiring: the stages of a key's flow.
  // fixed: the keys of the flows that exist from the start; None builds flows on demand
  // and closes the output only after the router has closed all of them.
  datatype Routing<!K, !V> = Routing(key: Any<V> -> K, wiring: Wiring<K, V>, fixed: Option<set<K>>)

  // The routing goroutine: receiving, holding an element for its key's flow, closing the
  // flows one by one, or past its loop.
  datatype Router<K, V> = Receiving | Holding(x: Any<V>) | Closing(left: set<K>) | Waiting

  datatype State<K, V> = State(
    input: seq<Any<V>>,      // what upstream will still send
    router: Router<K, V>,
    join: Join<K, V>,
    routed: seq<Any<V>>)     // history: the elements handed to a flow

  ghost predicate IsRouting<K(!new), V(!new)>(r: Routing<K, V>) {
    && (forall k :: r.wiring(k) != [])
    && (r.fixed.Some? ==> r.fixed.value != {} && forall x :: r.key(x) in r.fixed.value)
  }

  ghost predicate Init<K, V>(r: Routing<K, V>, input: seq<Any<V>>, s: State<K, V>) {
    s == State(input, Receiving, NewJoin(r.wiring, if r.fixed.Some? then r.fixed.value else {}), [])
  }

  ghost predicate Receives<K, V>(s: State<K, V>, s': State<K, V>) {
    && s.router == Receiving && s.input != []
    && s' == s.(router := Holding(s.input[0]), input := s.input[1..])
  }

  ghost predicate Builds<K, V>(r: Routing<K, V>, s: State<K, V>, s': State<K, V>) {
    && r.fixed.None? && s.router.Holding?
    && Opens(r.wiring, s.join, s'.join, r.key(s.router.x))
    && s' == s.(join := s'.join)
  }

  ghost predicate Routes<K, V>(r: Routing<K, V>, s: State<K, V>, s': State<K, V>) {
    && s.router.Holding?
    && FeedsFlow(r.wiring, s.join, s'.join, r.key(s.router.x), s.router.x)
    && s' == s.(router := Receiving, join := s'.join, routed := s.routed + [s.router.x])
  }

  ghost predicate InputEnds<K, V>(s: State<K, V>, s': State<K, V>) {
    s.router == Receiving && s.input == [] && s' == s.(router := Closing(s.join.flows.Keys))
  }

  ghost predicate ClosesOne<K, V>(s: State<K, V>, s': State<K, V>, k: K) {
    && s.router.Closing? && k in s.router.left && ClosesFlow(s.join, s'.join, k)
    && s' == s.(router := Closing(s.router.left - {k}), join := s'.join)
  }

  ghost predicate Waits<K, V>(s: State<K, V>, s': State<K, V>) {
    s.router == Closing({}) && s' == s.(router := Waiting)
  }

  ghost predicate ClosesOut<K, V>(r: Routing<K, V>, s: State<K, V>, s': State<K, V>) {
    && (r.fixed.None? ==> s.router == Waiting)
    && OutCloses(s.join, s'.join) && s' == s.(join := s'.join)
  }

  ghost predicate FlowsMove<K, V>(r: Routing<K, V>, s: State<K, V>, s': State<K, V>, k: K) {
    JoinMoves(r.wiring, s.join, s'.join, k) && s' == s.(join := s'.join)
  }

  ghost predicate Next<K(!new), V(!new)>(r: Routing<K, V>, s: State<K, V>, s': State<K, V>) {
    || Receives(s, s') || Builds(r, s, s') || Routes(r, s, s')
    || InputEnds(s, s') || Waits(s, s') || ClosesOut(r, s, s')
    || (exists k :: ClosesOne(s, s', k)) || (exists k :: FlowsMove(r, s, s', k))
  }

  ghost predicate IsRun<K(!new), V(!new)>(r: Routing<K, V>, input: seq<Any<V>>, run: seq<State<K, V>>) {
    && run != [] && Init(r, input, run[0])
    && forall i | 0 < i < |run| :: Next(r, run[i - 1], run[i])
  }

  ghost function Last<K, V>(run: seq<State<K, V>>): State<K, V>
    requires run != []
  {
    run[|run| - 1]
  }

  // ---------- the invariant ----------

  ghost function Hand<K, V>(router: Router<K, V>): seq<Any<V>> {
    if router.Holding? then [router.x] else []
  }

  ghost predicate IsClosed<K, V>(router: Router<K, V>, k: K) {
    router == Waiting || (router.Closing? && k !in router.left)
  }

  ghost predicate RouterInv<K(!new), V(!new)>(r: Routing<K, V>, input: seq<Any<V>>, s: State<K, V>) {
    && s.routed + Hand(s.router) + s.input == input
    && (s.router.Closing? || s.router.Waiting? ==> s.input == [])
    && (s.router.Closing? ==> s.router.left <= s.join.flows.Keys)
    && (r.fixed.Some? ==> s.join.flows.Keys == r.fixed.value)
    && (r.fixed.None? && s.join.outClosed ==> s.router == Waiting)
  }

  ghost predicate FeedInv<K(!new), V(!new)>(r: Routing<K, V>, s: State<K, V>) {
    && (forall k | k in s.join.flows :: Fed(s.join.flows[k].chain) == Filter(s.routed, HasKey(r.key, k)))
    && (forall k | k in s.join.flows :: s.join.flows[k].chain.inClosed <==> IsClosed(s.router, k))
    && (forall x | x in s.routed :: r.key(x) in s.join.flows)
    && (r.fixed.None? ==> forall k | k in s.join.flows :: exists x :: x in s.routed + Hand(s.router) && r.key(x) == k)
  }

  ghost predicate Inv<K(!new), V(!new)>(r: Routing<K, V>, input: seq<Any<V>>, s: State<K, V>) {
    JoinInv(r.wiring, s.join) && RouterInv(r, input, s) && FeedInv(r, s)
  }

  lemma InitInv<K(!new), V(!new)>(r: Routing<K, V>, input: seq<Any<V>>, s: State<K, V>)
    requires IsRouting(r) && Init(r, input, s)
    ensures Inv(r, input, s)
  {
    var keys := if r.fixed.Some? then r.fixed.value else {};
    assert s.join == NewJoin(r.wiring, keys) && s.join.flows.Keys == keys;
    NewJoinInv(r.wiring, keys);
    NewFlowsAreOpen(r, keys);
    assert s.routed + [] + s.input == input;
  }

  lemma NewFlowsAreOpen<K(!new), V(!new)>(r: Routing<K, V>, keys: set<K>)
    ensures forall k | k in keys :: !NewJoin(r.wiring, keys).flows[k].chain.inClosed
  {
  }

  lemma BuildsKeepsInv<K(!new), V(!new)>(r: Routing<K, V>, input: seq<Any<V>>, s: State<K, V>, s': State<K, V>)
    requires IsRouting(r) && Inv(r, input, s) && Builds(r, s, s')
    ensures Inv(r, input, s')
  {
    var k := r.key(s.router.x);
    OpensKeepsInv(r.wiring, s.join, s'.join, k);
    FilterNone(s.routed, HasKey(r.key, k));
    assert s.router.x in s'.routed + Hand(s'.router);
  }

  lemma RoutesKeepsRouter<K(!new), V(!new)>(r: Routing<K, V>, input: seq<Any<V>>, s: State<K, V>, s': State<K, V>)
    requires RouterInv(r, input, s) && Routes(r, s, s')
    ensures RouterInv(r, input, s') && s'.routed + Hand(s'.router) == s.routed + Hand(s.router)
  {
  }

  lemma RoutesFeeds<K(!new), V(!new)>(r: Routing<K, V>, s: State<K, V>, s': State<K, V>, k: K)
    requires Routes(r, s, s') && k in s.join.flows
    requires var j := r.key(s.router.x); Fed(s'.join.flows[j].chain) == Fed(s.join.flows[j].chain) + [s.router.x]
    requires Fed(s.join.flows[k].chain) == Filter(s.routed, HasKey(r.key, k))
    ensures Fed(s'.join.flows[k].chain) == Filter(s'.routed, HasKey(r.key, k))
    ensures s'.join.flows[k].chain.inClosed == s.join.flows[k].chain.inClosed
  {
    FilterSnoc(s.routed, s.router.x, HasKey(r.key, k));
  }

  lemma RoutesKeepsKeys<K(!new), V(!new)>(r: Routing<K, V>, s: State<K, V>, s': State<K, V>)
    requires Routes(r, s, s')
    ensures s'.join.flows.Keys == s.join.flows.Keys
    ensures forall x | x in s'.routed :: x in s.routed || r.key(x) in s'.join.flows
  {
  }

  lemma RoutesKeepsFeed<K(!new), V(!new)>(r: Routing<K, V>, input: seq<Any<V>>, s: State<K, V>, s': State<K, V>)
    requires RouterInv(r, input, s) && FeedInv(r, s) && Routes(r, s, s')
    requires var k := r.key(s.router.x); Fed(s'.join.flows[k].chain) == Fed(s.join.flows[k].chain) + [s.router.x]
    ensures FeedInv(r, s')
  {
    RoutesKeepsRouter(r, input, s, s');
    RoutesKeepsKeys(r, s, s');
    assert forall k :: k in s'.join.flows <==> k in s.join.flows;
    forall k | k in s'.join.flows
      ensures Fed(s'.join.flows[k].chain) == Filter(s'.routed, HasKey(r.key, k))
      ensures s'.join.flows[k].chain.inClosed == s.join.flows[k].chain.inClosed
    {
      RoutesFeeds(r, s, s', k);
    }
  }

  lemma RoutesKeepsInv<K(!new), V(!new)>(r: Routing<K, V>, input: seq<Any<V>>, s: State<K, V>, s': State<K, V>)
    requires Inv(r, input, s) && Routes(r, s, s')
    ensures Inv(r, input, s')
  {
    FeedsFlowKeepsInv(r.wiring, s.join, s'.join, r.key(s.router.x), s.router.x);
    RoutesKeepsRouter(r, input, s, s');
    RoutesKeepsFeed(r, input, s, s');
  }

  lemma ClosesOneKeepsInv<K(!new), V(!new)>(r: Routing<K, V>, input: seq<Any<V>>, s: State<K, V>, s': State<K, V>, k: K)
    requires Inv(r, input, s) && ClosesOne(s, s', k)
    ensures Inv(r, input, s')
  {
    ClosesFlowKeepsInv(r.wiring, s.join, s'.join, k);
    assert s'.join.flows == s.join.flows[k := s'.join.flows[k]];
    assert s'.join.flows[k].chain.inClosed && IsClosed(s'.router, k);
    assert RouterInv(r, input, s') && FeedInv(r, s') by {
      forall l | l in s'.join.flows
        ensures Fed(s'.join.flows[l].chain) == Filter(s'.routed, HasKey(r.key, l))
                && (s'.join.flows[l].chain.inClosed <==> IsClosed(s'.router, l))
      {
        if l != k {
          assert s'.join.flows[l] == s.join.flows[l];
        }
      }
    }
  }

  lemma FlowsMoveKeepsInv<K(!new), V(!new)>(r: Routing<K, V>, input: seq<Any<V>>, s: State<K, V>, s': State<K, V>, k: K)
    requires Inv(r, input, s) && FlowsMove(r, s, s', k)
    ensures Inv(r, input, s')
  {
    JoinMovesKeepsInv(r.wiring, s.join, s'.join, k);
    forall l | l in s'.join.flows
      ensures Fed(s'.join.flows[l].chain) == Filter(s'.routed, HasKey(r.key, l))
              && (s'.join.flows[l].chain.inClosed <==> IsClosed(s'.router, l))
    {
      assert SameFeed(s.join.flows[l].chain, s'.join.flows[l].chain);
    }
  }

  // The steps of the routing goroutine that leave the flows alone.
  lemma QuietStepKeepsInv<K(!new), V(!new)>(r: Routing<K, V>, input: seq<Any<V>>, s: State<K, V>, s': State<K, V>)
    requires RouterInv(r, input, s) && FeedInv(r, s)
    requires Receives(s, s') || InputEnds(s, s') || Waits(s, s')
    ensures RouterInv(r, input, s') && FeedInv(r, s')
  {
    if Receives(s, s') {
      assert s.routed + [] + s.input == s.routed + [s.input[0]] + s'.input;
      forall x | x in s.routed + Hand(s.router) ensures x in s'.routed + Hand(s'.router) {
        assert s.routed + Hand(s.router) == s.routed;
      }
    }
  }

  lemma ClosesOutKeepsInv<K(!new), V(!new)>(r: Routing<K, V>, input: seq<Any<V>>, s: State<K, V>, s': State<K, V>)
    requires RouterInv(r, input, s) && FeedInv(r, s) && ClosesOut(r, s, s')
    ensures RouterInv(r, input, s') && FeedInv(r, s')
  {
    assert s'.join.flows == s.join.flows;
  }

  lemma NextKeepsInv<K(!new), V(!new)>(r: Routing<K, V>, input: seq<Any<V>>, s: State<K, V>, s': State<K, V>)
    requires IsRouting(r) && Inv(r, input, s) && Next(r, s, s')
    ensures Inv(r, input, s')
  {
    if Receives(s, s') || InputEnds(s, s') || Waits(s, s') {
      QuietStepKeepsInv(r, input, s, s');
    } else if Builds(r, s, s') {
      BuildsKeepsInv(r, input, s, s');
    } else if Routes(r, s, s') {
      RoutesKeepsInv(r, input, s, s');
    } else if ClosesOut(r, s, s') {
      OutClosesKeepsInv(r.wiring, s.join, s'.join);
      ClosesOutKeepsInv(r, input, s, s');
    } else if k :| ClosesOne(s, s', k) {
      ClosesOneKeepsInv(r, input, s, s', k);
    } else {
      var k :| FlowsMove(r, s, s', k);
      FlowsMoveKeepsInv(r, input, s, s', k);
    }
  }

  lemma {:induction false} RunKeepsInv<K(!new), V(!new)>(r: Routing<K, V>, input: seq<Any<V>>, run: seq<State<K, V>>)
    requires IsRouting(r) && IsRun(r, input, run)
    ensures Inv(r, input, Last(run))
  {
    if |run| > 1 {
      RunKeepsInv(r, input, run[..|run| - 1]);
      NextKeepsInv(r, input, run[|run| - 2], run[|run| - 1]);
    } else {
      InitInv(r, input, run[0]);
    }
  }

  // ---------- the theorems ----------

  lemma {:induction false} ComposeNothing<V>(gs: seq<Stage<V>>, j: nat)
    requires j <= |gs|
    ensures Level(gs, [], j) == []
  {
    if j > 0 {
      ComposeNothing(gs, j - 1);
    }
  }

  lemma RoutedIsPrefix<K(!new), V(!new)>(r: Routing<K, V>, input: seq<Any<V>>, s: State<K, V>, k: K)
    requires RouterInv(r, input, s)
    ensures Filter(s.routed, HasKey(r.key, k)) <= Filter(input, HasKey(r.key, k))
  {
    assert input == s.routed + (Hand(s.router) + s.input);
    FilterAppend(s.routed, Hand(s.router) + s.input, HasKey(r.key, k));
  }

  // At every moment the output holds, for each key, a prefix of what the key's own
  // pipeline makes of the input elements with that key, in order.
  lemma KeysAreSeparate<K(!new), V(!new)>(r: Routing<K, V>, input: seq<Any<V>>, run: seq<State<K, V>>, k: K)
    requires IsRouting(r) && IsRun(r, input, run)
    ensures Branch(Last(run).join.out, k) <= Compose(r.wiring(k), Filter(input, HasKey(r.key, k)))
  {
    RunKeepsInv(r, input, run);
    var s := Last(run);
    var mine := Filter(s.routed, HasKey(r.key, k));
    if k in s.join.flows {
      assert Branch(s.join.out, k) <= Compose(r.wiring(k), mine) by {
        ContributionIsPrefix(r.wiring, s.join, k);
      }
      RoutedIsPrefix(r, input, s, k);
      ComposeGrows(r.wiring(k), mine, Filter(input, HasKey(r.key, k)));
    } else {
      BranchOfStranger(s.join.out, k);
    }
  }

  // Once the output is closed it is a shuffle of separate pipelines, one for each key:
  // each applied to exactly the input elements with its key, in order.  A flow built on
  // demand exists for exactly the keys of the input, and for each of them once.
  lemma RoutingIsCorrect<K(!new), V(!new)>(r: Routing<K, V>, input: seq<Any<V>>, run: seq<State<K, V>>)
    requires IsRouting(r) && IsRun(r, input, run) && Last(run).join.outClosed
    ensures forall k :: Branch(Last(run).join.out, k) == Compose(r.wiring(k), Filter(input, HasKey(r.key, k)))
    ensures r.fixed.None? ==> forall k :: k in Last(run).join.flows <==> exists x :: x in input && r.key(x) == k
  {
    RunKeepsInv(r, input, run);
    var s := Last(run);
    JoinIsComplete(r.wiring, s.join);
    AllIsRouted(r, input, s);
    forall k ensures Branch(s.join.out, k) == Compose(r.wiring(k), Filter(input, HasKey(r.key, k))) {
      if k !in s.join.flows {
        FilterNone(input, HasKey(r.key, k));
        ComposeNothing(r.wiring(k), |r.wiring(k)|);
      }
    }
  }

  lemma AllIsRouted<K(!new), V(!new)>(r: Routing<K, V>, input: seq<Any<V>>, s: State<K, V>)
    requires IsRouting(r) && Inv(r, input, s) && s.join.outClosed
    requires forall k | k in s.join.flows :: s.join.flows[k].chain.inClosed
    ensures s.routed == input && !s.router.Holding?
  {
    if r.fixed.Some? {
      var k :| k in r.fixed.value;
      assert IsClosed(s.router, k);
    }
    assert s.routed + [] + [] == s.routed;
  }

  // No forwarder sends on the output once it is closed.
  lemma RoutingNeverSendsLate<K(!new), V(!new)>(r: Routing<K, V>, input: seq<Any<V>>, run: seq<State<K, V>>, k: K)
    requires IsRouting(r) && IsRun(r, input, run) && Last(run).join.outClosed
    ensures forall j :: !ForwarderSends(Last(run).join, j, k)
  {
    RunKeepsInv(r, input, run);
    forall j ensures !ForwarderSends(Last(run).join, j, k) {
      if ForwarderSends(Last(run).join, j, k) {
        NoSendAfterClose(r.wiring, Last(run).join, j, k);
        assert false;
      }
    }
  }

  // Some goroutine can move until the output is closed, given a consumer that reads on.
  lemma RoutingCanMove<K(!new), V(!new)>(r: Routing<K, V>, input: seq<Any<V>>, run: seq<State<K, V>>)
    requires IsRouting(r) && IsRun(r, input, run) && !Last(run).join.outClosed
    ensures exists s' :: Next(r, Last(run), s')
  {
    RunKeepsInv(r, input, run);
    var s := Last(run);
    var s' := s;
    match s.router {
      case Receiving =>
        s' := if s.input != [] then s.(router := Holding(s.input[0]), input := s.input[1..])
              else s.(router := Closing(s.join.flows.Keys));
        assert Receives(s, s') || InputEnds(s, s');
        assert Next(r, s, s');
      case Holding(x) =>
        s' := HoldingCanMove(r, input, s);
      case Closing(left) =>
        s' := ClosingCanMove(r, input, s);
      case Waiting =>
        s' := WaitingCanMove(r, input, s);
    }
  }

  lemma ClosingCanMove<K(!new), V(!new)>(r: Routing<K, V>, input: seq<Any<V>>, s: State<K, V>) returns (s': State<K, V>)
    requires Inv(r, input, s) && s.router.Closing?
    ensures Next(r, s, s')
  {
    var left := s.router.left;
    if left == {} {
      s' := s.(router := Waiting);
      assert Waits(s, s');
    } else {
      var k :| k in left;
      assert !IsClosed(s.router, k);
      var flow := s.join.flows[k];
      s' := s.(router := Closing(left - {k}), join := With(s.join, k, flow.(chain := flow.chain.(inClosed := true))));
      assert ClosesOne(s, s', k);
    }
  }

  lemma HoldingCanMove<K(!new), V(!new)>(r: Routing<K, V>, input: seq<Any<V>>, s: State<K, V>) returns (s': State<K, V>)
    requires IsRouting(r) && Inv(r, input, s) && s.router.Holding? && !s.join.outClosed
    ensures Next(r, s, s')
  {
    var x, k := s.router.x, r.key(s.router.x);
    if k !in s.join.flows {
      s' := s.(join := With(s.join, k, NewFlow(r.wiring(k))).(waitGroup := s.join.waitGroup + 1));
      assert Builds(r, s, s');
    } else {
      assert FlowInv(r.wiring, s.join, k);
      var flow := s.join.flows[k];
      assert !flow.returned by {
        ChainIsDeterministic(r.wiring(k), flow.chain, Fed(flow.chain));
      }
      FlowCanMove(r.wiring, s.join, k);
      if j' :| JoinMoves(r.wiring, s.join, j', k) {
        s' := s.(join := j');
        assert FlowsMove(r, s, s', k);
      } else {
        var c := flow.chain;
        var c' := c.(nodes := c.nodes[0 := Consume(r.wiring(k)[0], c.nodes[0], x)]);
        s' := s.(router := Receiving, routed := s.routed + [x], join := With(s.join, k, flow.(chain := c')));
        assert Routes(r, s, s');
      }
    }
  }

  lemma WaitingCanMove<K(!new), V(!new)>(r: Routing<K, V>, input: seq<Any<V>>, s: State<K, V>) returns (s': State<K, V>)
    requires IsRouting(r) && Inv(r, input, s) && s.router == Waiting && !s.join.outClosed
    ensures Next(r, s, s')
  {
    if s.join.waitGroup == 0 {
      s' := s.(join := s.join.(outClosed := true));
      assert ClosesOut(r, s, s');
    } else {
      var k :| k in LiveKeys(s.join.flows);
      assert IsClosed(s.router, k);
      FlowCanMove(r.wiring, s.join, k);
      var j' :| JoinMoves(r.wiring, s.join, j', k);
      s' := s.(join := j');
      assert FlowsMove(r, s, s', k);
    }
  }

  // ---------- Split and Merge ----------

  ghost function Tagged<K, V>(r: Routing<K, V>, input: seq<Any<V>>): seq<(K, Any<V>)> {
    if input == [] then [] else Tagged(r, input[..|input| - 1]) + [(r.key(input[|input| - 1]), input[|input| - 1])]
  }

  lemma {:induction false} TaggedBranches<K, V>(r: Routing<K, V>, input: seq<Any<V>>, k: K)
    ensures Branch(Tagged(r, input), k) == Filter(input, HasKey(r.key, k))
    ensures Untagged(Tagged(r, input)) == input
  {
    if input != [] {
      var n := |input| - 1;
      TaggedBranches(r, input[..n], k);
      BranchSnoc(Tagged(r, input[..n]), r.key(input[n]), input[n]);
    }
  }

  ghost function SplitBy<V>(test: Any<V> -> bool): Routing<bool, V> {
    Routing(test, _ => [PassThroughStage()], Some({true, false}))
  }

  lemma SplitIsRouting<V(!new)>(test: Any<V> -> bool)
    ensures IsRouting(SplitBy(test))
    ensures forall side :: SplitBy(test).wiring(side) == [PassThroughStage()]
  {
    forall x ensures SplitBy(test).key(x) in SplitBy(test).fixed.value {
      assert SplitBy(test).key(x) == true || SplitBy(test).key(x) == false;
    }
  }

  lemma SplitBranch<V(!new)>(r: Routing<bool, V>, input: seq<Any<V>>, run: seq<State<bool, V>>, k: bool)
    requires IsRouting(r) && IsRun(r, input, run) && Last(run).join.outClosed && r.wiring(k) == [PassThroughStage()]
    ensures Branch(Last(run).join.out, k) == Filter(input, HasKey(r.key, k)) == Branch(Tagged(r, input), k)
    ensures Untagged(Tagged(r, input)) == input
  {
    RoutingIsCorrect(r, input, run);
    PassThroughAlone(Filter(input, HasKey(r.key, k)));
    TaggedBranches(r, input, k);
  }

  // The flow under true carries, in order, the elements that satisfy the predicate, the
  // flow under false those that fail it; merged they are a permutation of the source.
  lemma MergeUndoesSplit<V(!new)>(test: Any<V> -> bool, fails: Any<V> -> bool, input: seq<Any<V>>,
                                  run: seq<State<bool, V>>)
    requires IsRun(SplitBy(test), input, run) && Last(run).join.outClosed
    requires forall x :: fails(x) <==> !test(x)
    ensures Branch(Last(run).join.out, true) == Filter(input, test)
    ensures Branch(Last(run).join.out, false) == Filter(input, fails)
    ensures multiset(Untagged(Last(run).join.out)) == multiset(input)
  {
    var r := SplitBy(test);
    SplitIsRouting(test);
    SplitBranch(r, input, run, true);
    SplitBranch(r, input, run, false);
    FilterSame(input, HasKey(r.key, true), test);
    FilterSame(input, HasKey(r.key, false), fails);
    var out := Last(run).join.out;
    forall side: bool ensures Branch(out, side) == Branch(Tagged(r, input), side) {
      assert side == true || side == false;
    }
    SameBranchesPermute(out, Tagged(r, input));
  }
}
