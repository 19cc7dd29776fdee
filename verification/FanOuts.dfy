/** FanOut: every element of the source sent to every flow in turn (flow/util.go:43-61),
    and the flows' outputs merged. */
module FanOuts {
  import opened Stages
  import opened Chains
  import opened Shuffles
  import opened Joins

  // The goroutine that distributes: receiving, about to send its element to flow next, or
  // closing the flows, next one first.
  datatype Distributor<V> = Receiving | Sending(x: Any<V>, next: nat) | Closing(next: nat)

  datatype State<V> = State(
    input: seq<Any<V>>,           // what the source will still send
    distributor: Distributor<V>,
    join: Join<nat, V>,
    spread: seq<Any<V>>)          // history: the elements that every flow has received

  // The indices of n flows.
  ghost function Indices(n: nat): (r: set<nat>)
    ensures forall i: nat :: i in r <==> i < n
  {
    if n == 0 then {} else Indices(n - 1) + {n - 1}
  }

  ghost predicate Init<V>(wiring: Wiring<nat, V>, n: nat, input: seq<Any<V>>, s: State<V>) {
    s == State(input, Receiving, NewJoin(wiring, Indices(n)), [])
  }

  ghost predicate Receives<V>(s: State<V>, s': State<V>) {
    && s.distributor == Receiving && s.input != []
    && s' == s.(distributor := Sending(s.input[0], 0), input := s.input[1..])
  }

  ghost predicate SendsToNext<V>(wiring: Wiring<nat, V>, n: nat, s: State<V>, s': State<V>) {
    && s.distributor.Sending? && s.distributor.next < n
    && FeedsFlow(wiring, s.join, s'.join, s.distributor.next, s.distributor.x)
    && s' == s.(distributor := Sending(s.distributor.x, s.distributor.next + 1), join := s'.join)
  }

  ghost predicate HasSentToAll<V>(n: nat, s: State<V>, s': State<V>) {
    && s.distributor.Sending? && s.distributor.next == n
    && s' == s.(distributor := Receiving, spread := s.spread + [s.distributor.x])
  }

  ghost predicate InputEnds<V>(s: State<V>, s': State<V>) {
    s.distributor == Receiving && s.input == [] && s' == s.(distributor := Closing(0))
  }

  ghost predicate ClosesNext<V>(n: nat, s: State<V>, s': State<V>) {
    && s.distributor.Closing? && s.distributor.next < n
    && ClosesFlow(s.join, s'.join, s.distributor.next)
    && s' == s.(distributor := Closing(s.distributor.next + 1), join := s'.join)
  }

  ghost predicate FlowsMove<V>(wiring: Wiring<nat, V>, s: State<V>, s': State<V>, k: nat) {
    JoinMoves(wiring, s.join, s'.join, k) && s' == s.(join := s'.join)
  }

  ghost predicate ClosesOut<V>(s: State<V>, s': State<V>) {
    OutCloses(s.join, s'.join) && s' == s.(join := s'.join)
  }

  ghost predicate Next<V>(wiring: Wiring<nat, V>, n: nat, s: State<V>, s': State<V>) {
    || Receives(s, s') || SendsToNext(wiring, n, s, s') || HasSentToAll(n, s, s')
    || InputEnds(s, s') || ClosesNext(n, s, s') || ClosesOut(s, s')
    || exists k: nat :: FlowsMove(wiring, s, s', k)
  }

  ghost predicate IsRun<V>(wiring: Wiring<nat, V>, n: nat, input: seq<Any<V>>, run: seq<State<V>>) {
    && run != [] && Init(wiring, n, input, run[0])
    && forall i | 0 < i < |run| :: Next(wiring, n, run[i - 1], run[i])
  }

  ghost function Last<V>(run: seq<State<V>>): State<V>
    requires run != []
  {
    run[|run| - 1]
  }

  // ---------- the invariant ----------

  ghost predicate FlowGot<V>(n: nat, s: State<V>, k: nat)
    requires k in s.join.flows
  {
    var chain := s.join.flows[k].chain;
    && Fed(chain) == s.spread + (if s.distributor.Sending? && k < s.distributor.next then [s.distributor.x] else [])
    && (chain.inClosed <==> s.distributor.Closing? && k < s.distributor.next)
  }

  ghost predicate SpreadInv<V>(n: nat, input: seq<Any<V>>, s: State<V>) {
    && s.join.flows.Keys == Indices(n)
    && (forall k: nat | k < n :: FlowGot(n, s, k))
    && (s.distributor != Receiving ==> s.distributor.next <= n)
    && (s.distributor.Closing? ==> s.input == [])
    && s.spread + (if s.distributor.Sending? then [s.distributor.x] else []) + s.input == input
  }

  ghost predicate Inv<V>(wiring: Wiring<nat, V>, n: nat, input: seq<Any<V>>, s: State<V>) {
    JoinInv(wiring, s.join) && SpreadInv(n, input, s)
  }

  lemma SendsKeepsSpread<V>(wiring: Wiring<nat, V>, n: nat, input: seq<Any<V>>, s: State<V>, s': State<V>)
    requires SpreadInv(n, input, s) && SendsToNext(wiring, n, s, s')
    requires var k := s.distributor.next;
             Fed(s'.join.flows[k].chain) == Fed(s.join.flows[k].chain) + [s.distributor.x]
    ensures SpreadInv(n, input, s')
  {
    forall l: nat | l < n ensures FlowGot(n, s', l) {
      assert FlowGot(n, s, l);
      if l == s.distributor.next {
        assert s.spread + [] == s.spread;
      }
    }
  }

  lemma ClosesKeepsSpread<V>(n: nat, input: seq<Any<V>>, s: State<V>, s': State<V>)
    requires SpreadInv(n, input, s) && ClosesNext(n, s, s')
    ensures SpreadInv(n, input, s')
  {
    forall l: nat | l < n ensures FlowGot(n, s', l) {
      assert FlowGot(n, s, l);
    }
  }

  lemma ReceivesKeepsSpread<V>(n: nat, input: seq<Any<V>>, s: State<V>, s': State<V>)
    requires SpreadInv(n, input, s) && Receives(s, s')
    ensures SpreadInv(n, input, s')
  {
    assert s.spread + [] + s.input == s.spread + [s.input[0]] + s'.input;
    forall l: nat | l < n ensures FlowGot(n, s', l) {
      assert FlowGot(n, s, l);
    }
  }

  lemma HasSentToAllKeepsSpread<V>(n: nat, input: seq<Any<V>>, s: State<V>, s': State<V>)
    requires SpreadInv(n, input, s) && HasSentToAll(n, s, s')
    ensures SpreadInv(n, input, s')
  {
    assert s'.spread + [] == s'.spread;
    forall l: nat | l < n ensures FlowGot(n, s', l) {
      assert FlowGot(n, s, l);
    }
  }

  // The steps that move no element of the source.
  lemma QuietStepKeepsSpread<V>(n: nat, input: seq<Any<V>>, s: State<V>, s': State<V>)
    requires SpreadInv(n, input, s) && (InputEnds(s, s') || ClosesOut(s, s'))
    ensures SpreadInv(n, input, s')
  {
    forall l: nat | l < n ensures FlowGot(n, s', l) {
      assert FlowGot(n, s, l);
    }
  }

  lemma SameFeedsKeepsSpread<V>(n: nat, input: seq<Any<V>>, s: State<V>, s': State<V>)
    requires SpreadInv(n, input, s) && SameFeeds(s.join, s'.join) && s' == s.(join := s'.join)
    ensures SpreadInv(n, input, s')
  {
    forall l: nat | l < n ensures FlowGot(n, s', l) {
      assert FlowGot(n, s, l);
      assert SameFeed(s.join.flows[l].chain, s'.join.flows[l].chain);
    }
  }

  lemma NextKeepsInv<V>(wiring: Wiring<nat, V>, n: nat, input: seq<Any<V>>, s: State<V>, s': State<V>)
    requires Inv(wiring, n, input, s) && Next(wiring, n, s, s')
    ensures Inv(wiring, n, input, s')
  {
    if SendsToNext(wiring, n, s, s') {
      FeedsFlowKeepsInv(wiring, s.join, s'.join, s.distributor.next, s.distributor.x);
      SendsKeepsSpread(wiring, n, input, s, s');
    } else if ClosesNext(n, s, s') {
      ClosesFlowKeepsInv(wiring, s.join, s'.join, s.distributor.next);
      ClosesKeepsSpread(n, input, s, s');
    } else if k: nat :| FlowsMove(wiring, s, s', k) {
      JoinMovesKeepsInv(wiring, s.join, s'.join, k);
      SameFeedsKeepsSpread(n, input, s, s');
    } else if Receives(s, s') {
      ReceivesKeepsSpread(n, input, s, s');
    } else if HasSentToAll(n, s, s') {
      HasSentToAllKeepsSpread(n, input, s, s');
    } else {
      QuietStepKeepsSpread(n, input, s, s');
      if ClosesOut(s, s') {
        OutClosesKeepsInv(wiring, s.join, s'.join);
      }
    }
  }

  lemma InitInv<V>(wiring: Wiring<nat, V>, n: nat, input: seq<Any<V>>, s: State<V>)
    requires (forall k :: wiring(k) != []) && Init(wiring, n, input, s)
    ensures Inv(wiring, n, input, s)
  {
    var keys := Indices(n);
    assert JoinInv(wiring, s.join) by {
      NewJoinInv(wiring, keys);
    }
    forall k: nat | k < n ensures FlowGot(n, s, k) {
      assert k in keys;
      NewChainInv(wiring(k));
    }
    assert s.spread + [] + s.input == input;
  }

  lemma {:induction false} RunKeepsInv<V>(wiring: Wiring<nat, V>, n: nat, input: seq<Any<V>>, run: seq<State<V>>)
    requires (forall k :: wiring(k) != []) && IsRun(wiring, n, input, run)
    ensures Inv(wiring, n, input, Last(run))
  {
    if |run| > 1 {
      RunKeepsInv(wiring, n, input, run[..|run| - 1]);
      NextKeepsInv(wiring, n, input, run[|run| - 2], run[|run| - 1]);
    } else {
      InitInv(wiring, n, input, run[0]);
    }
  }

  // ---------- the theorems ----------

  lemma FlowGotPrefix<V>(wiring: Wiring<nat, V>, n: nat, input: seq<Any<V>>, s: State<V>, k: nat)
    requires Inv(wiring, n, input, s) && k < n
    ensures Fed(s.join.flows[k].chain) <= input
  {
    assert FlowGot(n, s, k);
    assert s.spread + [] == s.spread;
  }

  // Every flow has received a prefix of the source, an earlier flow at most one element
  // more than a later one; what the flow has passed on is a prefix of its pipeline's
  // function of the source, and all of it once the flow is closed.
  lemma FanOutCopies<V>(wiring: Wiring<nat, V>, n: nat, input: seq<Any<V>>, run: seq<State<V>>, i: nat, j: nat)
    requires (forall k :: wiring(k) != []) && IsRun(wiring, n, input, run) && i <= j < n
    ensures Last(run).join.flows.Keys == Indices(n)
    ensures var a, b := Last(run).join.flows[i].chain, Last(run).join.flows[j].chain;
            && Fed(b) <= Fed(a) <= input && |Fed(a)| <= |Fed(b)| + 1
            && a.emitted <= Compose(wiring(i), input)
            && (OutClosed(a) ==> a.emitted == Compose(wiring(i), input))
  {
    var s := Last(run);
    assert Inv(wiring, n, input, s) by {
      RunKeepsInv(wiring, n, input, run);
    }
    var a := s.join.flows[i].chain;
    assert FlowGot(n, s, i) && FlowGot(n, s, j);
    assert FlowInv(wiring, s.join, i);
    assert s.spread + [] == s.spread;
    ChainIsDeterministic(wiring(i), a, input);
  }

  // What the n flows make of the whole source.
  ghost function Results<V>(wiring: Wiring<nat, V>, n: nat, input: seq<Any<V>>): (r: seq<seq<Any<V>>>)
    ensures |r| == n && forall k: nat | k < n :: r[k] == Compose(wiring(k), input)
  {
    if n == 0 then [] else Results(wiring, n - 1, input) + [Compose(wiring(n - 1), input)]
  }

  lemma ClosedFlowGotAll<V>(wiring: Wiring<nat, V>, n: nat, input: seq<Any<V>>, s: State<V>, k: nat)
    requires Inv(wiring, n, input, s) && k < n && s.join.flows[k].chain.inClosed
    ensures Fed(s.join.flows[k].chain) == input
  {
    assert FlowGot(n, s, k);
    assert s.spread + [] + [] == s.spread;
  }

  lemma ClosedBranchHasAll<V>(wiring: Wiring<nat, V>, n: nat, input: seq<Any<V>>, s: State<V>, k: nat)
    requires Inv(wiring, n, input, s) && s.join.outClosed && k < n
    ensures Branch(s.join.out, k) == Compose(wiring(k), input)
  {
    assert k in s.join.flows;
    JoinIsComplete(wiring, s.join);
    ClosedFlowGotAll(wiring, n, input, s, k);
  }

  lemma ClosedOutHasAll<V>(wiring: Wiring<nat, V>, n: nat, input: seq<Any<V>>, s: State<V>)
    requires Inv(wiring, n, input, s) && s.join.outClosed
    ensures IsShuffle(s.join.out, Results(wiring, n, input))
  {
    assert forall t | t in s.join.out :: t.0 in Indices(n);
    forall k: nat | k < n ensures Branch(s.join.out, k) == Compose(wiring(k), input) {
      ClosedBranchHasAll(wiring, n, input, s, k);
    }
  }

  // Merging the flows of a fan-out gives, at close, a shuffle of every flow's whole result:
  // of plain copies, each element of the source n times.
  lemma MergeOfFanOut<V>(wiring: Wiring<nat, V>, n: nat, input: seq<Any<V>>, run: seq<State<V>>)
    requires (forall k :: wiring(k) != []) && IsRun(wiring, n, input, run) && Last(run).join.outClosed
    ensures IsShuffle(Last(run).join.out, Results(wiring, n, input))
  {
    RunKeepsInv(wiring, n, input, run);
    ClosedOutHasAll(wiring, n, input, Last(run));
  }

  // ---------- progress ----------

  // Some goroutine can move until the output is closed, given a consumer that reads on.
  lemma FanOutCanMove<V>(wiring: Wiring<nat, V>, n: nat, input: seq<Any<V>>, run: seq<State<V>>)
    requires (forall k :: wiring(k) != []) && IsRun(wiring, n, input, run) && !Last(run).join.outClosed
    ensures exists s' :: Next(wiring, n, Last(run), s')
  {
    RunKeepsInv(wiring, n, input, run);
    var s := Last(run);
    var s' := s;
    match s.distributor {
      case Receiving =>
        s' := if s.input != [] then s.(distributor := Sending(s.input[0], 0), input := s.input[1..])
              else s.(distributor := Closing(0));
        assert Receives(s, s') || InputEnds(s, s');
      case Sending(x, next) =>
        if next == n {
          s' := s.(distributor := Receiving, spread := s.spread + [x]);
          assert HasSentToAll(n, s, s');
        } else {
          s' := SendingCanMove(wiring, n, input, s);
        }
      case Closing(next) =>
        if next < n {
          s' := ClosingCanMove(wiring, n, input, s);
        } else {
          s' := ClosedCanMove(wiring, n, input, s);
        }
    }
    assert Next(wiring, n, s, s');
  }

  lemma SendingCanMove<V>(wiring: Wiring<nat, V>, n: nat, input: seq<Any<V>>, s: State<V>) returns (s': State<V>)
    requires Inv(wiring, n, input, s) && s.distributor.Sending? && s.distributor.next < n
    ensures Next(wiring, n, s, s')
  {
    var x, k := s.distributor.x, s.distributor.next;
    var flow := s.join.flows[k];
    assert FlowGot(n, s, k) && FlowInv(wiring, s.join, k);
    assert !flow.returned by {
      ChainIsDeterministic(wiring(k), flow.chain, Fed(flow.chain));
    }
    FlowCanMove(wiring, s.join, k);
    if j' :| JoinMoves(wiring, s.join, j', k) {
      s' := s.(join := j');
      assert FlowsMove(wiring, s, s', k);
    } else {
      var c := flow.chain;
      var c' := c.(nodes := c.nodes[0 := Consume(wiring(k)[0], c.nodes[0], x)]);
      s' := s.(distributor := Sending(x, k + 1), join := With(s.join, k, flow.(chain := c')));
      assert SendsToNext(wiring, n, s, s');
    }
  }

  lemma ClosingCanMove<V>(wiring: Wiring<nat, V>, n: nat, input: seq<Any<V>>, s: State<V>) returns (s': State<V>)
    requires Inv(wiring, n, input, s) && s.distributor.Closing? && s.distributor.next < n
    ensures Next(wiring, n, s, s')
  {
    var k := s.distributor.next;
    assert FlowGot(n, s, k);
    var flow := s.join.flows[k];
    s' := s.(distributor := Closing(k + 1), join := With(s.join, k, flow.(chain := flow.chain.(inClosed := true))));
    assert ClosesNext(n, s, s');
  }

  lemma ClosedCanMove<V>(wiring: Wiring<nat, V>, n: nat, input: seq<Any<V>>, s: State<V>) returns (s': State<V>)
    requires Inv(wiring, n, input, s) && s.distributor == Closing(n) && !s.join.outClosed
    ensures Next(wiring, n, s, s')
  {
    if s.join.waitGroup == 0 {
      s' := s.(join := s.join.(outClosed := true));
      assert ClosesOut(s, s');
    } else {
      var k :| k in LiveKeys(s.join.flows);
      assert k in Indices(n) && FlowGot(n, s, k);
      FlowCanMove(wiring, s.join, k);
      var j' :| JoinMoves(wiring, s.join, j', k);
      s' := s.(join := j');
      assert FlowsMove(wiring, s, s', k);
    }
  }
}
