/** RoundRobin: flows whose readers compete for one source (flow/util.go:65-80), and whose
    outputs are merged again. */
module RoundRobins {
  import opened Stages
  import opened Chains
  import opened Shuffles
  import opened Joins

  // A flow's reader of the source: receiving, holding an element for its flow, or done,
  // with the flow's input closed.
  datatype Reader<V> = Receiving | Holding(x: Any<V>) | Done

  datatype State<K, V> = State(
    input: seq<Any<V>>,               // what the source will still send
    readers: map<K, Reader<V>>,
    join: Join<K, V>,
    taken: seq<(K, Any<V>)>)          // history: who received which element

  ghost predicate Init<K, V>(wiring: Wiring<K, V>, keys: set<K>, input: seq<Any<V>>, s: State<K, V>) {
    s == State(input, map k | k in keys :: Receiving, NewJoin(wiring, keys), [])
  }

  ghost predicate ReaderTakes<K, V>(s: State<K, V>, s': State<K, V>, k: K) {
    && k in s.readers && s.readers[k] == Receiving && s.input != []
    && s' == s.(readers := s.readers[k := Holding(s.input[0])], input := s.input[1..],
                taken := s.taken + [(k, s.input[0])])
  }

  ghost predicate ReaderSends<K, V>(wiring: Wiring<K, V>, s: State<K, V>, s': State<K, V>, k: K) {
    && k in s.readers && s.readers[k].Holding?
    && FeedsFlow(wiring, s.join, s'.join, k, s.readers[k].x)
    && s' == s.(readers := s.readers[k := Receiving], join := s'.join)
  }

  ghost predicate ReaderEnds<K, V>(s: State<K, V>, s': State<K, V>, k: K) {
    && k in s.readers && s.readers[k] == Receiving && s.input == []
    && ClosesFlow(s.join, s'.join, k)
    && s' == s.(readers := s.readers[k := Done], join := s'.join)
  }

  ghost predicate FlowsMove<K, V>(wiring: Wiring<K, V>, s: State<K, V>, s': State<K, V>, k: K) {
    JoinMoves(wiring, s.join, s'.join, k) && s' == s.(join := s'.join)
  }

  ghost predicate ClosesOut<K, V>(s: State<K, V>, s': State<K, V>) {
    OutCloses(s.join, s'.join) && s' == s.(join := s'.join)
  }

  ghost predicate Moves<K, V>(wiring: Wiring<K, V>, s: State<K, V>, s': State<K, V>, k: K) {
    ReaderTakes(s, s', k) || ReaderSends(wiring, s, s', k) || ReaderEnds(s, s', k) || FlowsMove(wiring, s, s', k)
  }

  ghost predicate Next<K(!new), V>(wiring: Wiring<K, V>, s: State<K, V>, s': State<K, V>) {
    (exists k :: Moves(wiring, s, s', k)) || ClosesOut(s, s')
  }

  ghost predicate IsRun<K(!new), V>(wiring: Wiring<K, V>, keys: set<K>, input: seq<Any<V>>, run: seq<State<K, V>>) {
    && run != [] && Init(wiring, keys, input, run[0])
    && forall i | 0 < i < |run| :: Next(wiring, run[i - 1], run[i])
  }

  ghost function Last<K, V>(run: seq<State<K, V>>): State<K, V>
    requires run != []
  {
    run[|run| - 1]
  }

  // ---------- the invariant ----------

  ghost function Hand<V>(reader: Reader<V>): seq<Any<V>> {
    if reader.Holding? then [reader.x] else []
  }

  ghost predicate ReaderInv<K, V>(s: State<K, V>, k: K)
    requires k in s.readers && k in s.join.flows
  {
    && Fed(s.join.flows[k].chain) + Hand(s.readers[k]) == Branch(s.taken, k)
    && (s.join.flows[k].chain.inClosed <==> s.readers[k] == Done)
    && (s.readers[k] == Done ==> s.input == [])
  }

  ghost predicate DivideInv<K(!new), V>(keys: set<K>, input: seq<Any<V>>, s: State<K, V>) {
    && s.readers.Keys == s.join.flows.Keys == keys
    && (forall k | k in keys :: ReaderInv(s, k))
    && (forall t | t in s.taken :: t.0 in keys)
    && Untagged(s.taken) + s.input == input
  }

  ghost predicate Inv<K(!new), V>(wiring: Wiring<K, V>, keys: set<K>, input: seq<Any<V>>, s: State<K, V>) {
    JoinInv(wiring, s.join) && DivideInv(keys, input, s)
  }

  lemma TakesKeepsReader<K(!new), V>(s: State<K, V>, s': State<K, V>, k: K, l: K)
    requires l in s.readers && l in s.join.flows && ReaderInv(s, l) && ReaderTakes(s, s', k)
    ensures ReaderInv(s', l)
  {
    var fed := Fed(s.join.flows[l].chain);
    assert Branch(s'.taken, l) == Branch(s.taken, l) + (if l == k then [s.input[0]] else []) by {
      BranchSnoc(s.taken, k, s.input[0]);
    }
    if l == k {
      assert fed + [] == fed;
    }
  }

  lemma TakesKeepsInput<K(!new), V>(s: State<K, V>, s': State<K, V>, k: K)
    requires ReaderTakes(s, s', k)
    ensures Untagged(s'.taken) + s'.input == Untagged(s.taken) + s.input
  {
    UntaggedMoves(s.taken, k, s.input[0], s.input[1..]);
    assert s.input == [s.input[0]] + s.input[1..];
  }

  lemma TakesKeepsDivide<K(!new), V>(keys: set<K>, input: seq<Any<V>>, s: State<K, V>, s': State<K, V>, k: K)
    requires DivideInv(keys, input, s) && ReaderTakes(s, s', k)
    ensures DivideInv(keys, input, s')
  {
    TakesKeepsInput(s, s', k);
    forall l | l in keys ensures ReaderInv(s', l) {
      TakesKeepsReader(s, s', k, l);
    }
  }

  lemma SendsKeepsDivide<K(!new), V>(wiring: Wiring<K, V>, keys: set<K>, input: seq<Any<V>>,
                                     s: State<K, V>, s': State<K, V>, k: K)
    requires DivideInv(keys, input, s) && ReaderSends(wiring, s, s', k)
    requires Fed(s'.join.flows[k].chain) == Fed(s.join.flows[k].chain) + [s.readers[k].x]
    ensures DivideInv(keys, input, s')
  {
    forall l | l in keys ensures ReaderInv(s', l) {
      assert ReaderInv(s, l);
    }
  }

  lemma EndsKeepsDivide<K(!new), V>(keys: set<K>, input: seq<Any<V>>, s: State<K, V>, s': State<K, V>, k: K)
    requires DivideInv(keys, input, s) && ReaderEnds(s, s', k)
    ensures DivideInv(keys, input, s')
  {
    forall l | l in keys ensures ReaderInv(s', l) {
      assert ReaderInv(s, l);
    }
  }

  // The steps in which the flows are fed nothing and the readers do nothing.
  lemma QuietStepKeepsDivide<K(!new), V>(keys: set<K>, input: seq<Any<V>>, s: State<K, V>, s': State<K, V>)
    requires DivideInv(keys, input, s) && s' == s.(join := s'.join) && s'.join.flows.Keys == s.join.flows.Keys
    requires forall k | k in s.join.flows :: SameFeed(s.join.flows[k].chain, s'.join.flows[k].chain)
    ensures DivideInv(keys, input, s')
  {
    forall l | l in keys ensures ReaderInv(s', l) {
      assert ReaderInv(s, l);
      assert SameFeed(s.join.flows[l].chain, s'.join.flows[l].chain);
    }
  }

  lemma NextKeepsInv<K(!new), V>(wiring: Wiring<K, V>, keys: set<K>, input: seq<Any<V>>,
                                 s: State<K, V>, s': State<K, V>)
    requires Inv(wiring, keys, input, s) && Next(wiring, s, s')
    ensures Inv(wiring, keys, input, s')
  {
    if k :| ReaderTakes(s, s', k) {
      TakesKeepsDivide(keys, input, s, s', k);
    } else if k :| ReaderSends(wiring, s, s', k) {
      FeedsFlowKeepsInv(wiring, s.join, s'.join, k, s.readers[k].x);
      SendsKeepsDivide(wiring, keys, input, s, s', k);
    } else if k :| ReaderEnds(s, s', k) {
      ClosesFlowKeepsInv(wiring, s.join, s'.join, k);
      EndsKeepsDivide(keys, input, s, s', k);
    } else if k :| FlowsMove(wiring, s, s', k) {
      JoinMovesKeepsInv(wiring, s.join, s'.join, k);
      QuietStepKeepsDivide(keys, input, s, s');
    } else {
      OutClosesKeepsInv(wiring, s.join, s'.join);
      QuietStepKeepsDivide(keys, input, s, s');
    }
  }

  lemma InitInv<K(!new), V>(wiring: Wiring<K, V>, keys: set<K>, input: seq<Any<V>>, s: State<K, V>)
    requires (forall k :: wiring(k) != []) && Init(wiring, keys, input, s)
    ensures Inv(wiring, keys, input, s)
  {
    NewJoinInv(wiring, keys);
    assert [] + input == input;
  }

  lemma {:induction false} RunKeepsInv<K(!new), V>(wiring: Wiring<K, V>, keys: set<K>, input: seq<Any<V>>,
                                                   run: seq<State<K, V>>)
    requires (forall k :: wiring(k) != []) && IsRun(wiring, keys, input, run)
    ensures Inv(wiring, keys, input, Last(run))
  {
    if |run| > 1 {
      RunKeepsInv(wiring, keys, input, run[..|run| - 1]);
      NextKeepsInv(wiring, keys, input, run[|run| - 2], run[|run| - 1]);
    } else {
      InitInv(wiring, keys, input, run[0]);
    }
  }

  // ---------- the theorems ----------

  // The flows divide the source: whatever the competition, what they received, in the order
  // of receipt, is the consumed part of the source, and the merged output is at close a
  // shuffle of the flows' own pipelines, each applied to the elements it received in order.
  lemma RoundRobinIsCorrect<K(!new), V>(wiring: Wiring<K, V>, keys: set<K>, input: seq<Any<V>>, run: seq<State<K, V>>)
    requires (forall k :: wiring(k) != []) && keys != {} && IsRun(wiring, keys, input, run)
    ensures Untagged(Last(run).taken) <= input
    ensures forall t | t in Last(run).taken :: t.0 in keys
    ensures Last(run).join.outClosed ==>
              && Untagged(Last(run).taken) == input
              && forall k | k in keys :: Branch(Last(run).join.out, k) == Compose(wiring(k), Branch(Last(run).taken, k))
  {
    RunKeepsInv(wiring, keys, input, run);
    if Last(run).join.outClosed {
      ClosedOutHasAll(wiring, keys, input, Last(run));
    }
  }

  lemma ClosedOutHasAll<K(!new), V>(wiring: Wiring<K, V>, keys: set<K>, input: seq<Any<V>>, s: State<K, V>)
    requires Inv(wiring, keys, input, s) && s.join.outClosed && keys != {}
    ensures Untagged(s.taken) == input
    ensures forall k | k in keys :: Branch(s.join.out, k) == Compose(wiring(k), Branch(s.taken, k))
  {
    JoinIsComplete(wiring, s.join);
    forall k | k in keys ensures s.input == [] && Fed(s.join.flows[k].chain) == Branch(s.taken, k) {
      assert ReaderInv(s, k);
      assert Fed(s.join.flows[k].chain) + [] == Fed(s.join.flows[k].chain);
    }
    var k :| k in keys;
    assert s.input == [];
    assert Untagged(s.taken) + [] == Untagged(s.taken);
  }

  ghost function PassThroughs<K, V>(): Wiring<K, V> {
    k => [PassThroughStage()]
  }

  // Merging the flows of a round robin gives a permutation of the source.
  lemma MergeUndoesRoundRobin<K(!new), V>(keys: set<K>, input: seq<Any<V>>, run: seq<State<K, V>>)
    requires keys != {} && IsRun(PassThroughs(), keys, input, run) && Last(run).join.outClosed
    ensures multiset(Untagged(Last(run).join.out)) == multiset(input)
  {
    var wiring: Wiring<K, V> := PassThroughs();
    var s := Last(run);
    RoundRobinIsCorrect(wiring, keys, input, run);
    RunKeepsInv(wiring, keys, input, run);
    forall k ensures Branch(s.join.out, k) == Branch(s.taken, k) {
      if k in keys {
        PassThroughAlone(Branch(s.taken, k));
      } else {
        BranchOfStranger(s.join.out, k);
        BranchOfStranger(s.taken, k);
      }
    }
    SameBranchesPermute(s.join.out, s.taken);
  }

  // ---------- balance ----------

  // In every reachable state the readers have received equally many elements, give or take
  // one.
  ghost predicate AlwaysBalanced<K(!new), V(!new)>(wiring: Wiring<K, V>, keys: set<K>, input: seq<Any<V>>) {
    forall run: seq<State<K, V>>, k, l | IsRun(wiring, keys, input, run) && k in keys && l in keys ::
      |Branch(Last(run).taken, k)| <= |Branch(Last(run).taken, l)| + 1
  }

  // A reader takes the first element and hands it to its flow.
  lemma QuickStart<K(!new), V>(wiring: Wiring<K, V>, keys: set<K>, input: seq<Any<V>>, k: K)
    returns (run: seq<State<K, V>>)
    requires (forall k :: wiring(k) != []) && k in keys && input != []
    ensures IsRun(wiring, keys, input, run)
    ensures var s := Last(run);
            k in s.readers && s.readers[k] == Receiving && s.input == input[1..] && s.taken == [(k, input[0])]
  {
    var x := input[0];
    var s0 := State(input, map k | k in keys :: Receiving, NewJoin(wiring, keys), []);
    var s1 := s0.(readers := s0.readers[k := Holding(x)], input := input[1..], taken := [(k, x)]);
    assert ReaderTakes(s0, s1, k) && Moves(wiring, s0, s1, k);
    var flow := NewFlow(wiring(k));
    var fed := flow.chain.(nodes := flow.chain.nodes[0 := Consume(wiring(k)[0], flow.chain.nodes[0], x)]);
    var s2 := s1.(readers := s1.readers[k := Receiving], join := With(s1.join, k, flow.(chain := fed)));
    assert ReaderSends(wiring, s1, s2, k) && Moves(wiring, s1, s2, k);
    run := [s0, s1, s2];
  }

  // Whatever the flows, one reader can be quicker than another by two elements.
  lemma QuickReader<K(!new), V>(wiring: Wiring<K, V>, keys: set<K>, input: seq<Any<V>>, k: K, l: K)
    returns (run: seq<State<K, V>>)
    requires (forall k :: wiring(k) != []) && k in keys && l in keys && k != l && |input| >= 2
    ensures IsRun(wiring, keys, input, run)
    ensures |Branch(Last(run).taken, k)| == 2 && Branch(Last(run).taken, l) == []
  {
    run := QuickStart(wiring, keys, input, k);
    var s, y := Last(run), input[1];
    var s' := s.(readers := s.readers[k := Holding(y)], input := s.input[1..], taken := s.taken + [(k, y)]);
    assert ReaderTakes(s, s', k) && Moves(wiring, s, s', k);
    run := run + [s'];
    BranchSnoc([(k, input[0])], k, y);
    BranchSnoc([], k, input[0]);
    assert [] + [(k, input[0])] == [(k, input[0])];
  }

  // The readers are balanced, on every schedule, exactly if there is nothing to compete
  // for: at most one reader, or at most one element.
  lemma BalancedIff<K(!new), V(!new)>(wiring: Wiring<K, V>, keys: set<K>, input: seq<Any<V>>)
    requires forall k :: wiring(k) != []
    ensures AlwaysBalanced(wiring, keys, input) <==> |keys| <= 1 || |input| <= 1
  {
    if |keys| > 1 && |input| > 1 {
      var k :| k in keys;
      assert |keys - {k}| > 0;
      var l :| l in keys - {k};
      var run := QuickReader(wiring, keys, input, k, l);
      assert |Branch(Last(run).taken, k)| > |Branch(Last(run).taken, l)| + 1;
    } else {
      forall run: seq<State<K, V>>, k, l | IsRun(wiring, keys, input, run) && k in keys && l in keys
        ensures |Branch(Last(run).taken, k)| <= |Branch(Last(run).taken, l)| + 1
      {
        if |keys| <= 1 {
          OnlyMember(keys, k, l);
        } else {
          assert Inv(wiring, keys, input, Last(run)) by {
            RunKeepsInv(wiring, keys, input, run);
          }
          BranchIsShorter(Last(run).taken, k);
        }
      }
    }
  }

  lemma OnlyMember<K>(keys: set<K>, k: K, l: K)
    requires |keys| <= 1 && k in keys && l in keys
    ensures k == l
  {
    assert |keys - {k}| == 0;
    assert l !in keys - {k};
  }

  lemma {:induction false} BranchIsShorter<K, V>(taken: seq<(K, V)>, k: K)
    ensures |Branch(taken, k)| <= |taken|
  {
    if taken != [] {
      BranchIsShorter(taken[..|taken| - 1], k);
    }
  }

  // ---------- progress ----------

  // Some goroutine can move until the output is closed, given a consumer that reads on.
  lemma RoundRobinCanMove<K(!new), V>(wiring: Wiring<K, V>, keys: set<K>, input: seq<Any<V>>, run: seq<State<K, V>>)
    requires (forall k :: wiring(k) != []) && IsRun(wiring, keys, input, run) && !Last(run).join.outClosed
    ensures exists s' :: Next(wiring, Last(run), s')
  {
    var s := Last(run);
    assert Inv(wiring, keys, input, s) by {
      RunKeepsInv(wiring, keys, input, run);
    }
    if s.join.waitGroup == 0 {
      var s' := s.(join := s.join.(outClosed := true));
      assert ClosesOut(s, s');
      assert Next(wiring, s, s');
    } else {
      var k :| k in LiveKeys(s.join.flows);
      var s' := LiveReaderCanMove(wiring, keys, input, s, k);
      assert Next(wiring, s, s');
    }
  }

  lemma LiveReaderCanMove<K(!new), V>(wiring: Wiring<K, V>, keys: set<K>, input: seq<Any<V>>, s: State<K, V>, k: K)
    returns (s': State<K, V>)
    requires Inv(wiring, keys, input, s) && k in LiveKeys(s.join.flows)
    ensures Moves(wiring, s, s', k)
  {
    var flow := s.join.flows[k];
    assert ReaderInv(s, k) && FlowInv(wiring, s.join, k);
    FlowCanMove(wiring, s.join, k);
    if j' :| JoinMoves(wiring, s.join, j', k) {
      s' := s.(join := j');
    } else if s.readers[k].Holding? {
      var c := flow.chain;
      var c' := c.(nodes := c.nodes[0 := Consume(wiring(k)[0], c.nodes[0], s.readers[k].x)]);
      s' := s.(readers := s.readers[k := Receiving], join := With(s.join, k, flow.(chain := c')));
      assert ReaderSends(wiring, s, s', k);
    } else if s.input != [] {
      s' := s.(readers := s.readers[k := Holding(s.input[0])], input := s.input[1..],
               taken := s.taken + [(k, s.input[0])]);
      assert ReaderTakes(s, s', k);
    } else {
      var closed := flow.(chain := flow.chain.(inClosed := true));
      s' := s.(readers := s.readers[k := Done], join := With(s.join, k, closed));
      assert ReaderEnds(s, s', k);
    }
  }
}
