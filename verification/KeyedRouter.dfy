/** Keyed: the routing loop and the building of workflows as an object, and the theorem
    about the network they set up (flow/keyed.go:76-95, 131-158). */
module KeyedRouter {
  import opened Sequences
  import opened Stages
  import opened Chains
  import opened Shuffles
  import Routers

  // A keyed workflow: the goroutines it was built from, in order, what has been sent to its
  // inlet, and whether the inlet has been closed.
  datatype Workflow<!V> = Workflow(stages: seq<Stage<V>>, received: seq<Any<V>>, closed: bool)

  // The operators, with the copying goroutine that Via starts between each two of them.
  ghost function Built<V>(operators: seq<Stage<V>>): seq<Stage<V>> {
    if |operators| <= 1 then operators
    else Built(operators[..|operators| - 1]) + [PassThroughStage(), operators[|operators| - 1]]
  }

  // The copying goroutines change nothing.
  lemma {:induction false} BuiltComposes<V>(operators: seq<Stage<V>>, input: seq<Any<V>>)
    ensures Compose(Built(operators), input) == Compose(operators, input)
  {
    if |operators| > 1 {
      var before, last := operators[..|operators| - 1], operators[|operators| - 1];
      BuiltComposes(before, input);
      TwoMoreStages(Built(before), PassThroughStage(), last, input);
      PassThroughOutputs(Compose(before, input));
      ComposeSnoc(before, last, input);
      assert operators == before + [last];
    }
  }

  // Operator i is goroutine 2 * i, and between each two of them is one that copies.
  lemma {:induction false} BuiltIs<V>(operators: seq<Stage<V>>, i: nat)
    requires operators != [] && i < 2 * |operators| - 1
    ensures |Built(operators)| == 2 * |operators| - 1
    ensures Built(operators)[i] == if i % 2 == 0 then operators[i / 2] else PassThroughStage()
  {
    if |operators| > 1 {
      BuiltIs(operators[..|operators| - 1], if i < 2 * |operators| - 3 then i else 0);
    }
  }

  // ---------- the partition of the input ----------

  // Every workflow has received exactly the elements with its key, in order, and the
  // workflows are those of the keys of the input.
  ghost predicate IsPartition<K(!new), V>(keySelector: Any<V> -> K, operators: seq<Stage<V>>,
                                          flows: map<K, Workflow<V>>, input: seq<Any<V>>) {
    && flows.Keys == KeysOf(keySelector, input)
    && forall k | k in flows ::
         flows[k].stages == Built(operators) && flows[k].received == Filter(input, HasKey(keySelector, k))
  }

  lemma KeysSnoc<K, T>(key: T -> K, before: seq<T>, x: T)
    ensures KeysOf(key, before + [x]) == KeysOf(key, before) + {key(x)}
  {
    assert (before + [x])[..|before|] == before;
  }

  // A key with no workflow has had no elements.
  lemma StrangerFiltersNone<K, T>(key: T -> K, before: seq<T>, k: K)
    requires k !in KeysOf(key, before)
    ensures Filter(before, HasKey(key, k)) == []
  {
    forall x | x in before ensures !HasKey(key, k)(x) {
      KeyIsOf(key, before, x);
    }
    FilterNone(before, HasKey(key, k));
  }

  lemma PartitionGrows<K(!new), V>(keySelector: Any<V> -> K, operators: seq<Stage<V>>, flows: map<K, Workflow<V>>,
                                   before: seq<Any<V>>, x: Any<V>, flow: Workflow<V>)
    requires IsPartition(keySelector, operators, flows, before) && flow.stages == Built(operators)
    requires var key := keySelector(x);
             flow.received == (if key in flows then flows[key].received else []) + [x]
    ensures IsPartition(keySelector, operators, flows[keySelector(x) := flow], before + [x])
  {
    var key := keySelector(x);
    var flows' := flows[key := flow];
    forall k | k in flows' ensures flows'[k].received == Filter(before + [x], HasKey(keySelector, k)) {
      if k !in flows {
        StrangerFiltersNone(keySelector, before, k);
      }
      FilterSnoc(before, x, HasKey(keySelector, k));
    }
    KeysSnoc(keySelector, before, x);
    assert flows'.Keys == flows.Keys + {key};
  }

  // The workflows after routing an input.
  ghost function Routed<K, V>(keySelector: Any<V> -> K, operators: seq<Stage<V>>,
                              input: seq<Any<V>>): map<K, Workflow<V>> {
    if input == [] then map[]
    else
      var flows, x := Routed(keySelector, operators, input[..|input| - 1]), input[|input| - 1];
      var key := keySelector(x);
      flows[key := Workflow(Built(operators), (if key in flows then flows[key].received else []) + [x], false)]
  }

  lemma {:induction false} RoutedIsPartition<K(!new), V>(keySelector: Any<V> -> K, operators: seq<Stage<V>>,
                                                         input: seq<Any<V>>)
    ensures IsPartition(keySelector, operators, Routed(keySelector, operators, input), input)
  {
    if input != [] {
      var before, x := input[..|input| - 1], input[|input| - 1];
      RoutedIsPartition(keySelector, operators, before);
      var flows := Routed(keySelector, operators, before);
      PartitionGrows(keySelector, operators, flows, before, x, Routed(keySelector, operators, input)[keySelector(x)]);
      assert input == before + [x];
    }
  }

  lemma {:induction false} RoutedIsOpen<K(!new), V>(keySelector: Any<V> -> K, operators: seq<Stage<V>>,
                                                    input: seq<Any<V>>)
    ensures AllOpen(Routed(keySelector, operators, input))
  {
    if input != [] {
      RoutedIsOpen(keySelector, operators, input[..|input| - 1]);
    }
  }

  ghost predicate AllOpen<K(!new), V>(flows: map<K, Workflow<V>>) {
    forall k | k in flows :: !flows[k].closed
  }

  ghost predicate AreClosed<K(!new), V>(flows: map<K, Workflow<V>>, flows': map<K, Workflow<V>>) {
    flows'.Keys == flows.Keys && forall k | k in flows' :: flows'[k] == flows[k].(closed := true)
  }

  lemma ClosingKeepsPartition<K(!new), V>(keySelector: Any<V> -> K, operators: seq<Stage<V>>,
                                          flows: map<K, Workflow<V>>, flows': map<K, Workflow<V>>, input: seq<Any<V>>)
    requires IsPartition(keySelector, operators, flows, input) && AreClosed(flows, flows')
    ensures IsPartition(keySelector, operators, flows', input) && |flows'| == |flows|
  {
    assert |flows'.Keys| == |flows.Keys|;
  }

  // ---------- the object ----------

  class Keyed<K(==, !new), V> {
    const keySelector: Any<V> -> K
    const operators: seq<Stage<V>>
    var keyedFlows: map<K, Workflow<V>>
    var waitGroup: nat
    var forwarders: nat    // the forwarding goroutines that have been started

    constructor (keySelector: Any<V> -> K, operators: seq<Stage<V>>)
      requires operators != []
      ensures this.keySelector == keySelector && this.operators == operators
      ensures keyedFlows == map[] && waitGroup == 0 && forwarders == 0
    {
      this.keySelector, this.operators := keySelector, operators;
      keyedFlows, waitGroup, forwarders := map[], 0, 0;
    }

    // Builds a workflow, operator by operator, and starts its forwarder, for a key that has
    // none.
    method GetKeyedFlow(key: K) returns (flow: Workflow<V>)
      requires operators != []
      modifies this
      ensures flow == if key in old(keyedFlows) then old(keyedFlows)[key] else Workflow(Built(operators), [], false)
      ensures keyedFlows == old(keyedFlows)[key := flow]
      ensures waitGroup == old(waitGroup) + if key in old(keyedFlows) then 0 else 1
      ensures forwarders == old(forwarders) + if key in old(keyedFlows) then 0 else 1
    {
      if key !in keyedFlows {
        waitGroup := waitGroup + 1;
        var tail := [operators[0]];
        for i := 1 to |operators|
          invariant tail == Built(operators[..i])
        {
          assert operators[..i + 1][..i] == operators[..i];
          tail := tail + [PassThroughStage(), operators[i]];
        }
        assert operators[..|operators|] == operators;
        forwarders := forwarders + 1;
        keyedFlows := keyedFlows[key := Workflow(tail, [], false)];
      }
      flow := keyedFlows[key];
    }

    // One workflow, counted in the wait group and forwarded by one goroutine, for each key.
    ghost predicate HasRouted(input: seq<Any<V>>)
      reads this
    {
      keyedFlows == Routed(keySelector, operators, input) && waitGroup == forwarders == |keyedFlows|
    }

    method Route(element: Any<V>, ghost before: seq<Any<V>>)
      requires operators != [] && HasRouted(before)
      modifies this
      ensures HasRouted(before + [element])
    {
      ghost var flows := keyedFlows;
      var key := keySelector(element);
      var flow := GetKeyedFlow(key);
      assert flow.stages == Built(operators) && !flow.closed by {
        RoutedIsPartition(keySelector, operators, before);
        RoutedIsOpen(keySelector, operators, before);
      }
      flow := flow.(received := flow.received + [element]);
      keyedFlows := keyedFlows[key := flow];
      assert keyedFlows == flows[key := flow];
      assert (before + [element])[..|before|] == before;
    }

    method CloseAll()
      requires AllOpen(keyedFlows)
      modifies this`keyedFlows
      ensures AreClosed(old(keyedFlows), keyedFlows)
    {
      var left := keyedFlows.Keys;
      while left != {}
        invariant left <= keyedFlows.Keys == old(keyedFlows).Keys
        invariant forall k | k in keyedFlows :: keyedFlows[k] == old(keyedFlows)[k].(closed := k !in left)
        decreases |left|
      {
        var k :| k in left;
        keyedFlows := keyedFlows[k := keyedFlows[k].(closed := true)];
        left := left - {k};
      }
    }

    // Routes the whole input, one workflow per key, and closes every workflow once.
    method Stream(input: seq<Any<V>>)
      requires operators != [] && keyedFlows == map[] && waitGroup == forwarders == 0
      modifies this
      ensures IsPartition(keySelector, operators, keyedFlows, input)
      ensures forall k :: k in keyedFlows <==> exists i :: 0 <= i < |input| && keySelector(input[i]) == k
      ensures waitGroup == forwarders == |keyedFlows|
      ensures forall k | k in keyedFlows :: keyedFlows[k].closed
    {
      for i := 0 to |input|
        invariant HasRouted(input[..i])
      {
        assert input[..i + 1] == input[..i] + [input[i]];
        Route(input[i], input[..i]);
      }
      assert input[..|input|] == input;
      ghost var flows := keyedFlows;
      RoutedIsOpen(keySelector, operators, input);
      CloseAll();
      RoutedIsPartition(keySelector, operators, input);
      ClosingKeepsPartition(keySelector, operators, flows, keyedFlows, input);
      KeysAre(keySelector, input);
    }
  }

  // ---------- the network ----------

  // The network of goroutines that the object sets up.
  ghost function Network<K, V>(keySelector: Any<V> -> K, operators: seq<Stage<V>>): Routers.Routing<K, V> {
    Routers.Routing(keySelector, _ => Built(operators), None)
  }

  // Keyed is one pipeline of its operators for each key: once its output is closed it is a
  // shuffle of the operators' results for the input with each key, in order.
  lemma KeyedIsPipelines<K(!new), V(!new)>(keySelector: Any<V> -> K, operators: seq<Stage<V>>, input: seq<Any<V>>,
                                           run: seq<Routers.State<K, V>>, k: K, isMine: Any<V> -> bool)
    requires operators != [] && Routers.IsRun(Network(keySelector, operators), input, run)
    requires forall x :: isMine(x) <==> keySelector(x) == k
    ensures var mine, out := Filter(input, isMine), Routers.Last(run).join.out;
            && Branch(out, k) <= Compose(operators, mine)
            && (Routers.Last(run).join.outClosed ==> Branch(out, k) == Compose(operators, mine))
  {
    var r := Network(keySelector, operators);
    var mine := Filter(input, HasKey(keySelector, k));
    FilterSame(input, HasKey(keySelector, k), isMine);
    assert forall l :: r.wiring(l) == Built(operators) != [];
    Routers.KeysAreSeparate(r, input, run, k);
    BuiltComposes(operators, mine);
    if Routers.Last(run).join.outClosed {
      Routers.RoutingIsCorrect(r, input, run);
    }
  }
}
