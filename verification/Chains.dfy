/** Stages joined by unbuffered channels: the network that a chain of Via calls builds, in
    every schedule of its goroutines.  The chain is fed by, and emits to, whatever
    surrounds it. */
module Chains {
  import opened Stages

  // One goroutine: the state of its stage, the outputs it has computed but not sent yet,
  // whether it has closed its output channel, and, as history, the input it has consumed.
  datatype Node<V> = Node(state: Any<V>, pending: seq<Any<V>>, closed: bool, consumed: seq<Any<V>>)

  datatype Chain<V> = Chain(nodes: seq<Node<V>>, inClosed: bool, emitted: seq<Any<V>>)

  ghost function NewChain<V>(gs: seq<Stage<V>>): Chain<V> {
    Chain(seq(|gs|, i requires 0 <= i < |gs| => Node(gs[i].start, [], false, [])), false, [])
  }

  // Ready to receive: nothing left to send.
  ghost predicate Ready<V>(n: Node<V>) {
    !n.closed && n.pending == []
  }

  ghost function Consume<V>(g: Stage<V>, n: Node<V>, x: Any<V>): Node<V> {
    var r := g.react(n.state, x);
    Node(r.state, r.outputs, n.closed, n.consumed + [x])
  }

  ghost function Sent<V>(n: Node<V>): Node<V>
    requires n.pending != []
  {
    n.(pending := n.pending[1..])
  }

  // The surroundings hand an element to the first goroutine.
  ghost predicate Feeds<V>(gs: seq<Stage<V>>, c: Chain<V>, c': Chain<V>, x: Any<V>) {
    && |c.nodes| == |gs| > 0 && !c.inClosed && Ready(c.nodes[0])
    && c' == c.(nodes := c.nodes[0 := Consume(gs[0], c.nodes[0], x)])
  }

  ghost predicate ClosesInput<V>(c: Chain<V>, c': Chain<V>) {
    !c.inClosed && c' == c.(inClosed := true)
  }

  // A rendezvous between goroutine j and the next one.
  ghost predicate Transfers<V>(gs: seq<Stage<V>>, c: Chain<V>, c': Chain<V>, j: nat) {
    && |c.nodes| == |gs| && j + 1 < |gs|
    && c.nodes[j].pending != [] && Ready(c.nodes[j + 1])
    && c' == c.(nodes := c.nodes[j := Sent(c.nodes[j])]
                                [j + 1 := Consume(gs[j + 1], c.nodes[j + 1], c.nodes[j].pending[0])])
  }

  ghost predicate UpstreamClosed<V>(c: Chain<V>, j: nat)
    requires j < |c.nodes|
  {
    if j == 0 then c.inClosed else c.nodes[j - 1].closed
  }

  // Goroutine j finds its input closed and closes its output.
  ghost predicate Finishes<V>(c: Chain<V>, c': Chain<V>, j: nat) {
    && j < |c.nodes| && Ready(c.nodes[j]) && UpstreamClosed(c, j)
    && c' == c.(nodes := c.nodes[j := c.nodes[j].(closed := true)])
  }

  ghost predicate HasOutput<V>(c: Chain<V>) {
    c.nodes != [] && c.nodes[|c.nodes| - 1].pending != []
  }

  // The surroundings take the next output of the last goroutine.
  ghost predicate Emits<V>(c: Chain<V>, c': Chain<V>) {
    && HasOutput(c)
    && var last := c.nodes[|c.nodes| - 1];
       c' == c.(nodes := c.nodes[|c.nodes| - 1 := Sent(last)], emitted := c.emitted + [last.pending[0]])
  }

  ghost predicate Internal<V>(gs: seq<Stage<V>>, c: Chain<V>, c': Chain<V>) {
    (exists j :: Transfers(gs, c, c', j)) || (exists j :: Finishes(c, c', j))
  }

  ghost predicate OutClosed<V>(c: Chain<V>) {
    c.nodes != [] && c.nodes[|c.nodes| - 1].closed
  }

  // ---------- the invariant ----------

  ghost function Fed<V>(c: Chain<V>): seq<Any<V>> {
    if c.nodes == [] then [] else c.nodes[0].consumed
  }

  // What goroutine j has sent.
  ghost function SentBy<V>(c: Chain<V>, j: nat): seq<Any<V>>
    requires j < |c.nodes|
  {
    if j + 1 < |c.nodes| then c.nodes[j + 1].consumed else c.emitted
  }

  ghost predicate NodeInv<V>(gs: seq<Stage<V>>, c: Chain<V>, j: nat)
    requires j < |c.nodes| == |gs|
  {
    var n := c.nodes[j];
    && n.state == StateAfter(gs[j], n.consumed)
    && SentBy(c, j) + n.pending == Outputs(gs[j], n.consumed)
    && (n.closed ==> n.pending == [] && UpstreamClosed(c, j))
  }

  ghost predicate ChainInv<V>(gs: seq<Stage<V>>, c: Chain<V>) {
    && |c.nodes| == |gs| > 0
    && forall j | 0 <= j < |gs| :: NodeInv(gs, c, j)
  }

  lemma NewChainInv<V>(gs: seq<Stage<V>>)
    requires gs != []
    ensures ChainInv(gs, NewChain(gs)) && Fed(NewChain(gs)) == []
  {
  }

  lemma UntouchedNode<V>(gs: seq<Stage<V>>, c: Chain<V>, c': Chain<V>, j: nat)
    requires j < |c.nodes| == |c'.nodes| == |gs| && NodeInv(gs, c, j)
    requires c'.nodes[j] == c.nodes[j] && SentBy(c', j) == SentBy(c, j) && UpstreamClosed(c', j) == UpstreamClosed(c, j)
    ensures NodeInv(gs, c', j)
  {
  }

  lemma FeedsKeepsInv<V>(gs: seq<Stage<V>>, c: Chain<V>, c': Chain<V>, x: Any<V>)
    requires ChainInv(gs, c) && Feeds(gs, c, c', x)
    ensures ChainInv(gs, c') && Fed(c') == Fed(c) + [x]
  {
    var n := c.nodes[0];
    assert c'.nodes[0] == Consume(gs[0], n, x);
    assert NodeInv(gs, c', 0) by {
      assert NodeInv(gs, c, 0);
      OutputsSnoc(gs[0], n.consumed, x);
      assert SentBy(c, 0) + n.pending == SentBy(c, 0);
    }
    forall j | 0 < j < |gs| ensures NodeInv(gs, c', j) {
      assert NodeInv(gs, c, j);
      UntouchedNode(gs, c, c', j);
    }
  }

  lemma ClosesInputKeepsInv<V>(gs: seq<Stage<V>>, c: Chain<V>, c': Chain<V>)
    requires ChainInv(gs, c) && ClosesInput(c, c')
    ensures ChainInv(gs, c') && Fed(c') == Fed(c)
  {
    forall j | 0 <= j < |gs| ensures NodeInv(gs, c', j) {
      assert NodeInv(gs, c, j);
    }
  }

  lemma TransfersKeepsInv<V>(gs: seq<Stage<V>>, c: Chain<V>, c': Chain<V>, i: nat)
    requires ChainInv(gs, c) && Transfers(gs, c, c', i)
    ensures ChainInv(gs, c') && Fed(c') == Fed(c)
  {
    var n, m := c.nodes[i], c.nodes[i + 1];
    assert c'.nodes[i] == Sent(n) && c'.nodes[i + 1] == Consume(gs[i + 1], m, n.pending[0]);
    assert NodeInv(gs, c', i) by {
      assert NodeInv(gs, c, i);
      assert m.consumed + n.pending == (m.consumed + [n.pending[0]]) + n.pending[1..];
    }
    assert NodeInv(gs, c', i + 1) by {
      assert NodeInv(gs, c, i + 1);
      OutputsSnoc(gs[i + 1], m.consumed, n.pending[0]);
      assert SentBy(c, i + 1) + m.pending == SentBy(c, i + 1);
    }
    forall j | 0 <= j < |gs| && j != i && j != i + 1 ensures NodeInv(gs, c', j) {
      assert NodeInv(gs, c, j);
      UntouchedNode(gs, c, c', j);
    }
  }

  lemma FinishesKeepsInv<V>(gs: seq<Stage<V>>, c: Chain<V>, c': Chain<V>, i: nat)
    requires ChainInv(gs, c) && Finishes(c, c', i)
    ensures ChainInv(gs, c') && Fed(c') == Fed(c)
  {
    forall j | 0 <= j < |gs| ensures NodeInv(gs, c', j) {
      assert NodeInv(gs, c, j);
    }
  }

  lemma EmitsKeepsInv<V>(gs: seq<Stage<V>>, c: Chain<V>, c': Chain<V>)
    requires ChainInv(gs, c) && Emits(c, c')
    ensures ChainInv(gs, c') && Fed(c') == Fed(c)
  {
    forall j | 0 <= j < |gs| ensures NodeInv(gs, c', j) {
      assert NodeInv(gs, c, j);
      if j == |gs| - 1 {
        assert SentBy(c', j) + c'.nodes[j].pending == SentBy(c, j) + c.nodes[j].pending;
      }
    }
  }

  lemma InternalKeepsInv<V>(gs: seq<Stage<V>>, c: Chain<V>, c': Chain<V>)
    requires ChainInv(gs, c) && Internal(gs, c, c')
    ensures ChainInv(gs, c') && Fed(c') == Fed(c) && c'.inClosed == c.inClosed && c'.emitted == c.emitted
  {
    if j :| Transfers(gs, c, c', j) {
      TransfersKeepsInv(gs, c, c', j);
    } else {
      var j :| Finishes(c, c', j);
      FinishesKeepsInv(gs, c, c', j);
    }
  }

  // ---------- the composed function ----------

  // The output of the first j stages for a whole input.
  ghost function Level<V>(gs: seq<Stage<V>>, input: seq<Any<V>>, j: nat): seq<Any<V>>
    requires j <= |gs|
  {
    if j == 0 then input else Outputs(gs[j - 1], Level(gs, input, j - 1))
  }

  ghost function Compose<V>(gs: seq<Stage<V>>, input: seq<Any<V>>): seq<Any<V>> {
    Level(gs, input, |gs|)
  }

  // More input never takes an output of the composed function back.
  lemma {:induction false} LevelGrows<V>(gs: seq<Stage<V>>, a: seq<Any<V>>, b: seq<Any<V>>, j: nat)
    requires a <= b && j <= |gs|
    ensures Level(gs, a, j) <= Level(gs, b, j)
  {
    if j > 0 {
      LevelGrows(gs, a, b, j - 1);
      OutputsGrow(gs[j - 1], Level(gs, a, j - 1), Level(gs, b, j - 1));
    }
  }

  lemma ComposeGrows<V>(gs: seq<Stage<V>>, a: seq<Any<V>>, b: seq<Any<V>>)
    requires a <= b
    ensures Compose(gs, a) <= Compose(gs, b)
  {
    LevelGrows(gs, a, b, |gs|);
  }

  lemma {:induction false} LevelOfPrefix<V>(gs: seq<Stage<V>>, hs: seq<Stage<V>>, input: seq<Any<V>>, j: nat)
    requires j <= |gs|
    ensures Level(gs + hs, input, j) == Level(gs, input, j)
  {
    if j > 0 {
      LevelOfPrefix(gs, hs, input, j - 1);
    }
  }

  // No stage changes nothing, and a further stage works on what the others give.
  lemma ComposeSnoc<V>(gs: seq<Stage<V>>, g: Stage<V>, input: seq<Any<V>>)
    ensures Compose([], input) == input
    ensures Compose(gs + [g], input) == Outputs(g, Compose(gs, input))
  {
    LevelOfPrefix(gs, [g], input, |gs|);
  }

  lemma TwoMoreStages<V>(gs: seq<Stage<V>>, g: Stage<V>, h: Stage<V>, input: seq<Any<V>>)
    ensures Compose(gs + [g, h], input) == Outputs(h, Outputs(g, Compose(gs, input)))
  {
    ComposeSnoc(gs, g, input);
    ComposeSnoc(gs + [g], h, input);
    assert gs + [g, h] == gs + [g] + [h];
  }

  lemma PassThroughAlone<V>(input: seq<Any<V>>)
    ensures Compose([PassThroughStage()], input) == input
  {
    var gs: seq<Stage<V>> := [PassThroughStage()];
    PassThroughOutputs(input);
    assert Level(gs, input, 1) == Outputs(gs[0], Level(gs, input, 0));
  }

  lemma {:induction false} ConsumedIsPrefix<V>(gs: seq<Stage<V>>, c: Chain<V>, input: seq<Any<V>>, j: nat)
    requires ChainInv(gs, c) && Fed(c) <= input && j <= |gs|
    ensures (if j < |gs| then c.nodes[j].consumed else c.emitted) <= Level(gs, input, j)
  {
    if j > 0 {
      ConsumedIsPrefix(gs, c, input, j - 1);
      assert NodeInv(gs, c, j - 1);
      OutputsGrow(gs[j - 1], c.nodes[j - 1].consumed, Level(gs, input, j - 1));
    }
  }

  lemma {:induction false} ClosedIsComplete<V>(gs: seq<Stage<V>>, c: Chain<V>, j: nat)
    requires ChainInv(gs, c) && j < |gs| && c.nodes[j].closed
    ensures c.inClosed && SentBy(c, j) == Level(gs, Fed(c), j + 1)
  {
    assert NodeInv(gs, c, j);
    if j > 0 {
      ClosedIsComplete(gs, c, j - 1);
    }
    assert SentBy(c, j) + [] == SentBy(c, j);
  }

  // Whatever the schedule, what a chain has emitted is a prefix of the composed function
  // applied to what it was fed, and all of it once the last channel is closed.
  lemma ChainIsDeterministic<V>(gs: seq<Stage<V>>, c: Chain<V>, input: seq<Any<V>>)
    requires ChainInv(gs, c) && Fed(c) <= input
    ensures c.emitted <= Compose(gs, input)
    ensures OutClosed(c) ==> c.inClosed && c.emitted == Compose(gs, Fed(c))
  {
    ConsumedIsPrefix(gs, c, input, |gs|);
    if OutClosed(c) {
      ClosedIsComplete(gs, c, |gs| - 1);
    }
  }

  // ---------- progress ----------

  // A chain whose output is not closed can move, unless it waits for its surroundings to
  // feed it, to close its input or to take its output.
  lemma {:induction false} SomeGoroutineCanMove<V>(gs: seq<Stage<V>>, c: Chain<V>, j: nat)
    requires ChainInv(gs, c) && j < |gs|
    requires c.nodes[j].pending == [] && !c.nodes[j].closed
    ensures (exists c' :: Internal(gs, c, c')) || (Ready(c.nodes[0]) && !c.inClosed)
  {
    assert NodeInv(gs, c, j);
    if UpstreamClosed(c, j) {
      var c' := c.(nodes := c.nodes[j := c.nodes[j].(closed := true)]);
      assert Finishes(c, c', j);
      assert Internal(gs, c, c');
    } else if j > 0 {
      var n := c.nodes[j - 1];
      if n.pending == [] {
        SomeGoroutineCanMove(gs, c, j - 1);
      } else {
        var c' := c.(nodes := c.nodes[j - 1 := Sent(n)][j := Consume(gs[j], c.nodes[j], n.pending[0])]);
        assert Transfers(gs, c, c', j - 1);
        assert Internal(gs, c, c');
      }
    }
  }

  lemma ChainCanMove<V>(gs: seq<Stage<V>>, c: Chain<V>)
    requires ChainInv(gs, c) && !OutClosed(c) && !HasOutput(c)
    ensures (exists c' :: Internal(gs, c, c')) || (Ready(c.nodes[0]) && !c.inClosed)
  {
    SomeGoroutineCanMove(gs, c, |gs| - 1);
  }

  // ---------- bounded work ----------

  // Elements consumed by the first j goroutines, and those among them that have closed.
  ghost function WorkDone<V>(nodes: seq<Node<V>>): nat {
    if nodes == [] then 0
    else var n := nodes[|nodes| - 1];
         WorkDone(nodes[..|nodes| - 1]) + |n.consumed| + if n.closed then 1 else 0
  }

  ghost function WorkLimit<V>(gs: seq<Stage<V>>, input: seq<Any<V>>, j: nat): nat
    requires j <= |gs|
  {
    if j == 0 then 0 else WorkLimit(gs, input, j - 1) + |Level(gs, input, j - 1)| + 1
  }

  lemma {:induction false} WorkIsLimited<V>(gs: seq<Stage<V>>, c: Chain<V>, input: seq<Any<V>>, j: nat)
    requires ChainInv(gs, c) && Fed(c) <= input && j <= |gs|
    ensures WorkDone(c.nodes[..j]) <= WorkLimit(gs, input, j)
  {
    if j > 0 {
      WorkIsLimited(gs, c, input, j - 1);
      ConsumedIsPrefix(gs, c, input, j - 1);
      assert c.nodes[..j][..j - 1] == c.nodes[..j - 1];
    }
  }

  ghost function WorkIn<V>(n: Node<V>): nat {
    |n.consumed| + if n.closed then 1 else 0
  }

  lemma {:induction false} WorkChanges<V>(nodes: seq<Node<V>>, j: nat, n: Node<V>)
    requires j < |nodes|
    ensures WorkDone(nodes[j := n]) == WorkDone(nodes) - WorkIn(nodes[j]) + WorkIn(n)
  {
    var k := |nodes| - 1;
    if j < k {
      WorkChanges(nodes[..k], j, n);
      assert nodes[j := n][..k] == nodes[..k][j := n];
    } else {
      assert nodes[j := n][..k] == nodes[..k];
    }
  }

  // All the steps a chain has taken part in.
  ghost function Done<V>(c: Chain<V>): nat {
    WorkDone(c.nodes) + (if c.inClosed then 1 else 0) + |c.emitted|
  }

  lemma FeedsDoesWork<V>(gs: seq<Stage<V>>, c: Chain<V>, c': Chain<V>, x: Any<V>)
    requires Feeds(gs, c, c', x)
    ensures Done(c') == Done(c) + 1
  {
    WorkChanges(c.nodes, 0, c'.nodes[0]);
  }

  lemma EmitsDoesWork<V>(c: Chain<V>, c': Chain<V>)
    requires Emits(c, c')
    ensures Done(c') == Done(c) + 1
  {
    WorkChanges(c.nodes, |c.nodes| - 1, c'.nodes[|c.nodes| - 1]);
  }

  lemma InternalDoesWork<V>(gs: seq<Stage<V>>, c: Chain<V>, c': Chain<V>)
    requires Internal(gs, c, c')
    ensures Done(c') == Done(c) + 1
  {
    if j: nat :| Transfers(gs, c, c', j) {
      WorkChanges(c.nodes, j, Sent(c.nodes[j]));
      WorkChanges(c.nodes[j := Sent(c.nodes[j])], j + 1, c'.nodes[j + 1]);
    } else {
      var j: nat :| Finishes(c, c', j);
      WorkChanges(c.nodes, j, c'.nodes[j]);
    }
  }

  lemma {:induction false} NewChainHasDoneNothing<V>(gs: seq<Stage<V>>)
    ensures Done(NewChain(gs)) == 0
  {
    if gs != [] {
      NewChainHasDoneNothing(gs[..|gs| - 1]);
      assert NewChain(gs).nodes[..|gs| - 1] == NewChain(gs[..|gs| - 1]).nodes;
    }
  }

  // What a chain can do for an input.
  ghost function ChainLimit<V>(gs: seq<Stage<V>>, input: seq<Any<V>>): nat {
    WorkLimit(gs, input, |gs|) + 1 + |Compose(gs, input)|
  }

  lemma DoneIsLimited<V>(gs: seq<Stage<V>>, c: Chain<V>, input: seq<Any<V>>)
    requires ChainInv(gs, c) && Fed(c) <= input
    ensures Done(c) <= ChainLimit(gs, input)
  {
    WorkIsLimited(gs, c, input, |gs|);
    ConsumedIsPrefix(gs, c, input, |gs|);
    assert c.nodes[..|gs|] == c.nodes;
  }
}
