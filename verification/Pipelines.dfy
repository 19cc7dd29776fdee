/** Source.Via(stage). ... .To(sink): whatever the schedule, the sink receives the composed
    function of the source. */
module Pipelines {
  import opened Stages
  import opened Chains

  // What the source will still send, and the chain; the sink holds chain.emitted.
  datatype Pipeline<V> = Pipeline(source: seq<Any<V>>, chain: Chain<V>)

  ghost predicate Init<V>(gs: seq<Stage<V>>, input: seq<Any<V>>, p: Pipeline<V>) {
    p == Pipeline(input, NewChain(gs))
  }

  ghost predicate SourceSends<V>(gs: seq<Stage<V>>, p: Pipeline<V>, p': Pipeline<V>) {
    && p.source != [] && p'.source == p.source[1..]
    && Feeds(gs, p.chain, p'.chain, p.source[0])
  }

  ghost predicate SourceCloses<V>(p: Pipeline<V>, p': Pipeline<V>) {
    p.source == [] == p'.source && ClosesInput(p.chain, p'.chain)
  }

  ghost predicate ChainMoves<V>(gs: seq<Stage<V>>, p: Pipeline<V>, p': Pipeline<V>) {
    p'.source == p.source && Internal(gs, p.chain, p'.chain)
  }

  ghost predicate SinkReceives<V>(p: Pipeline<V>, p': Pipeline<V>) {
    p'.source == p.source && Emits(p.chain, p'.chain)
  }

  ghost predicate Next<V>(gs: seq<Stage<V>>, p: Pipeline<V>, p': Pipeline<V>) {
    SourceSends(gs, p, p') || SourceCloses(p, p') || ChainMoves(gs, p, p') || SinkReceives(p, p')
  }

  ghost predicate IsRun<V>(gs: seq<Stage<V>>, input: seq<Any<V>>, run: seq<Pipeline<V>>) {
    && run != [] && Init(gs, input, run[0])
    && forall i | 0 < i < |run| :: Next(gs, run[i - 1], run[i])
  }

  ghost function Last<V>(run: seq<Pipeline<V>>): Pipeline<V>
    requires run != []
  {
    run[|run| - 1]
  }

  ghost predicate Inv<V>(gs: seq<Stage<V>>, input: seq<Any<V>>, p: Pipeline<V>) {
    && ChainInv(gs, p.chain)
    && Fed(p.chain) + p.source == input
    && (p.chain.inClosed ==> p.source == [])
  }

  lemma NextKeepsInv<V>(gs: seq<Stage<V>>, input: seq<Any<V>>, p: Pipeline<V>, p': Pipeline<V>)
    requires Inv(gs, input, p) && Next(gs, p, p')
    ensures Inv(gs, input, p')
  {
    if SourceSends(gs, p, p') {
      FeedsKeepsInv(gs, p.chain, p'.chain, p.source[0]);
    } else if SourceCloses(p, p') {
      ClosesInputKeepsInv(gs, p.chain, p'.chain);
    } else if ChainMoves(gs, p, p') {
      InternalKeepsInv(gs, p.chain, p'.chain);
    } else {
      EmitsKeepsInv(gs, p.chain, p'.chain);
    }
  }

  lemma {:induction false} RunKeepsInv<V>(gs: seq<Stage<V>>, input: seq<Any<V>>, run: seq<Pipeline<V>>)
    requires gs != [] && IsRun(gs, input, run)
    ensures forall i | 0 <= i < |run| :: Inv(gs, input, run[i])
  {
    NewChainInv(gs);
    for i := 1 to |run|
      invariant forall j | 0 <= j < i :: Inv(gs, input, run[j])
    {
      NextKeepsInv(gs, input, run[i - 1], run[i]);
    }
  }

  // In every reachable state of every schedule the sink holds a prefix of the composed
  // function of the source, and once the last channel is closed it holds all of it.
  lemma PipelineIsDeterministic<V>(gs: seq<Stage<V>>, input: seq<Any<V>>, run: seq<Pipeline<V>>)
    requires gs != [] && IsRun(gs, input, run)
    ensures Last(run).chain.emitted <= Compose(gs, input)
    ensures OutClosed(Last(run).chain) ==> Last(run).chain.emitted == Compose(gs, input)
  {
    RunKeepsInv(gs, input, run);
    ChainIsDeterministic(gs, Last(run).chain, input);
    if OutClosed(Last(run).chain) {
      assert Fed(Last(run).chain) + [] == Fed(Last(run).chain);
    }
  }

  // Until the last channel is closed some goroutine can move: no schedule deadlocks.
  lemma PipelineCanMove<V>(gs: seq<Stage<V>>, input: seq<Any<V>>, run: seq<Pipeline<V>>)
    requires gs != [] && IsRun(gs, input, run) && !OutClosed(Last(run).chain)
    ensures exists p' :: Next(gs, Last(run), p')
  {
    RunKeepsInv(gs, input, run);
    var p, c := Last(run), Last(run).chain;
    var p';
    if HasOutput(c) {
      var last := c.nodes[|c.nodes| - 1];
      var c' := c.(nodes := c.nodes[|c.nodes| - 1 := Sent(last)], emitted := c.emitted + [last.pending[0]]);
      p' := Pipeline(p.source, c');
      assert SinkReceives(p, p');
    } else {
      ChainCanMove(gs, c);
      if c' :| Internal(gs, c, c') {
        p' := Pipeline(p.source, c');
      } else if p.source == [] {
        p' := Pipeline([], c.(inClosed := true));
        assert SourceCloses(p, p');
      } else {
        p' := Pipeline(p.source[1..], c.(nodes := c.nodes[0 := Consume(gs[0], c.nodes[0], p.source[0])]));
        assert SourceSends(gs, p, p');
      }
    }
    assert Next(gs, p, p');
  }

  // ---------- every run ends ----------

  lemma NextDoesWork<V>(gs: seq<Stage<V>>, p: Pipeline<V>, p': Pipeline<V>)
    requires Next(gs, p, p')
    ensures Done(p'.chain) == Done(p.chain) + 1
  {
    if SourceSends(gs, p, p') {
      FeedsDoesWork(gs, p.chain, p'.chain, p.source[0]);
    } else if ChainMoves(gs, p, p') {
      InternalDoesWork(gs, p.chain, p'.chain);
    } else if SinkReceives(p, p') {
      EmitsDoesWork(p.chain, p'.chain);
    }
  }

  lemma {:induction false} RunDoesWork<V>(gs: seq<Stage<V>>, input: seq<Any<V>>, run: seq<Pipeline<V>>)
    requires IsRun(gs, input, run)
    ensures Done(Last(run).chain) == |run| - 1
  {
    if |run| > 1 {
      RunDoesWork(gs, input, run[..|run| - 1]);
      NextDoesWork(gs, run[|run| - 2], run[|run| - 1]);
    } else {
      NewChainHasDoneNothing(gs);
    }
  }

  // No run is longer than this many steps; so, some goroutine being able to move until
  // then, every schedule that runs on closes the last channel.
  lemma RunsAreBounded<V>(gs: seq<Stage<V>>, input: seq<Any<V>>, run: seq<Pipeline<V>>)
    requires gs != [] && IsRun(gs, input, run)
    ensures |run| - 1 <= ChainLimit(gs, input)
  {
    RunKeepsInv(gs, input, run);
    RunDoesWork(gs, input, run);
    DoneIsLimited(gs, Last(run).chain, input);
  }

  // ---------- the goroutines that Via starts ----------

  // Every Via adds a goroutine that copies from one operator to the next.
  ghost function Joined<V>(gs: seq<Stage<V>>): seq<Stage<V>> {
    if gs == [] then [PassThroughStage()]
    else Joined(gs[..|gs| - 1]) + [gs[|gs| - 1], PassThroughStage()]
  }

  // Operator i is goroutine 2 * i + 1, and before and after each is one that copies.
  lemma {:induction false} JoinedIs<V>(gs: seq<Stage<V>>, i: nat)
    requires i < 2 * |gs| + 1
    ensures |Joined(gs)| == 2 * |gs| + 1
    ensures Joined(gs)[i] == if i % 2 == 0 then PassThroughStage() else gs[i / 2]
  {
    if gs != [] {
      JoinedIs(gs[..|gs| - 1], if i < 2 * |gs| - 1 then i else 0);
    }
  }

  // Copying goroutines between the operators do not change the composed function, so the
  // theorems above hold of Joined(gs) with the composition of gs alone.
  lemma {:induction false} JoiningChangesNothing<V>(gs: seq<Stage<V>>, input: seq<Any<V>>)
    ensures Compose(Joined(gs), input) == Compose(gs, input)
  {
    var pass: Stage<V> := PassThroughStage();
    if gs == [] {
      assert Joined(gs) == [] + [pass];
      ComposeSnoc([], pass, input);
      PassThroughOutputs(input);
    } else {
      var gs', g := gs[..|gs| - 1], gs[|gs| - 1];
      JoiningChangesNothing(gs', input);
      TwoMoreStages(Joined(gs'), g, pass, input);
      assert gs == gs' + [g];
      ComposeSnoc(gs', g, input);
      PassThroughOutputs(Compose(gs, input));
    }
  }

  // The sink of a pipeline built by Via receives the composition of its operators.
  lemma ViaComposes<V>(gs: seq<Stage<V>>, input: seq<Any<V>>, run: seq<Pipeline<V>>)
    requires IsRun(Joined(gs), input, run)
    ensures Last(run).chain.emitted <= Compose(gs, input)
    ensures OutClosed(Last(run).chain) ==> Last(run).chain.emitted == Compose(gs, input)
  {
    PipelineIsDeterministic(Joined(gs), input, run);
    JoiningChangesNothing(gs, input);
  }
}
