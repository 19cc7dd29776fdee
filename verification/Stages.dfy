/** The single-worker operators as transducers, and the goroutines that run them as loops:
    Map, Filter, FlatMap, Fold, Reduce and PassThrough. */
module Stages {
  import opened Sequences

  // Go's any: the nil interface value, or some value.
  datatype Any<V> = Nil | Box(value: V)

  datatype Reaction<V> = Reaction(state: Any<V>, outputs: seq<Any<V>>)

  // A stage keeps one value between elements and answers each element with some outputs.
  datatype Stage<!V> = Stage(start: Any<V>, react: (Any<V>, Any<V>) -> Reaction<V>)

  // The state after an input, and all the outputs for it.
  ghost function StateAfter<V>(g: Stage<V>, input: seq<Any<V>>): Any<V> {
    if input == [] then g.start
    else g.react(StateAfter(g, input[..|input| - 1]), input[|input| - 1]).state
  }

  ghost function Outputs<V>(g: Stage<V>, input: seq<Any<V>>): seq<Any<V>> {
    if input == [] then []
    else Outputs(g, input[..|input| - 1]) + g.react(StateAfter(g, input[..|input| - 1]), input[|input| - 1]).outputs
  }

  lemma OutputsSnoc<V>(g: Stage<V>, input: seq<Any<V>>, x: Any<V>)
    ensures var r := g.react(StateAfter(g, input), x);
            StateAfter(g, input + [x]) == r.state && Outputs(g, input + [x]) == Outputs(g, input) + r.outputs
  {
    assert (input + [x])[..|input|] == input;
  }

  // More input never takes an output back.
  lemma {:induction false} OutputsGrow<V>(g: Stage<V>, a: seq<Any<V>>, b: seq<Any<V>>)
    requires a <= b
    ensures Outputs(g, a) <= Outputs(g, b)
  {
    if |a| < |b| {
      OutputsGrow(g, a, b[..|b| - 1]);
    } else {
      assert a == b;
    }
  }

  function MapStage<V>(f: Any<V> -> Any<V>): Stage<V> {
    Stage(Nil, (_, x) => Reaction(Nil, [f(x)]))
  }

  function FilterStage<V>(p: Any<V> -> bool): Stage<V> {
    Stage(Nil, (_, x) => Reaction(Nil, if p(x) then [x] else []))
  }

  function FlatMapStage<V>(f: Any<V> -> seq<Any<V>>): Stage<V> {
    Stage(Nil, (_, x) => Reaction(Nil, f(x)))
  }

  function FoldStage<V>(init: Any<V>, f: (Any<V>, Any<V>) -> Any<V>): Stage<V> {
    Stage(init, (last, x) => var folded := f(x, last); Reaction(folded, [folded]))
  }

  function ReduceStage<V>(f: (Any<V>, Any<V>) -> Any<V>): Stage<V> {
    Stage(Nil, (last: Any<V>, x) => var reduced := if last.Nil? then x else f(last, x); Reaction(reduced, [reduced]))
  }

  function PassThroughStage<V>(): Stage<V> {
    Stage(Nil, (_, x) => Reaction(Nil, [x]))
  }

  // ---------- the loops ----------

  method FlatMapStream<V>(f: Any<V> -> seq<Any<V>>, input: seq<Any<V>>) returns (out: seq<Any<V>>)
    ensures out == Outputs(FlatMapStage(f), input)
  {
    out := [];
    for i := 0 to |input|
      invariant out == Outputs(FlatMapStage(f), input[..i])
    {
      ghost var before := out;
      var result := f(input[i]);
      for j := 0 to |result|
        invariant out == before + result[..j]
      {
        out := out + [result[j]];
      }
      OutputsSnoc(FlatMapStage(f), input[..i], input[i]);
      assert input[..i + 1] == input[..i] + [input[i]];
    }
    assert input[..|input|] == input;
  }

  method MapStream<V>(f: Any<V> -> Any<V>, input: seq<Any<V>>) returns (out: seq<Any<V>>)
    ensures out == Outputs(MapStage(f), input)
  {
    out := [];
    for i := 0 to |input|
      invariant out == Outputs(MapStage(f), input[..i])
    {
      out := out + [f(input[i])];
      OutputsSnoc(MapStage(f), input[..i], input[i]);
      assert input[..i + 1] == input[..i] + [input[i]];
    }
    assert input[..|input|] == input;
  }

  method FilterStream<V>(p: Any<V> -> bool, input: seq<Any<V>>) returns (out: seq<Any<V>>)
    ensures out == Outputs(FilterStage(p), input)
  {
    out := [];
    for i := 0 to |input|
      invariant out == Outputs(FilterStage(p), input[..i])
    {
      if p(input[i]) {
        out := out + [input[i]];
      }
      OutputsSnoc(FilterStage(p), input[..i], input[i]);
      assert input[..i + 1] == input[..i] + [input[i]];
    }
    assert input[..|input|] == input;
  }

  method FoldStream<V>(init: Any<V>, f: (Any<V>, Any<V>) -> Any<V>, input: seq<Any<V>>) returns (out: seq<Any<V>>)
    ensures out == Outputs(FoldStage(init, f), input)
  {
    var lastFolded := init;
    out := [];
    for i := 0 to |input|
      invariant lastFolded == StateAfter(FoldStage(init, f), input[..i])
      invariant out == Outputs(FoldStage(init, f), input[..i])
    {
      OutputsSnoc(FoldStage(init, f), input[..i], input[i]);
      lastFolded := f(input[i], lastFolded);
      out := out + [lastFolded];
      assert input[..i + 1] == input[..i] + [input[i]];
    }
    assert input[..|input|] == input;
  }

  method ReduceStream<V>(f: (Any<V>, Any<V>) -> Any<V>, input: seq<Any<V>>) returns (out: seq<Any<V>>)
    ensures out == Outputs(ReduceStage(f), input)
  {
    var lastReduced: Any<V> := Nil;
    out := [];
    for i := 0 to |input|
      invariant lastReduced == StateAfter(ReduceStage(f), input[..i])
      invariant out == Outputs(ReduceStage(f), input[..i])
    {
      OutputsSnoc(ReduceStage(f), input[..i], input[i]);
      if lastReduced.Nil? {
        lastReduced := input[i];
      } else {
        lastReduced := f(lastReduced, input[i]);
      }
      out := out + [lastReduced];
      assert input[..i + 1] == input[..i] + [input[i]];
    }
    assert input[..|input|] == input;
  }

  method PassThroughStream<V>(input: seq<Any<V>>) returns (out: seq<Any<V>>)
    ensures out == Outputs(PassThroughStage(), input)
  {
    out := [];
    for i := 0 to |input|
      invariant out == Outputs(PassThroughStage(), input[..i])
    {
      out := out + [input[i]];
      OutputsSnoc(PassThroughStage(), input[..i], input[i]);
      assert input[..i + 1] == input[..i] + [input[i]];
    }
    assert input[..|input|] == input;
  }

  // ---------- what the loops compute ----------

  lemma {:induction false} MapOutputs<V>(f: Any<V> -> Any<V>, input: seq<Any<V>>)
    ensures Outputs(MapStage(f), input) == Map(input, f)
  {
    if input != [] {
      var n := |input| - 1;
      MapOutputs(f, input[..n]);
      MapSnoc(input[..n], input[n], f);
      assert input == input[..n] + [input[n]];
    }
  }

  lemma {:induction false} FilterOutputs<V>(p: Any<V> -> bool, input: seq<Any<V>>)
    ensures Outputs(FilterStage(p), input) == Filter(input, p)
  {
    if input != [] {
      FilterOutputs(p, input[..|input| - 1]);
    }
  }

  lemma {:induction false} FlatMapOutputs<V>(f: Any<V> -> seq<Any<V>>, input: seq<Any<V>>)
    ensures Outputs(FlatMapStage(f), input) == Concat(Map(input, f))
  {
    if input != [] {
      var n := |input| - 1;
      FlatMapOutputs(f, input[..n]);
      MapSnoc(input[..n], input[n], f);
      ConcatSnoc(Map(input[..n], f), f(input[n]));
      assert input == input[..n] + [input[n]];
    }
  }

  lemma {:induction false} PassThroughOutputs<V>(input: seq<Any<V>>)
    ensures Outputs(PassThroughStage(), input) == input
  {
    if input != [] {
      var n := |input| - 1;
      PassThroughOutputs(input[..n]);
      assert input == input[..n] + [input[n]];
    }
  }

  lemma OutputsInit<V>(g: Stage<V>, input: seq<Any<V>>, n: nat)
    requires n <= |input|
    ensures Outputs(g, input[..n]) <= Outputs(g, input)
  {
    OutputsGrow(g, input[..n], input);
  }

  // Output i combines element i, given first, with the output before it, which for the
  // first element is the initial value.
  lemma {:induction false} FoldOutputs<V>(init: Any<V>, f: (Any<V>, Any<V>) -> Any<V>, input: seq<Any<V>>, i: nat)
    requires i < |input|
    ensures |Outputs(FoldStage(init, f), input)| == |input|
    ensures Outputs(FoldStage(init, f), input)[i] ==
            f(input[i], if i == 0 then init else Outputs(FoldStage(init, f), input)[i - 1])
  {
    FoldSteps(init, f, input[..i + 1]);
    FoldSteps(init, f, input);
    OutputsInit(FoldStage(init, f), input, i + 1);
    if i > 0 {
      FoldSteps(init, f, input[..i]);
      assert input[..i + 1][..i] == input[..i];
      OutputsInit(FoldStage(init, f), input, i);
    }
  }

  lemma {:induction false} FoldSteps<V>(init: Any<V>, f: (Any<V>, Any<V>) -> Any<V>, input: seq<Any<V>>)
    ensures var out := Outputs(FoldStage(init, f), input);
            |out| == |input| && StateAfter(FoldStage(init, f), input) == if out == [] then init else out[|out| - 1]
  {
    if input != [] {
      FoldSteps(init, f, input[..|input| - 1]);
    }
  }

  // What the loop computes: each further element is combined with the output before it,
  // given first, unless that output is nil, which starts the reduction over.
  lemma {:induction false} ReduceOutputs<V>(f: (Any<V>, Any<V>) -> Any<V>, input: seq<Any<V>>, i: nat)
    requires i < |input|
    ensures |Outputs(ReduceStage(f), input)| == |input|
    ensures var out := Outputs(ReduceStage(f), input);
            out[i] == if i == 0 || out[i - 1].Nil? then input[i] else f(out[i - 1], input[i])
  {
    ReduceSteps(f, input[..i + 1]);
    ReduceSteps(f, input);
    OutputsInit(ReduceStage(f), input, i + 1);
    if i > 0 {
      ReduceSteps(f, input[..i]);
      assert input[..i + 1][..i] == input[..i];
      OutputsInit(ReduceStage(f), input, i);
    }
  }

  lemma {:induction false} ReduceSteps<V>(f: (Any<V>, Any<V>) -> Any<V>, input: seq<Any<V>>)
    ensures var out := Outputs(ReduceStage(f), input);
            |out| == |input| && StateAfter(ReduceStage(f), input) == if out == [] then Nil else out[|out| - 1]
  {
    if input != [] {
      ReduceSteps(f, input[..|input| - 1]);
    }
  }

  // The rolling reduction of the documentation: the first element, then each further
  // element combined with the accumulated result.
  ghost predicate IsRolling<V>(f: (Any<V>, Any<V>) -> Any<V>, input: seq<Any<V>>, out: seq<Any<V>>) {
    |out| == |input| && forall i | 0 <= i < |out| :: RollsAt(f, input, out, i)
  }

  ghost predicate RollsAt<V>(f: (Any<V>, Any<V>) -> Any<V>, input: seq<Any<V>>, out: seq<Any<V>>, i: nat)
    requires i < |out| == |input|
  {
    out[i] == if i == 0 then input[i] else f(out[i - 1], input[i])
  }

  // At output i starting over is not called for, or gives what combining with nil would.
  ghost predicate RestartIsHarmless<V>(f: (Any<V>, Any<V>) -> Any<V>, input: seq<Any<V>>, out: seq<Any<V>>, i: nat)
    requires 0 < i < |out| == |input|
  {
    out[i - 1].Nil? ==> f(Nil, input[i]) == input[i]
  }

  // The code rolls the reduction exactly if every restart is harmless.
  lemma ReduceRollsIff<V>(f: (Any<V>, Any<V>) -> Any<V>, input: seq<Any<V>>)
    ensures var out := Outputs(ReduceStage(f), input);
            && |out| == |input|
            && (IsRolling(f, input, out) <==> forall i | 0 < i < |input| :: RestartIsHarmless(f, input, out, i))
  {
    ReduceSteps(f, input);
    var out := Outputs(ReduceStage(f), input);
    forall i | 0 <= i < |input|
      ensures i == 0 ==> RollsAt(f, input, out, i)
      ensures i > 0 ==> (RollsAt(f, input, out, i) <==> RestartIsHarmless(f, input, out, i))
    {
      ReduceOutputs(f, input, i);
    }
  }

  // With no nil in the input and no nil result, Reduce is the documented reduction.
  lemma NoNilMeansRolling<V(!new)>(f: (Any<V>, Any<V>) -> Any<V>, input: seq<Any<V>>)
    requires forall x | x in input :: x.Box?
    requires forall a: Any<V>, b: Any<V> :: a.Box? && b.Box? ==> f(a, b).Box?
    ensures IsRolling(f, input, Outputs(ReduceStage(f), input))
  {
    ReduceSteps(f, input);
    var out := Outputs(ReduceStage(f), input);
    for i := 0 to |input|
      invariant forall j | 0 <= j < i :: out[j].Box?
    {
      assert input[i] in input;
      ReduceOutputs(f, input, i);
    }
    ReduceRollsIff(f, input);
  }

  // A nil result can change the reduction: here the third output should be nil, since nil
  // combined with anything is, but the reduction has started over.
  lemma NilRestartsReduction() returns (f: (Any<int>, Any<int>) -> Any<int>, input: seq<Any<int>>)
    ensures input == [Box(1), Box(2), Box(3)]
    ensures !IsRolling(f, input, Outputs(ReduceStage(f), input))
  {
    f := (a: Any<int>, b: Any<int>) => if a.Nil? || b == Box(2) then Nil else b;
    input := [Box(1), Box(2), Box(3)];
    ReduceOutputs(f, input, 0);
    ReduceOutputs(f, input, 1);
    ReduceRollsIff(f, input);
    assert !RestartIsHarmless(f, input, Outputs(ReduceStage(f), input), 2);
  }
}
