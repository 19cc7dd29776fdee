/** The pool of workers behind FlatMap, Map and Filter, for any number of workers and any
    schedule (flow/flat_map.go:89-109, flow/map.go:89-106, flow/filter.go:93-112). */
module WorkerPools {
  import opened Sequences
  import opened Shuffles

  // A worker: receiving, sending what remains of the result for input element index, or
  // returned.
  datatype Worker<R> = Idle | Busy(index: nat, rest: seq<R>) | Returned

  // Each item on the output channel is tagged with the input element it comes from.
  datatype Pool<R> = Pool(taken: nat, workers: seq<Worker<R>>, waitGroup: int,
                          out: seq<(nat, R)>, outClosed: bool)

  ghost predicate Init<R>(p: nat, s: Pool<R>) {
    && |s.workers| == p == s.waitGroup
    && (forall w | 0 <= w < p :: s.workers[w] == Idle)
    && s.taken == 0 && s.out == [] && !s.outClosed
  }

  ghost predicate Receives<T, R>(f: T -> seq<R>, input: seq<T>, s: Pool<R>, s': Pool<R>, w: nat) {
    && w < |s.workers| && s.workers[w] == Idle && s.taken < |input|
    && s' == s.(taken := s.taken + 1, workers := s.workers[w := Busy(s.taken, f(input[s.taken]))])
  }

  // A send: nothing here checks that the channel is open, as nothing in the code does.
  ghost predicate Sends<R>(s: Pool<R>, s': Pool<R>, w: nat) {
    && w < |s.workers| && s.workers[w].Busy? && s.workers[w].rest != []
    && s' == s.(out := s.out + [(s.workers[w].index, s.workers[w].rest[0])],
                workers := s.workers[w := Busy(s.workers[w].index, s.workers[w].rest[1..])])
  }

  ghost predicate FinishesElement<R>(s: Pool<R>, s': Pool<R>, w: nat) {
    && w < |s.workers| && s.workers[w].Busy? && s.workers[w].rest == []
    && s' == s.(workers := s.workers[w := Idle])
  }

  // The input is drained and closed: the worker returns and is done with the wait group.
  ghost predicate Returns<T, R>(input: seq<T>, s: Pool<R>, s': Pool<R>, w: nat) {
    && w < |s.workers| && s.workers[w] == Idle && s.taken == |input|
    && s' == s.(workers := s.workers[w := Returned], waitGroup := s.waitGroup - 1)
  }

  ghost predicate Closes<R>(s: Pool<R>, s': Pool<R>) {
    s.waitGroup == 0 && !s.outClosed && s' == s.(outClosed := true)
  }

  ghost predicate WorkerMoves<T, R>(f: T -> seq<R>, input: seq<T>, s: Pool<R>, s': Pool<R>, w: nat) {
    Receives(f, input, s, s', w) || Sends(s, s', w) || FinishesElement(s, s', w) || Returns(input, s, s', w)
  }

  ghost predicate Next<T, R>(f: T -> seq<R>, input: seq<T>, s: Pool<R>, s': Pool<R>) {
    (exists w :: WorkerMoves(f, input, s, s', w)) || Closes(s, s')
  }

  ghost predicate IsRun<T, R>(f: T -> seq<R>, input: seq<T>, p: nat, run: seq<Pool<R>>) {
    && run != [] && Init(p, run[0])
    && forall i | 0 < i < |run| :: Next(f, input, run[i - 1], run[i])
  }

  ghost function Last<R>(run: seq<Pool<R>>): Pool<R>
    requires run != []
  {
    run[|run| - 1]
  }

  // ---------- the invariant ----------

  ghost function Live<R>(workers: seq<Worker<R>>): nat {
    if workers == [] then 0
    else Live(workers[..|workers| - 1]) + if workers[|workers| - 1] == Returned then 0 else 1
  }

  ghost predicate Handles<R>(s: Pool<R>, w: nat, j: nat) {
    w < |s.workers| && s.workers[w].Busy? && s.workers[w].index == j
  }

  ghost predicate Inv<T, R>(f: T -> seq<R>, input: seq<T>, p: nat, s: Pool<R>) {
    && |s.workers| == p && s.taken <= |input|
    && s.waitGroup == Live(s.workers) && (s.outClosed ==> s.waitGroup == 0)
    && (forall w | 0 <= w < p && s.workers[w] == Returned :: s.taken == |input|)
    && (forall t | t in s.out :: t.0 < s.taken)
    && (forall w: nat, j: nat | Handles(s, w, j) :: j < s.taken && Branch(s.out, j) + s.workers[w].rest == f(input[j]))
    && (forall w: nat, v: nat, j: nat | Handles(s, w, j) && Handles(s, v, j) :: w == v)
    && (forall j: nat | j < s.taken :: Branch(s.out, j) == f(input[j]) || exists w: nat :: Handles(s, w, j))
  }

  lemma {:induction false} LiveChanges<R>(workers: seq<Worker<R>>, w: nat, x: Worker<R>)
    requires w < |workers|
    ensures Live(workers[w := x]) == Live(workers) - (if workers[w] == Returned then 0 else 1)
                                     + if x == Returned then 0 else 1
  {
    var n := |workers| - 1;
    if w == n {
      assert workers[w := x][..n] == workers[..n];
    } else {
      LiveChanges(workers[..n], w, x);
      assert workers[w := x][..n] == workers[..n][w := x];
    }
  }

  lemma ReceivesKeepsInv<T, R>(f: T -> seq<R>, input: seq<T>, p: nat, s: Pool<R>, s': Pool<R>, w: nat)
    requires Inv(f, input, p, s) && Receives(f, input, s, s', w)
    ensures Inv(f, input, p, s')
  {
    LiveChanges(s.workers, w, s'.workers[w]);
    BranchOfStranger(s.out, s.taken);
    assert Handles(s', w, s.taken);
    forall v: nat, j: nat ensures Handles(s', v, j) <==> if v == w then j == s.taken else Handles(s, v, j) {
    }
  }

  lemma SendsKeepsInv<T, R>(f: T -> seq<R>, input: seq<T>, p: nat, s: Pool<R>, s': Pool<R>, w: nat)
    requires Inv(f, input, p, s) && Sends(s, s', w)
    ensures Inv(f, input, p, s')
  {
    LiveChanges(s.workers, w, s'.workers[w]);
    var j, x, rest := s.workers[w].index, s.workers[w].rest[0], s.workers[w].rest[1..];
    assert Handles(s, w, j) && Handles(s', w, j);
    assert Branch(s'.out, j) + rest == Branch(s.out, j) + s.workers[w].rest by {
      BranchSnoc(s.out, j, x);
      assert s.workers[w].rest == [x] + rest;
    }
    assert forall i | i != j :: Branch(s'.out, i) == Branch(s.out, i) by {
      BranchSnoc(s.out, j, x);
    }
    assert forall v: nat, i: nat :: Handles(s', v, i) <==> Handles(s, v, i);
  }

  lemma QuietStepKeepsInv<T, R>(f: T -> seq<R>, input: seq<T>, p: nat, s: Pool<R>, s': Pool<R>, w: nat)
    requires Inv(f, input, p, s) && (FinishesElement(s, s', w) || Returns(input, s, s', w))
    ensures Inv(f, input, p, s')
  {
    LiveChanges(s.workers, w, s'.workers[w]);
    if s.workers[w].Busy? {
      var i := s.workers[w].index;
      assert Handles(s, w, i);
      assert Branch(s.out, i) + [] == Branch(s.out, i);
    }
    forall v: nat, j: nat ensures Handles(s', v, j) <==> v != w && Handles(s, v, j) {
    }
    forall j: nat | j < s'.taken && Branch(s'.out, j) != f(input[j]) ensures exists v: nat :: Handles(s', v, j) {
      var v: nat :| Handles(s, v, j);
      assert Handles(s', v, j);
    }
  }

  lemma NextKeepsInv<T, R>(f: T -> seq<R>, input: seq<T>, p: nat, s: Pool<R>, s': Pool<R>)
    requires Inv(f, input, p, s) && Next(f, input, s, s')
    ensures Inv(f, input, p, s')
  {
    if Closes(s, s') {
      forall v: nat, j: nat ensures Handles(s', v, j) <==> Handles(s, v, j) {
      }
    } else {
      var w: nat :| WorkerMoves(f, input, s, s', w);
      if Receives(f, input, s, s', w) {
        ReceivesKeepsInv(f, input, p, s, s', w);
      } else if Sends(s, s', w) {
        SendsKeepsInv(f, input, p, s, s', w);
      } else {
        QuietStepKeepsInv(f, input, p, s, s', w);
      }
    }
  }

  lemma {:induction false} RunKeepsInv<T, R>(f: T -> seq<R>, input: seq<T>, p: nat, run: seq<Pool<R>>)
    requires IsRun(f, input, p, run)
    ensures forall i | 0 <= i < |run| :: Inv(f, input, p, run[i])
  {
    AllIdleAreLive(run[0].workers);
    for i := 1 to |run|
      invariant forall j | 0 <= j < i :: Inv(f, input, p, run[j])
    {
      NextKeepsInv(f, input, p, run[i - 1], run[i]);
    }
  }

  lemma {:induction false} AllIdleAreLive<R>(workers: seq<Worker<R>>)
    requires forall w | 0 <= w < |workers| :: workers[w] == Idle
    ensures Live(workers) == |workers|
  {
    if workers != [] {
      AllIdleAreLive(workers[..|workers| - 1]);
    }
  }

  lemma {:induction false} NoneLive<R>(workers: seq<Worker<R>>)
    ensures Live(workers) == 0 <==> forall w | 0 <= w < |workers| :: workers[w] == Returned
  {
    if workers != [] {
      NoneLive(workers[..|workers| - 1]);
    }
  }

  // ---------- the theorems ----------

  // No worker is about to send on the output channel once it is closed.
  lemma NoSendAfterClose<T, R>(f: T -> seq<R>, input: seq<T>, p: nat, run: seq<Pool<R>>)
    requires IsRun(f, input, p, run) && Last(run).outClosed
    ensures |Last(run).workers| == p && forall w | 0 <= w < p :: Last(run).workers[w] == Returned
    ensures forall w, s' :: !Sends(Last(run), s', w)
  {
    RunKeepsInv(f, input, p, run);
    NoneLive(Last(run).workers);
  }

  // For any number of workers and any schedule, once the output is closed it is a shuffle
  // of the results for the input elements: each result is there whole and in order, and
  // so the output is a permutation of all the results.
  lemma PoolIsCorrect<T, R>(f: T -> seq<R>, input: seq<T>, p: nat, run: seq<Pool<R>>)
    requires IsRun(f, input, p, run) && p >= 1 && Last(run).outClosed
    ensures IsShuffle(Last(run).out, Map(input, f))
    ensures multiset(Untagged(Last(run).out)) == multiset(Concat(Map(input, f)))
  {
    RunKeepsInv(f, input, p, run);
    NoSendAfterClose(f, input, p, run);
    assert Last(run).workers[0] == Returned;
    ShuffleIsPermutation(Last(run).out, Map(input, f));
  }

  // With one worker the output is the concatenation of the results, in input order, at
  // every moment up to what the worker has not sent yet.
  lemma SingleWorkerKeepsOrder<T, R>(f: T -> seq<R>, input: seq<T>, run: seq<Pool<R>>)
    requires IsRun(f, input, 1, run)
    ensures var s := Last(run);
            && |s.workers| == 1 && s.taken <= |input|
            && Untagged(s.out) + Unsent(s) == Concat(Map(input[..s.taken], f))
            && (s.outClosed ==> Untagged(s.out) == Concat(Map(input, f)))
  {
    for i := 1 to |run|
      invariant |run[i - 1].workers| == 1 && SingleWorkerInv(f, input, run[i - 1])
    {
      assert Next(f, input, run[i - 1], run[i]);
      if !Closes(run[i - 1], run[i]) {
        var w: nat :| WorkerMoves(f, input, run[i - 1], run[i], w);
        SingleWorkerStep(f, input, run[i - 1], run[i], w);
      }
    }
    var s := Last(run);
    if s.outClosed {
      RunKeepsInv(f, input, 1, run);
      NoSendAfterClose(f, input, 1, run);
      assert s.workers[0] == Returned;
      assert input[..s.taken] == input;
      assert Untagged(s.out) + [] == Untagged(s.out);
    }
  }

  ghost function Unsent<R>(s: Pool<R>): seq<R>
    requires |s.workers| == 1
  {
    if s.workers[0].Busy? then s.workers[0].rest else []
  }

  ghost predicate SingleWorkerInv<T, R>(f: T -> seq<R>, input: seq<T>, s: Pool<R>)
    requires |s.workers| == 1
  {
    s.taken <= |input| && Untagged(s.out) + Unsent(s) == Concat(Map(input[..s.taken], f))
  }

  lemma SingleWorkerReceives<T, R>(f: T -> seq<R>, input: seq<T>, s: Pool<R>, s': Pool<R>)
    requires |s.workers| == 1 && Receives(f, input, s, s', 0) && SingleWorkerInv(f, input, s)
    ensures SingleWorkerInv(f, input, s')
  {
    var t := s.taken;
    assert Untagged(s.out) + [] == Untagged(s.out);
    assert input[..t + 1] == input[..t] + [input[t]];
    MapSnoc(input[..t], input[t], f);
    ConcatSnoc(Map(input[..t], f), f(input[t]));
  }

  lemma SingleWorkerSends<R>(s: Pool<R>, s': Pool<R>)
    requires |s.workers| == 1 && Sends(s, s', 0)
    ensures Untagged(s'.out) + Unsent(s') == Untagged(s.out) + Unsent(s)
  {
    var unsent := s.workers[0].rest;
    UntaggedMoves(s.out, s.workers[0].index, unsent[0], unsent[1..]);
    assert unsent == [unsent[0]] + unsent[1..];
    assert Unsent(s') == unsent[1..];
  }

  lemma SingleWorkerStep<T, R>(f: T -> seq<R>, input: seq<T>, s: Pool<R>, s': Pool<R>, w: nat)
    requires WorkerMoves(f, input, s, s', w) && |s.workers| == 1 && SingleWorkerInv(f, input, s)
    ensures SingleWorkerInv(f, input, s')
  {
    if Receives(f, input, s, s', w) {
      SingleWorkerReceives(f, input, s, s');
    } else if Sends(s, s', w) {
      SingleWorkerSends(s, s');
    }
  }

  // ---------- termination ----------

  ghost function WorkerDebt<R>(worker: Worker<R>): nat {
    match worker
    case Idle => 1
    case Busy(_, rest) => |rest| + 2
    case Returned => 0
  }

  ghost function PoolDebt<R>(workers: seq<Worker<R>>): nat {
    if workers == [] then 0 else PoolDebt(workers[..|workers| - 1]) + WorkerDebt(workers[|workers| - 1])
  }

  ghost function InputDebt<T, R>(f: T -> seq<R>, input: seq<T>): nat {
    if input == [] then 0 else |f(input[0])| + 2 + InputDebt(f, input[1..])
  }

  // The number of steps still to come.
  ghost function Debt<T, R>(f: T -> seq<R>, input: seq<T>, s: Pool<R>): nat
    requires s.taken <= |input|
  {
    InputDebt(f, input[s.taken..]) + PoolDebt(s.workers) + if s.outClosed then 0 else 1
  }

  lemma {:induction false} PoolDebtChanges<R>(workers: seq<Worker<R>>, w: nat, x: Worker<R>)
    requires w < |workers|
    ensures PoolDebt(workers[w := x]) == PoolDebt(workers) - WorkerDebt(workers[w]) + WorkerDebt(x)
  {
    var n := |workers| - 1;
    if w == n {
      assert workers[w := x][..n] == workers[..n];
    } else {
      PoolDebtChanges(workers[..n], w, x);
      assert workers[w := x][..n] == workers[..n][w := x];
    }
  }

  // Every step pays off exactly one unit of debt, so every run of the pool ends, and every
  // run that closes the output takes the same number of steps.
  lemma NextPaysDebt<T, R>(f: T -> seq<R>, input: seq<T>, s: Pool<R>, s': Pool<R>)
    requires s.taken <= |input| && Next(f, input, s, s')
    ensures s'.taken <= |input| && Debt(f, input, s') == Debt(f, input, s) - 1
  {
    if !Closes(s, s') {
      var w: nat :| WorkerMoves(f, input, s, s', w);
      PoolDebtChanges(s.workers, w, s'.workers[w]);
      if Receives(f, input, s, s', w) {
        assert input[s.taken..][1..] == input[s'.taken..];
      }
    }
  }

  lemma {:induction false} RunPaysDebt<T, R>(f: T -> seq<R>, input: seq<T>, p: nat, run: seq<Pool<R>>)
    requires IsRun(f, input, p, run)
    ensures Last(run).taken <= |input|
    ensures |run| - 1 + Debt(f, input, Last(run)) == InputDebt(f, input) + p + 1
  {
    if |run| > 1 {
      RunPaysDebt(f, input, p, run[..|run| - 1]);
      NextPaysDebt(f, input, run[|run| - 2], run[|run| - 1]);
    } else {
      IdleDebt(run[0].workers);
      assert input[0..] == input;
    }
  }

  lemma {:induction false} IdleDebt<R>(workers: seq<Worker<R>>)
    requires forall w | 0 <= w < |workers| :: workers[w] == Idle
    ensures PoolDebt(workers) == |workers|
  {
    if workers != [] {
      IdleDebt(workers[..|workers| - 1]);
    }
  }

  // As long as the output is open, some goroutine can move, given a consumer that reads on.
  lemma PoolCanMove<T, R>(f: T -> seq<R>, input: seq<T>, p: nat, run: seq<Pool<R>>)
    requires IsRun(f, input, p, run) && !Last(run).outClosed
    ensures exists s' :: Next(f, input, Last(run), s')
  {
    RunKeepsInv(f, input, p, run);
    var s := Last(run);
    NoneLive(s.workers);
    var s';
    if s.waitGroup == 0 {
      s' := s.(outClosed := true);
      assert Closes(s, s');
    } else {
      var w: nat :| w < p && s.workers[w] != Returned;
      var worker := s.workers[w];
      s' := if worker.Idle? && s.taken < |input|
            then s.(taken := s.taken + 1, workers := s.workers[w := Busy(s.taken, f(input[s.taken]))])
            else if worker.Idle? then s.(workers := s.workers[w := Returned], waitGroup := s.waitGroup - 1)
            else if worker.rest == [] then s.(workers := s.workers[w := Idle])
            else s.(out := s.out + [(worker.index, worker.rest[0])],
                    workers := s.workers[w := Busy(worker.index, worker.rest[1..])]);
      assert WorkerMoves(f, input, s, s', w);
    }
    assert Next(f, input, s, s');
  }

  // ---------- parallelism ----------

  // The workers really work in parallel: whatever the function, as many of them as there
  // are elements can each hold one at the same time, before any output is sent.
  lemma {:induction false} WorkersRunInParallel<T, R>(f: T -> seq<R>, input: seq<T>, p: nat, n: nat)
    returns (run: seq<Pool<R>>)
    requires n <= p && n <= |input|
    ensures IsRun(f, input, p, run)
    ensures var s := Last(run);
            && |s.workers| == p && s.taken == n && s.out == []
            && (forall w | 0 <= w < n :: s.workers[w] == Busy(w, f(input[w])))
            && (forall w | n <= w < p :: s.workers[w] == Idle)
  {
    if n == 0 {
      run := [Pool(0, seq(p, _ => Idle), p, [], false)];
    } else {
      run := WorkersRunInParallel(f, input, p, n - 1);
      var s := Last(run);
      var s' := s.(taken := n, workers := s.workers[n - 1 := Busy(n - 1, f(input[n - 1]))]);
      assert WorkerMoves(f, input, s, s', n - 1);
      run := run + [s'];
    }
  }

  // ---------- Map and Filter ----------

  ghost function One<T, R>(m: T -> R): T -> seq<R> {
    (x: T) => [m(x)]
  }

  ghost function ZeroOrOne<T>(p: T -> bool): T -> seq<T> {
    (x: T) => if p(x) then [x] else []
  }

  lemma {:induction false} ConcatOfOnes<T, R>(m: T -> R, input: seq<T>)
    ensures Concat(Map(input, One(m))) == Map(input, m)
  {
    if input != [] {
      var n := |input| - 1;
      assert input == input[..n] + [input[n]];
      ConcatOfOnes(m, input[..n]);
      MapSnoc(input[..n], input[n], m);
      MapSnoc(input[..n], input[n], One(m));
      ConcatSnoc(Map(input[..n], One(m)), [m(input[n])]);
    }
  }

  lemma {:induction false} ConcatOfZeroOrOnes<T>(p: T -> bool, input: seq<T>)
    ensures Concat(Map(input, ZeroOrOne(p))) == Filter(input, p)
  {
    if input != [] {
      var n := |input| - 1;
      assert input == input[..n] + [input[n]];
      ConcatOfZeroOrOnes(p, input[..n]);
      MapSnoc(input[..n], input[n], ZeroOrOne(p));
      ConcatSnoc(Map(input[..n], ZeroOrOne(p)), ZeroOrOne(p)(input[n]));
    }
  }

  // A pool of Map workers outputs a permutation of the mapped input; one worker, the
  // mapped input.
  lemma MapPoolIsCorrect<T, R>(m: T -> R, input: seq<T>, p: nat, run: seq<Pool<R>>)
    requires IsRun(One(m), input, p, run) && p >= 1 && Last(run).outClosed
    ensures multiset(Untagged(Last(run).out)) == multiset(Map(input, m))
    ensures p == 1 ==> Untagged(Last(run).out) == Map(input, m)
  {
    PoolIsCorrect(One(m), input, p, run);
    ConcatOfOnes(m, input);
    if p == 1 { SingleWorkerKeepsOrder(One(m), input, run); }
  }

  // A pool of Filter workers outputs a permutation of the filtered input; one worker, the
  // filtered input.
  lemma FilterPoolIsCorrect<T>(q: T -> bool, input: seq<T>, p: nat, run: seq<Pool<T>>)
    requires IsRun(ZeroOrOne(q), input, p, run) && p >= 1 && Last(run).outClosed
    ensures multiset(Untagged(Last(run).out)) == multiset(Filter(input, q))
    ensures p == 1 ==> Untagged(Last(run).out) == Filter(input, q)
  {
    PoolIsCorrect(ZeroOrOne(q), input, p, run);
    ConcatOfZeroOrOnes(q, input);
    if p == 1 { SingleWorkerKeepsOrder(ZeroOrOne(q), input, run); }
  }
}
