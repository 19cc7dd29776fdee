/** Runs of the sliding window that do what its documentation does not say. */
module SlidingCounterexamples {
  import opened Sequences
  import opened SlidingWindow
  import opened SlidingRuns
  import opened SlidingTheorems

  // A run whose first element, one nanosecond before the epoch, is dropped by the window it
  // has just started.
  lemma FirstElementDropped() returns (c: Config, run: seq<State<int>>)
    ensures IsRun(c, run)
    ensures Last(run).arrivals == [Arrival(Timed(7, -1), 0, 0, 0)] && Last(run).firstTime == -1
    ensures Last(run).queue == [] && !Accepted(c, Last(run).first, Last(run).arrivals[0])
  {
    c := Options(10, 10, 0, false);
    var x := Timed(7, -1);
    var s0: State<int> := State(0, AwaitingFirst, NotStarted, 0, 0, [], [], 0, 0, 0, [], [], false);
    var s1: State<int> := State(0, Reading, NotStarted, -1, 0, [], [], 0, -1, 0, [Arrival(x, 0, 0, 0)], [], false);
    assert ReadsFirst(c, s0, s1, -1, x) by {
      assert [] + [Arrival(x, 0, 0, 0)] == [Arrival(x, 0, 0, 0)];
    }
    run := [s0, s1];
  }

  // The comment at the final dispatch says that all remaining data is processed.  It is
  // not when the input closes before the initial delay is over: this run accepts an
  // element and closes its output without emitting it.
  lemma ShutdownLosesElements() returns (c: Config, run: seq<State<int>>, a: Arrival<int>)
    ensures IsRun(c, run) && Last(run).emitting == Closed
    ensures a in Last(run).arrivals && Accepted(c, Last(run).first, a)
    ensures !Emitted(c, Last(run).first, a, |Last(run).windows|)
  {
    c := Options(50, 20, 0, false);
    var x := Timed(7, 2);
    a := Arrival(x, 0, 0, 2);
    var s0: State<int> := State(2, AwaitingFirst, NotStarted, 0, 0, [], [], 0, 0, 0, [], [], false);
    var s1: State<int> := State(2, Reading, NotStarted, 2, 0, [x], [], 0, 2, 2, [a], [], false);
    var s2 := s1.(emitting := InitialWait(2));
    var s3 := s2.(streaming := Done);
    var s4 := s3.(emitting := Closed);
    run := [s0, s1, s2, s3, s4];
    forall i | 0 < i < |run| ensures Next(c, run[i - 1], run[i]) {
      if i == 1 {
        assert ReadsFirst(c, s0, s1, 2, x) by {
          assert [] + [x] == [x] && [] + [a] == [a];
        }
      }
    }
  }

  // Size and interval 10, no lateness allowed, full windows only.
  ghost const TEN: Config := Options(10, 10, 0, false)

  ghost predicate Reaches(s: State<int>) {
    exists run :: IsRun(TEN, run) && Last(run) == s
  }

  lemma ReachesNext(s: State<int>, s': State<int>)
    requires Reaches(s) && Next(TEN, s, s')
    ensures Reaches(s')
  {
    var run :| IsRun(TEN, run) && Last(run) == s;
    var run' := Extend(TEN, run, s');
  }

  // The operator with its first element, before the emission starts.
  lemma FirstElementRead()
    ensures var x := Timed(1, 2);
            Reaches(State(2, Reading, NotStarted, 2, 0, [x], [], 0, 2, 2, [Arrival(x, 0, 0, 2)], [], false))
  {
    var x := Timed(1, 2);
    var s0: State<int> := State(2, AwaitingFirst, NotStarted, 0, 0, [], [], 0, 0, 0, [], [], false);
    var s1: State<int> := State(2, Reading, NotStarted, 2, 0, [x], [], 0, 2, 2, [Arrival(x, 0, 0, 2)], [], false);
    assert ReadsFirst(TEN, s0, s1, 2, x) by {
      assert [] + [x] == [x] && [] + [Arrival(x, 0, 0, 2)] == [Arrival(x, 0, 0, 2)];
    }
    assert IsRun(TEN, [s0]) && Last([s0]) == s0;
    ReachesNext(s0, s1);
  }

  // Its ticker is running, and the first tick is due.
  lemma FirstTickDue()
    ensures var x := Timed(1, 2);
            Reaches(State(12, Reading, Ticking(2), 2, 0, [x], [], 0, 2, 2, [Arrival(x, 0, 0, 2)], [], false))
  {
    FirstElementRead();
    var x := Timed(1, 2);
    var s1: State<int> := State(2, Reading, NotStarted, 2, 0, [x], [], 0, 2, 2, [Arrival(x, 0, 0, 2)], [], false);
    var s2 := s1.(emitting := InitialWait(2));
    assert EmitStarts(s1, s2);
    ReachesNext(s1, s2);
    var s3 := s2.(emitting := Ticking(2));
    assert TimerFires(TEN, s2, s3);
    ReachesNext(s2, s3);
    var s4 := s3.(now := 12);
    assert ClockAdvances(s3, s4);
    ReachesNext(s3, s4);
  }

  // A window takes an element that is not after its slide out of the queue.
  lemma OneElementSplits(c: Config, x: Timed<int>)
    requires x.time <= c.slidingInterval
    ensures SplitsInto(c, 0, [x], [x], [], [x])
  {
    FilterSnoc([], x, NotAfter(c.windowSize));
    FilterSnoc([], x, IsAfter(c.slidingInterval));
    assert [] + [x] == [x] && [x] + [] == [x];
  }

  lemma OneElementDispatched(c: Config, x: Timed<int>)
    requires x.time <= c.slidingInterval
    ensures Dispatched(c, 0, [x], c.slidingInterval, [], [x])
  {
    OneElementSplits(c, x);
  }

  lemma TickTakesOne(c: Config, s: State<int>, x: Timed<int>)
    requires s.emitting.Ticking? && s.emitting.created + Elapsed(c, |s.windows| + 1) <= s.now
    requires s.queue == [x] && s.lowerBoundary == 0 && x.time <= c.slidingInterval
    ensures Next(c, s, AfterDispatch(s, c.slidingInterval, [], [x], false))
  {
    OneElementDispatched(c, x);
    DispatchIs(c, s, c.slidingInterval, [], [x], false);
    assert Ticks(c, s, AfterDispatch(s, c.slidingInterval, [], [x], false));
  }

  // The first window is being sent.
  lemma FirstWindowSending()
    ensures var x := Timed(1, 2);
            Reaches(State(12, Reading, Sending([x], 2, false), 2, 10, [], [], 0, 2, 2,
                          [Arrival(x, 0, 0, 2)], [[x]], false))
  {
    FirstTickDue();
    var x := Timed(1, 2);
    var s: State<int> := State(12, Reading, Ticking(2), 2, 0, [x], [], 0, 2, 2, [Arrival(x, 0, 0, 2)], [], false);
    assert Elapsed(TEN, 1) == 10;
    TickTakesOne(TEN, s, x);
    ReachesNext(s, AfterDispatch(s, 10, [], [x], false));
    assert [] + [[x]] == [[x]];
  }

  // An element with event time 15, received at 15, waits for the mutex that the send holds.
  // The window is delivered, and the next tick comes before the element is processed.
  lemma SecondTickFirst()
    ensures var x, y := Timed(1, 2), Timed(2, 15);
            Reaches(State(22, Holding(y, 15, 1), Ticking(2), 2, 20, [], [[1]], 0, 2, 2,
                          [Arrival(x, 0, 0, 2)], [[x], []], false))
  {
    FirstWindowSending();
    var x, y := Timed(1, 2), Timed(2, 15);
    var s: State<int> := State(12, Reading, Sending([x], 2, false), 2, 10, [], [], 0, 2, 2,
                               [Arrival(x, 0, 0, 2)], [[x]], false);
    var s0 := s.(now := 15);
    assert ClockAdvances(s, s0);
    ReachesNext(s, s0);
    var s1 := s0.(streaming := Holding(y, 15, 1));
    assert Receives(s0, s1, y);
    ReachesNext(s0, s1);
    var s2 := s1.(now := 22);
    assert ClockAdvances(s1, s2);
    ReachesNext(s1, s2);
    var s3 := s2.(sent := [[1]], emitting := Ticking(2));
    assert Delivers(s2, s3) by {
      assert Elements([x]) == [1] && [] + [[1]] == [[1]];
    }
    ReachesNext(s2, s3);
    var s4 := AfterDispatch(s3, 20, [], [], false);
    assert Elapsed(TEN, 1) == 10 && Elapsed(TEN, 2) == 20;
    assert SplitsInto<int>(TEN, 10, [], [], [], []);
    DispatchIs(TEN, s3, 20, [], [], false);
    assert Ticks(TEN, s3, s4);
    ReachesNext(s3, s4);
    assert [[x]] + [[]] == [[x], []];
  }

  // It moves the boundary past the element, which is dropped although it was received in
  // time.
  lemma HeldUpElementDropped() returns (c: Config, run: seq<State<int>>, a: Arrival<int>)
    ensures IsRun(c, run) && a in Last(run).arrivals && a.item.time == a.at && c.allowedLateness == 0
    ensures Last(run).firstTime <= Last(run).firstAt && !c.emitPartialWindow && Last(run).first <= a.item.time
    ensures !Accepted(c, Last(run).first, a)
  {
    SecondTickFirst();
    var x, y := Timed(1, 2), Timed(2, 15);
    var s: State<int> := State(22, Holding(y, 15, 1), Ticking(2), 2, 20, [], [[1]], 0, 2, 2,
                               [Arrival(x, 0, 0, 2)], [[x], []], false);
    a := Arrival(y, 1, 2, 15);
    var s' := s.(streaming := Reading, arrivals := [Arrival(x, 0, 0, 2), a]);
    assert Processes(s, s') by {
      assert [Arrival(x, 0, 0, 2)] + [a] == [Arrival(x, 0, 0, 2), a];
    }
    ReachesNext(s, s');
    c := TEN;
    run :| IsRun(TEN, run) && Last(run) == s';
    assert Elapsed(c, 1) == 10 && Elapsed(c, 2) == 20;
  }
}
