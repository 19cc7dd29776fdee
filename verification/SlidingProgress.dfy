/** The sliding window never deadlocks, its ticks can come as soon as they are due, and it
    does not close without a last dispatch. */
module SlidingProgress {
  import opened SlidingWindow
  import opened SlidingRuns
  import opened SlidingTheorems

  // The steps of the two goroutines that wait for neither the input nor the clock.
  ghost predicate OperatorMoves<T(!new)>(c: Config, s: State<T>, s': State<T>) {
    || Processes(s, s') || EmitStarts(s, s') || QuitsEarly(s, s') || DispatchesLast(c, s, s') || Delivers(s, s')
  }

  // The clock advances, and then the timer fires or the ticker ticks.
  ghost predicate MovesInTime<T(!new)>(c: Config, s: State<T>, m: State<T>, s': State<T>) {
    ClockAdvances(s, m) && (TimerFires(c, m, s') || Ticks(c, m, s'))
  }

  lemma DispatchExists<T(!new)>(c: Config, s: State<T>, last: bool) returns (s': State<T>)
    requires s.emitting.Ticking?
    ensures Dispatches(c, s, s', last)
  {
    var sorted := SomeSorted(s.queue);
    var window := UpTo(sorted, s.lowerBoundary + c.windowSize);
    var lower := s.lowerBoundary + c.slidingInterval;
    var queue := After(sorted, lower);
    assert SplitsInto(c, s.lowerBoundary, s.queue, sorted, queue, window);
    s' := AfterDispatch(s, lower, queue, window, last);
    DispatchIs(c, s, lower, queue, window, last);
  }

  // No schedule deadlocks.  Until the output is closed the operator can move by itself, or
  // waits for its first element, or waits for the input and the clock, and then its timer
  // or ticker brings it on without any input.  Once the input is closed it waits for nothing.
  lemma SlidingCanMove<T(!new)>(c: Config, run: seq<State<T>>)
    requires IsRun(c, run) && Last(run).emitting != Closed
    ensures var s := Last(run);
            || (exists s' :: OperatorMoves(c, s, s'))
            || s.streaming == AwaitingFirst
            || (s.streaming == Reading && exists m, s' :: MovesInTime(c, s, m, s'))
  {
    var s := Last(run);
    var e := s.emitting;
    if e.Sending? {
      assert OperatorMoves(c, s, s.(sent := s.sent + [Elements(e.window)], emitting := Resume(e.created, e.last)));
    } else if s.streaming.Holding? {
      var h := s.streaming;
      assert OperatorMoves(c, s, Queue(s.(streaming := Reading), h.x, h.received, h.at));
    } else if s.streaming == Done {
      DoneCanMove(c, s);
    } else if s.streaming == Reading {
      ReadingCanMove(c, s);
    }
  }

  lemma DoneCanMove<T(!new)>(c: Config, s: State<T>)
    requires s.streaming == Done && s.emitting != Closed && !s.emitting.Sending?
    ensures exists s' :: OperatorMoves(c, s, s')
  {
    if s.emitting == NotStarted {
      assert OperatorMoves(c, s, s.(emitting := InitialWait(s.now)));
    } else if s.emitting.InitialWait? {
      assert OperatorMoves(c, s, s.(emitting := Closed));
    } else {
      var s' := DispatchExists(c, s, true);
      assert OperatorMoves(c, s, s');
    }
  }

  lemma ReadingCanMove<T(!new)>(c: Config, s: State<T>)
    requires s.streaming == Reading && s.emitting != Closed && !s.emitting.Sending?
    ensures (exists s' :: OperatorMoves(c, s, s')) || exists m, s' :: MovesInTime(c, s, m, s')
  {
    if s.emitting == NotStarted {
      assert OperatorMoves(c, s, s.(emitting := InitialWait(s.now)));
    } else if s.emitting.InitialWait? {
      var due := s.emitting.since + c.InitialDelay(s.delta);
      var m := s.(now := if s.now < due then due else s.now);
      assert MovesInTime(c, s, m, m.(emitting := Ticking(m.now)));
    } else {
      var due := s.emitting.created + Elapsed(c, |s.windows| + 1);
      var m := s.(now := if s.now < due then due else s.now);
      var s' := DispatchExists(c, m, false);
      assert MovesInTime(c, s, m, s');
    }
  }

  // ---------- ticks on time ----------

  // The emission has started; while it waits, its timer is of time at.
  ghost predicate WaitsSince<T>(s: State<T>, at: int) {
    s.emitting != NotStarted && (s.emitting.InitialWait? ==> s.emitting.since == at)
  }

  // Its ticker, if it still runs, is of time at.
  ghost predicate TicksSince<T>(s: State<T>, at: int) {
    && (s.emitting.Ticking? || s.emitting.Sending? || s.emitting == Closed)
    && (s.emitting.Ticking? || s.emitting.Sending? ==> s.emitting.created == at)
  }

  lemma NextKeepsTimers<T(!new)>(c: Config, s: State<T>, s': State<T>, at: int)
    requires Next(c, s, s') && s.streaming != AwaitingFirst
    ensures s'.streaming != AwaitingFirst
    ensures (WaitsSince(s, at) ==> WaitsSince(s', at)) && (TicksSince(s, at) ==> TicksSince(s', at))
  {
  }

  lemma {:induction false} RunKeepsTimers<T(!new)>(c: Config, run: seq<State<T>>, j: nat)
    requires IsRun(c, run) && j < |run| && run[j].emitting != NotStarted
    ensures WaitsSince(run[j], run[j].now) ==> WaitsSince(Last(run), run[j].now)
    ensures TicksSince(run[j], run[j].now) ==> TicksSince(Last(run), run[j].now)
  {
    assert run[j].streaming != AwaitingFirst by {
      RunKeepsInv(c, run);
    }
    for i := j + 1 to |run|
      invariant run[i - 1].streaming != AwaitingFirst
      invariant WaitsSince(run[j], run[j].now) ==> WaitsSince(run[i - 1], run[j].now)
      invariant TicksSince(run[j], run[j].now) ==> TicksSince(run[i - 1], run[j].now)
    {
      NextKeepsTimers(c, run[i - 1], run[i], run[j].now);
    }
  }

  // Exactly when the initial delay is over, in every run in which the emission started at
  // step j: after the allowed lateness and, with full windows only, what is then left of the
  // first window less one interval.
  lemma TimerIsDueIff<T(!new)>(c: Config, run: seq<State<T>>, j: nat)
    requires IsRun(c, run) && 0 < j < |run|
    requires run[j - 1].emitting == NotStarted && run[j].emitting.InitialWait? && Last(run).emitting.InitialWait?
    ensures var s := Last(run);
            (exists s' :: TimerFires(c, s, s')) <==>
            run[j].now + c.allowedLateness
            + (if c.emitPartialWindow then 0 else c.windowSize - c.slidingInterval - (s.firstTime - s.first)) <= s.now
  {
    var s := Last(run);
    assert Next(c, run[j - 1], run[j]);
    RunKeepsTimers(c, run, j);
    assert Inv(c, s) && TimedInv(c, s) by {
      RunKeepsInv(c, run);
      RunKeepsTimedInv(c, run);
    }
    assert s.delta == s.firstTime - s.first;
    if s.emitting.since + c.InitialDelay(s.delta) <= s.now {
      assert TimerFires(c, s, s.(emitting := Ticking(s.now)));
    }
  }

  // Exactly when the next tick can come, in every run in which the initial wait ended at
  // step j.
  lemma TickIsDueIff<T(!new)>(c: Config, run: seq<State<T>>, j: nat)
    requires IsRun(c, run) && 0 < j < |run|
    requires run[j - 1].emitting.InitialWait? && run[j].emitting.Ticking? && Last(run).emitting.Ticking?
    ensures var s := Last(run);
            (exists s' :: Ticks(c, s, s')) <==> run[j].now + (|s.windows| + 1) * c.slidingInterval <= s.now
  {
    var s := Last(run);
    assert Next(c, run[j - 1], run[j]);
    RunKeepsTimers(c, run, j);
    ElapsedGap(c, 0, |s.windows| + 1);
    if s.emitting.created + Elapsed(c, |s.windows| + 1) <= s.now {
      var s' := DispatchExists(c, s, false);
      assert Ticks(c, s, s');
    }
  }

  // Brings the emission to where its ticker is running, as soon as that can be.
  lemma StartTicker<T(!new)>(c: Config, run: seq<State<T>>) returns (run': seq<State<T>>)
    requires IsRun(c, run) && Last(run).streaming == Reading && MutexFree(Last(run))
    ensures IsRun(c, run') && Last(run').emitting.Ticking?
    ensures var s, s' := Last(run), Last(run');
            var delay := c.InitialDelay(s.delta);
            && s' == s.(now := s'.now, emitting := s'.emitting)
            && (s.emitting == NotStarted ==>
                  s'.emitting == Ticking(s'.now) && s'.now == s.now + if delay < 0 then 0 else delay)
  {
    RunKeepsInv(c, run);
    run' := run;
    if Last(run').emitting == NotStarted {
      var s := Last(run');
      assert EmitStarts(s, s.(emitting := InitialWait(s.now)));
      run' := Extend(c, run', s.(emitting := InitialWait(s.now)));
    }
    if Last(run').emitting.InitialWait? {
      var s := Last(run');
      var due := s.emitting.since + c.InitialDelay(s.delta);
      var s1 := s.(now := if s.now < due then due else s.now);
      assert ClockAdvances(s, s1);
      run' := Extend(c, run', s1);
      assert TimerFires(c, s1, s1.(emitting := Ticking(s1.now)));
      run' := Extend(c, run', s1.(emitting := Ticking(s1.now)));
    }
  }

  // The next tick, as soon as it is due, and the delivery of its window.
  lemma NextTick<T(!new)>(c: Config, run: seq<State<T>>) returns (due: seq<State<T>>, run': seq<State<T>>)
    requires IsRun(c, run) && Last(run).emitting.Ticking?
    ensures IsRun(c, due) && IsRun(c, run')
    ensures var s, m, s' := Last(run), Last(due), Last(run');
            && m == s.(now := m.now) && (exists t :: Ticks(c, m, t))
            && s'.emitting == s.emitting && s'.now == m.now && |s'.windows| == |s.windows| + 1
            && s'.arrivals == s.arrivals && s'.first == s.first && s'.firstAt == s.firstAt
            && m.now == if s.now < s.emitting.created + Elapsed(c, |s.windows| + 1)
                        then s.emitting.created + Elapsed(c, |s.windows| + 1) else s.now
  {
    var s := Last(run);
    var at := s.emitting.created + Elapsed(c, |s.windows| + 1);
    var m := s.(now := if s.now < at then at else s.now);
    assert ClockAdvances(s, m);
    due := Extend(c, run, m);
    var s1 := DispatchExists(c, m, false);
    assert Ticks(c, m, s1);
    run' := Extend(c, due, s1);
    if s1.emitting.Sending? {
      var e := s1.emitting;
      var s2 := s1.(sent := s1.sent + [Elements(e.window)], emitting := Resume(e.created, e.last));
      assert Delivers(s1, s2);
      run' := Extend(c, run', s2);
    }
  }

  // A run over a first element, up to where n ticks have come, each as soon as it was due.
  lemma {:induction false} TickTimes<T(!new)>(c: Config, x: Timed<T>, at: int, n: nat) returns (run: seq<State<T>>)
    ensures IsRun(c, run) && |Last(run).windows| == n
    ensures var s := Last(run);
            var delay := c.allowedLateness +
                         if c.emitPartialWindow then 0 else c.windowSize - c.slidingInterval - (x.time - s.first);
            && s.arrivals == [Arrival(x, 0, 0, at)] && s.firstAt == at
            && s.first == CalculateWindowStart(c.slidingInterval, x.time).0
            && s.emitting == Ticking(at + if delay < 0 then 0 else delay)
            && s.now == s.emitting.created + Elapsed(c, n)
  {
    if n == 0 {
      var (start, delta) := CalculateWindowStart(c.slidingInterval, x.time);
      var s: State<T> := State(at, AwaitingFirst, NotStarted, 0, 0, [], [], 0, 0, 0, [], [], false);
      var s' := Queue(s.(streaming := Reading, delta := delta, lowerBoundary := start,
                         first := start, firstTime := x.time, firstAt := at), x, 0, at);
      assert ReadsFirst(c, s, s', x.time, x);
      assert s'.arrivals == [Arrival(x, 0, 0, at)];
      run := Extend(c, [s], s');
      run := StartTicker(c, run);
    } else {
      run := TickTimes(c, x, at, n - 1);
      var _, run' := NextTick(c, run);
      run := run';
    }
  }

  // The initial delay is no longer than it need be.  For every configuration and first
  // element, tick n can come, counting from 0, exactly n + 1 intervals after the allowed
  // lateness and, with full windows only, what is then left of the first window less one
  // interval; a negative delay counts as none.
  lemma TicksCanBeOnTime<T(!new)>(c: Config, x: Timed<T>, at: int, n: nat) returns (run: seq<State<T>>)
    ensures IsRun(c, run) && Last(run).arrivals == [Arrival(x, 0, 0, at)] && |Last(run).windows| == n
    ensures exists s' :: Ticks(c, Last(run), s')
    ensures var s := Last(run);
            var delay := c.allowedLateness +
                         if c.emitPartialWindow then 0 else c.windowSize - c.slidingInterval - (x.time - s.first);
            && s.first == CalculateWindowStart(c.slidingInterval, x.time).0
            && s.firstAt == at
            && s.now == at + (if delay < 0 then 0 else delay) + (n + 1) * c.slidingInterval
  {
    run := TickTimes(c, x, at, n);
    var due, _ := NextTick(c, run);
    run := due;
    ElapsedGap(c, 0, n + 1);
  }

  // ---------- the last dispatch ----------

  // The ticker has run since there were n windows: if it is not running now, one more
  // window has been dispatched.
  ghost predicate HasDispatched<T>(s: State<T>, n: nat) {
    && |s.windows| >= n && s.streaming != AwaitingFirst
    && (s.emitting.Ticking? || s.emitting.Sending? || s.emitting == Closed)
    && (!s.emitting.Ticking? ==> |s.windows| > n)
  }

  lemma NextHasDispatched<T(!new)>(c: Config, s: State<T>, s': State<T>, n: nat)
    requires HasDispatched(s, n) && Next(c, s, s')
    ensures HasDispatched(s', n)
  {
  }

  // Once its ticker has run, the operator does not close without dispatching again.
  lemma ClosesAfterDispatch<T(!new)>(c: Config, run: seq<State<T>>, i: nat)
    requires IsRun(c, run) && i < |run| && run[i].emitting.Ticking? && Last(run).emitting == Closed
    ensures |Last(run).windows| > |run[i].windows|
  {
    var n := |run[i].windows|;
    assert HasDispatched(run[i], n) by {
      RunKeepsInv(c, run);
    }
    for j := i + 1 to |run|
      invariant HasDispatched(run[j - 1], n)
    {
      NextHasDispatched(c, run[j - 1], run[j], n);
    }
  }
}
