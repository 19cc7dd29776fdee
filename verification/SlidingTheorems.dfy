/** What every run of the sliding window guarantees: the contents of each window, how many
    windows an element can be in, what is emitted at close, and exactly when an element no
    later than the allowed lateness is lost. */
module SlidingTheorems {
  import opened Sequences
  import opened SlidingWindow
  import opened SlidingRuns

  ghost function Last<T>(run: seq<State<T>>): State<T>
    requires run != []
  {
    run[|run| - 1]
  }

  lemma Extend<T(!new)>(c: Config, run: seq<State<T>>, s': State<T>) returns (run': seq<State<T>>)
    requires IsRun(c, run) && Next(c, Last(run), s')
    ensures IsRun(c, run') && Last(run') == s'
  {
    run' := run + [s'];
  }

  ghost function AfterDispatch<T>(s: State<T>, lower: int, queue: seq<Timed<T>>, window: seq<Timed<T>>,
                                  last: bool): State<T>
    requires s.emitting.Ticking?
  {
    s.(lowerBoundary := lower, queue := queue, windows := s.windows + [window], forced := last,
       emitting := if window == [] then Resume(s.emitting.created, last) else Sending(window, s.emitting.created, last))
  }

  lemma DispatchIs<T(!new)>(c: Config, s: State<T>, lower: int, queue: seq<Timed<T>>, window: seq<Timed<T>>, last: bool)
    requires s.emitting.Ticking? && Dispatched(c, s.lowerBoundary, s.queue, lower, queue, window)
    ensures Dispatches(c, s, AfterDispatch(s, lower, queue, window, last), last)
  {
  }

  lemma WindowHolds<T(!new)>(c: Config, run: seq<State<T>>, k: nat)
    requires IsRun(c, run) && k < |Last(run).windows|
    ensures WindowIsRight(c, Last(run).first, Last(run).arrivals, k, Last(run).windows[k])
  {
    RunKeepsInv(c, run);
  }

  lemma LowerIs(c: Config, first: int, k: nat)
    ensures Lower(c, first, k) == first + k * c.slidingInterval
  {
    ElapsedGap(c, 0, k);
  }

  // Every window of every run is sorted by event time and holds, each as often as it
  // arrived, exactly the elements that window k is for: met not before it was dispatched but
  // in time for its first lower boundary, not newer than window k and, unless window k is
  // the first one dispatched after them, newer than its lower boundary.
  lemma WindowContents<T(!new)>(c: Config, run: seq<State<T>>, k: nat,
                                isIn: Arrival<T> -> bool, item: Arrival<T> -> Timed<T>)
    requires IsRun(c, run) && k < |Last(run).windows|
    requires var first := Last(run).first;
             forall a | a in Last(run).arrivals ::
               && item(a) == a.item
               && (isIn(a) <==>
                     && a.epoch <= k
                     && first + a.epoch * c.slidingInterval <= a.item.time
                     && (a.epoch == k || first + k * c.slidingInterval < a.item.time)
                     && a.item.time <= first + k * c.slidingInterval + c.windowSize)
    ensures var window := Last(run).windows[k];
            && (forall i, j | 0 <= i < j < |window| :: window[i].time <= window[j].time)
            && multiset(window) == multiset(Map(Filter(Last(run).arrivals, isIn), item))
  {
    var s := Last(run);
    WindowHolds(c, run, k);
    LowerIs(c, s.first, k);
    forall a | a in s.arrivals ensures isIn(a) == IsInWindow(c, s.first, k)(a) {
      LowerIs(c, s.first, a.epoch);
    }
    FilterSame(s.arrivals, isIn, IsInWindow(c, s.first, k));
    FilterMembers(s.arrivals, isIn);
    MapSame(Filter(s.arrivals, isIn), item, ItemOf());
  }

  lemma MapSame<X, Y>(s: seq<X>, f: X -> Y, g: X -> Y)
    requires forall x | x in s :: f(x) == g(x)
    ensures Map(s, f) == Map(s, g)
  {
  }

  // What was sent is, in order and without exception, the elements of the nonempty windows:
  // idx gives the window of each.
  ghost predicate AreSent<T>(windows: seq<seq<Timed<T>>>, sent: seq<seq<T>>, idx: seq<nat>) {
    && |idx| == |sent|
    && (forall m, n | 0 <= m < n < |idx| :: idx[m] < idx[n])
    && (forall m | 0 <= m < |idx| :: idx[m] < |windows| && |sent[m]| == |windows[idx[m]]| > 0)
    && (forall m, i | 0 <= m < |idx| && 0 <= i < |sent[m]| :: sent[m][i] == windows[idx[m]][i].element)
    && (forall k: nat | k < |windows| && windows[k] != [] :: k in idx)
  }

  lemma {:induction false} SentOfIs<T>(windows: seq<seq<Timed<T>>>) returns (idx: seq<nat>)
    ensures AreSent(windows, SentOf(windows), idx)
  {
    if windows == [] {
      idx := [];
    } else {
      var n := |windows| - 1;
      assert windows == windows[..n] + [windows[n]];
      idx := SentOfIs(windows[..n]);
      SentSnoc(windows[..n], windows[n]);
      if windows[n] == [] {
        AreSentOfMore(windows, SentOf(windows), idx);
      } else {
        AreSentSnoc(windows, SentOf(windows[..n]), idx);
        idx := idx + [n];
      }
    }
  }

  lemma AreSentOfMore<T>(windows: seq<seq<Timed<T>>>, sent: seq<seq<T>>, idx: seq<nat>)
    requires windows != [] && AreSent(windows[..|windows| - 1], sent, idx) && windows[|windows| - 1] == []
    ensures AreSent(windows, sent, idx)
  {
    var n := |windows| - 1;
    forall k: nat | k < |windows| && windows[k] != [] ensures k in idx {
      assert windows[..n][k] == windows[k];
    }
  }

  lemma AreSentSnoc<T>(windows: seq<seq<Timed<T>>>, sent: seq<seq<T>>, idx: seq<nat>)
    requires windows != [] && AreSent(windows[..|windows| - 1], sent, idx) && windows[|windows| - 1] != []
    ensures AreSent(windows, sent + [Elements(windows[|windows| - 1])], idx + [|windows| - 1])
  {
    var n := |windows| - 1;
    var sent', idx' := sent + [Elements(windows[n])], idx + [n];
    forall k: nat | k < |windows| && windows[k] != [] ensures k in idx' {
      if k < n {
        assert windows[..n][k] == windows[k];
      } else {
        assert idx'[|idx|] == n;
      }
    }
    forall m | 0 <= m < |idx'| ensures idx'[m] < |windows| && |sent'[m]| == |windows[idx'[m]]| > 0 {
      if m < |idx| {
        assert windows[..n][idx[m]] == windows[idx[m]];
      }
    }
    forall m, i | 0 <= m < |idx'| && 0 <= i < |sent'[m]| ensures sent'[m][i] == windows[idx'[m]][i].element {
      if m < |idx| {
        assert windows[..n][idx[m]] == windows[idx[m]];
      }
    }
  }

  // The window being sent is the last one dispatched.
  ghost predicate SendsLast<T>(s: State<T>) {
    s.emitting.Sending? ==> s.windows != [] && s.emitting.window == s.windows[|s.windows| - 1] != []
  }

  lemma NextSendsLast<T(!new)>(c: Config, s: State<T>, s': State<T>)
    requires SendsLast(s) && Next(c, s, s')
    ensures SendsLast(s')
  {
  }

  lemma {:induction false} RunSendsLast<T(!new)>(c: Config, run: seq<State<T>>)
    requires IsRun(c, run)
    ensures forall i | 0 <= i < |run| :: SendsLast(run[i])
  {
    for i := 1 to |run|
      invariant forall j | 0 <= j < i :: SendsLast(run[j])
    {
      NextSendsLast(c, run[i - 1], run[i]);
    }
  }

  // The windows but the one being sent.
  ghost function Finished<T>(s: State<T>): seq<seq<Timed<T>>> {
    if s.emitting.Sending? && s.windows != [] then s.windows[..|s.windows| - 1] else s.windows
  }

  lemma FinishedAreSent<T>(s: State<T>)
    requires SendsLast(s) && s.sent + InFlight(s.emitting) == SentOf(s.windows)
    ensures s.sent == SentOf(Finished(s))
  {
    if s.emitting.Sending? {
      var window := s.emitting.window;
      assert s.windows == Finished(s) + [window];
      SentSnoc(Finished(s), window);
      SameButLast(s.sent, SentOf(Finished(s)), Elements(window));
    } else {
      assert s.sent + [] == s.sent;
    }
  }

  lemma SameButLast<X>(a: seq<X>, b: seq<X>, x: X)
    requires a + [x] == b + [x]
    ensures a == b
  {
    assert a == (a + [x])[..|a|] && b == (b + [x])[..|b|];
  }

  // In every run, what has reached the output channel is exactly the elements of the
  // nonempty windows in their order, except the last window while it is being sent.
  lemma SentWindows<T(!new)>(c: Config, run: seq<State<T>>) returns (idx: seq<nat>)
    requires IsRun(c, run)
    ensures var s := Last(run);
            && (s.emitting.Sending? ==> s.windows != [])
            && AreSent(if s.emitting.Sending? then s.windows[..|s.windows| - 1] else s.windows, s.sent, idx)
  {
    var s := Last(run);
    assert s.sent + InFlight(s.emitting) == SentOf(s.windows) by {
      RunKeepsInv(c, run);
    }
    RunSendsLast(c, run);
    FinishedAreSent(s);
    idx := SentOfIs(Finished(s));
  }

  lemma IsWindowItem<T>(c: Config, first: int, arrivals: seq<Arrival<T>>, a: Arrival<T>, k: nat)
    requires a in arrivals && InWindow(c, first, a, k)
    ensures a.item in WindowItems(c, first, arrivals, k)
  {
    var here := Filter(arrivals, IsInWindow(c, first, k));
    FilterMembers(arrivals, IsInWindow(c, first, k));
    var i :| 0 <= i < |here| && here[i] == a;
    assert WindowItems(c, first, arrivals, k)[i] == a.item;
  }

  lemma SamePopulation<X>(a: seq<X>, b: seq<X>, x: X)
    requires multiset(a) == multiset(b) && x in b
    ensures x in a
  {
    assert x in multiset(a);
  }

  lemma InItsWindow<T(!new)>(c: Config, s: State<T>, a: Arrival<T>, k: nat)
    requires Inv(c, s) && a in s.arrivals && k < |s.windows| && InWindow(c, s.first, a, k)
    ensures a.item in s.windows[k]
  {
    assert WindowIsRight(c, s.first, s.arrivals, k, s.windows[k]);
    IsWindowItem(c, s.first, s.arrivals, a, k);
    SamePopulation(s.windows[k], WindowItems(c, s.first, s.arrivals, k), a.item);
  }

  // Every window starts at a multiple of the sliding interval, unless the first event time
  // is Go's zero time.
  lemma {:induction false} BoundariesAreAligned(c: Config, t: int, k: nat)
    requires t != ZERO_TIME && InInt64(t) && InInt64(c.slidingInterval)
    ensures Lower(c, CalculateWindowStart(c.slidingInterval, t).0, k) % c.slidingInterval == 0
  {
    var start, s := CalculateWindowStart(c.slidingInterval, t).0, c.slidingInterval;
    WindowStartIsAligned(s, t);
    ElapsedGap(c, 0, k);
    assert start == (start / s) * s;
    assert Lower(c, start, k) == (start / s + k) * s;
    MultipleHasNoRemainder(start / s + k, s);
  }

  // ---------- the first element ----------

  // In event-time mode the first element sets the lower boundary and is then held against
  // it.  It is queued exactly if it is not before the epoch, or is Go's zero time, or is a
  // multiple of the interval; otherwise the truncated remainder puts the boundary after it.
  lemma FirstElementIsKeptIff<T(!new)>(c: Config, s: State<T>, s': State<T>, x: Timed<T>)
    requires Inv(c, s) && ReadsFirst(c, s, s', x.time, x)
    ensures var kept := 0 <= x.time || x.time == ZERO_TIME || (-x.time) % c.slidingInterval == 0;
            && s'.arrivals == [Arrival(x, 0, 0, s.now)]
            && s'.queue == (if kept then [x] else [])
            && (kept <==> s'.queue == [x])
  {
    FirstQueues(c, s, s', x.time, x);
  }

  // ---------- overlap ----------

  // The windows of an element are consecutive.
  lemma WindowsAreConsecutive<T>(c: Config, first: int, a: Arrival<T>, i: nat, j: nat, k: nat)
    requires InWindow(c, first, a, i) && InWindow(c, first, a, k) && i <= j <= k
    ensures InWindow(c, first, a, j)
  {
    if i < j < k {
      ElapsedGrows(c, i, j);
      ElapsedGrows(c, j, k);
    }
  }

  // Two windows that share an element start less than a window apart.
  lemma SharedWindowsAreClose<T>(c: Config, first: int, a: Arrival<T>, i: nat, j: nat)
    requires InWindow(c, first, a, i) && InWindow(c, first, a, j) && i <= j
    ensures (j - i) * c.slidingInterval < c.windowSize
  {
    ElapsedGap(c, i, j);
  }

  // How many of the first n windows hold the element.
  ghost function Appearances<T>(c: Config, first: int, a: Arrival<T>, n: nat): nat {
    if n == 0 then 0 else Appearances(c, first, a, n - 1) + if InWindow(c, first, a, n - 1) then 1 else 0
  }

  lemma {:induction false} AppearancesSpan<T>(c: Config, first: int, a: Arrival<T>, n: nat) returns (i: nat, j: nat)
    requires Appearances(c, first, a, n) > 0
    ensures i <= j < n && InWindow(c, first, a, i) && InWindow(c, first, a, j)
    ensures Appearances(c, first, a, n) <= j - i + 1
  {
    if Appearances(c, first, a, n - 1) > 0 {
      i, j := AppearancesSpan(c, first, a, n - 1);
    } else {
      i := n - 1;
    }
    if InWindow(c, first, a, n - 1) {
      j := n - 1;
    }
  }

  // No element is in more windows than sliding intervals fit, rounded up, into a window;
  // when the two are equal the windows are disjoint.
  lemma OverlapBound<T>(c: Config, first: int, a: Arrival<T>, n: nat)
    ensures Appearances(c, first, a, n) <= (c.windowSize + c.slidingInterval - 1) / c.slidingInterval
    ensures c.windowSize == c.slidingInterval ==> Appearances(c, first, a, n) <= 1
  {
    if Appearances(c, first, a, n) > 0 {
      var i, j := AppearancesSpan(c, first, a, n);
      SharedWindowsAreClose(c, first, a, i, j);
      RoundedUp(j - i, c.windowSize, c.slidingInterval);
    } else {
      RoundedUp(0, c.windowSize, c.slidingInterval);
    }
  }

  lemma RoundedUp(d: int, w: int, s: int)
    requires 0 < s <= w && d * s < w
    ensures d + 1 <= (w + s - 1) / s
    ensures w == s ==> d + 1 <= 1
  {
    var q, r := (w + s - 1) / s, (w + s - 1) % s;
    assert w + s - 1 == q * s + r && 0 <= r < s;
    if q <= d {
      MultiplesKeepOrder(q, d, s);
      assert false;
    }
    if w == s && 1 <= d {
      MultiplesKeepOrder(1, d, s);
      assert false;
    }
  }

  // ---------- what is never emitted ----------

  lemma BoundsCover<T>(c: Config, lower: int, sorted: seq<Timed<T>>)
    ensures multiset(sorted) <=
            multiset(UpTo(sorted, lower + c.windowSize)) + multiset(After(sorted, lower + c.slidingInterval))
  {
    FiltersCover(sorted, NotAfter(lower + c.windowSize), IsAfter(lower + c.slidingInterval));
  }

  lemma SplitCovers<T>(c: Config, lower: int, queue: seq<Timed<T>>, sorted: seq<Timed<T>>,
                       queue': seq<Timed<T>>, window: seq<Timed<T>>)
    requires SplitsInto(c, lower, queue, sorted, queue', window)
    ensures multiset(queue) <= multiset(window) + multiset(queue')
  {
    BoundsCover(c, lower, sorted);
  }

  // Whatever a dispatch takes out of the queue it puts into its window.
  lemma DispatchLosesNothing<T(!new)>(c: Config, lower: int, queue: seq<Timed<T>>,
                                      lower': int, queue': seq<Timed<T>>, window: seq<Timed<T>>)
    requires Dispatched(c, lower, queue, lower', queue', window)
    ensures multiset(queue) <= multiset(window) + multiset(queue')
  {
    var sorted :| SplitsInto(c, lower, queue, sorted, queue', window);
    SplitCovers(c, lower, queue, sorted, queue', window);
  }

  ghost predicate Emitted<T>(c: Config, first: int, a: Arrival<T>, n: nat) {
    exists k: nat :: k < n && InWindow(c, first, a, k)
  }

  // Of the accepted elements, the first n dispatches emit exactly those that are not later
  // than the end of the last window: no dispatch removes an element it has not emitted.
  lemma {:induction false} EmittedIff<T>(c: Config, first: int, a: Arrival<T>, n: nat)
    requires a.epoch < n
    ensures Emitted(c, first, a, n) <==>
            Accepted(c, first, a) && a.item.time <= Lower(c, first, n - 1) + c.windowSize
  {
    if Emitted(c, first, a, n) {
      var k: nat :| k < n && InWindow(c, first, a, k);
      if k < n - 1 { ElapsedGrows(c, k, n - 1); }
    }
    if Accepted(c, first, a) && a.item.time <= Lower(c, first, n - 1) + c.windowSize {
      if a.epoch < n - 1 && a.item.time <= Lower(c, first, n - 2) + c.windowSize {
        EmittedIff(c, first, a, n - 1);
        var k: nat :| k < n - 1 && InWindow(c, first, a, k);
        assert Emitted(c, first, a, n);
      } else {
        assert InWindow(c, first, a, n - 1);
      }
    }
  }

  // When the output closes, every nonempty window has been sent, and an element that
  // arrived is in some window exactly when at least one window was dispatched, it was not
  // older than the lower boundary it met, and it is not later than the end of the last
  // window.
  lemma EmittedAtClose<T(!new)>(c: Config, run: seq<State<T>>, a: Arrival<T>)
    requires IsRun(c, run) && Last(run).emitting == Closed && a in Last(run).arrivals
    ensures var s := Last(run);
            && s.sent == SentOf(s.windows)
            && (Emitted(c, s.first, a, |s.windows|) <==>
                && s.windows != []
                && Accepted(c, s.first, a)
                && a.item.time <= Lower(c, s.first, |s.windows| - 1) + c.windowSize)
  {
    var s := Last(run);
    assert ControlInv(c, s) && s.sent + [] == SentOf(s.windows) && (s.forced ==> a.epoch < |s.windows|) by {
      RunKeepsInv(c, run);
    }
    assert s.sent + [] == s.sent;
    if s.windows != [] {
      EmittedIff(c, s.first, a, |s.windows|);
    }
  }

  // ---------- lateness ----------

  // The earliest that n ticks can have been received, counted from the first element.
  ghost function Earliest(c: Config, firstAt: int, delta: int, n: nat): int {
    var delay := c.InitialDelay(delta);
    firstAt + (if delay < 0 then 0 else delay) + Elapsed(c, n)
  }

  ghost predicate TimedInv<T(!new)>(c: Config, s: State<T>) {
    && (s.arrivals != [] ==> (s.first, s.delta) == CalculateWindowStart(c.slidingInterval, s.firstTime))
    && (s.arrivals != [] ==> s.firstAt <= s.now)
    && (s.emitting.InitialWait? ==> s.firstAt <= s.emitting.since <= s.now)
    && (s.emitting.Ticking? || s.emitting.Sending? ==>
          && Earliest(c, s.firstAt, s.delta, 0) <= s.emitting.created
          && (!s.forced ==> s.emitting.created + Elapsed(c, |s.windows|) <= s.now))
    && (s.streaming.Holding? && s.streaming.received > 0 ==>
          Earliest(c, s.firstAt, s.delta, s.streaming.received) <= s.streaming.at)
    && forall a | a in s.arrivals :: a.received > 0 ==> Earliest(c, s.firstAt, s.delta, a.received) <= a.at
  }

  lemma ProcessesKeepsTimedInv<T(!new)>(c: Config, s: State<T>, s': State<T>)
    requires Inv(c, s) && TimedInv(c, s) && Processes(s, s')
    ensures TimedInv(c, s')
  {
    var h := s.streaming;
    assert s'.arrivals == s.arrivals + [Arrival(h.x, h.received, |s.windows|, h.at)];
  }

  lemma ReceivesKeepsTimedInv<T(!new)>(c: Config, s: State<T>, s': State<T>, x: Timed<T>)
    requires Inv(c, s) && TimedInv(c, s) && Receives(s, s', x)
    ensures TimedInv(c, s')
  {
    if |s.windows| > 0 {
      var earliest := Earliest(c, s.firstAt, s.delta, |s.windows|);
      assert earliest == Earliest(c, s.firstAt, s.delta, 0) + Elapsed(c, |s.windows|) <= s.now;
    }
  }

  lemma DispatchKeepsTimedInv<T(!new)>(c: Config, s: State<T>, s': State<T>, last: bool)
    requires Inv(c, s) && TimedInv(c, s) && Dispatches(c, s, s', last)
    requires !last ==> s.emitting.created + Elapsed(c, |s.windows| + 1) <= s.now
    ensures TimedInv(c, s')
  {
  }

  lemma FirstKeepsTimedInv<T(!new)>(c: Config, s: State<T>, s': State<T>, time: int, x: Timed<T>)
    requires Inv(c, s) && ReadsFirst(c, s, s', time, x)
    ensures TimedInv(c, s')
  {
    FirstQueues(c, s, s', time, x);
  }

  // The steps of the emission that dispatch nothing, the clock, and the end of the input.
  lemma QuietStepKeepsTimedInv<T(!new)>(c: Config, s: State<T>, s': State<T>)
    requires Inv(c, s) && TimedInv(c, s)
    requires || ClockAdvances(s, s') || ClosesEmpty(s, s') || InputCloses(s, s')
             || EmitStarts(s, s') || TimerFires(c, s, s') || QuitsEarly(s, s') || Delivers(s, s')
    ensures TimedInv(c, s')
  {
  }

  lemma NextKeepsTimedInv<T(!new)>(c: Config, s: State<T>, s': State<T>)
    requires Inv(c, s) && TimedInv(c, s) && Next(c, s, s')
    ensures TimedInv(c, s')
  {
    if time, x :| ReadsFirst(c, s, s', time, x) {
      FirstKeepsTimedInv(c, s, s', time, x);
    } else if x :| Receives(s, s', x) {
      ReceivesKeepsTimedInv(c, s, s', x);
    } else if Processes(s, s') {
      ProcessesKeepsTimedInv(c, s, s');
    } else if Ticks(c, s, s') {
      DispatchKeepsTimedInv(c, s, s', false);
    } else if DispatchesLast(c, s, s') {
      DispatchKeepsTimedInv(c, s, s', true);
    } else {
      QuietStepKeepsTimedInv(c, s, s');
    }
  }

  lemma {:induction false} RunKeepsTimedInv<T(!new)>(c: Config, run: seq<State<T>>)
    requires IsRun(c, run)
    ensures forall i | 0 <= i < |run| :: TimedInv(c, run[i])
  {
    RunKeepsInv(c, run);
    for i := 1 to |run|
      invariant forall j | 0 <= j < i :: TimedInv(c, run[j])
    {
      NextKeepsTimedInv(c, run[i - 1], run[i]);
    }
  }

  // Once n ticks can have passed, window n-1 is over, and so is its allowed lateness.
  lemma EarliestIsLate<T(!new)>(c: Config, s: State<T>, n: nat)
    requires TimedInv(c, s) && s.arrivals != [] && s.firstTime <= s.firstAt && n > 0
    ensures !c.emitPartialWindow ==>
              Lower(c, s.first, n - 1) + c.windowSize + c.allowedLateness <= Earliest(c, s.firstAt, s.delta, n)
    ensures 0 <= s.delta ==> Lower(c, s.first, n) + c.allowedLateness <= Earliest(c, s.firstAt, s.delta, n)
  {
  }

  // Emitting full windows only, no tick comes before the window it dispatches is over by
  // the allowed lateness; this holds when the initial delay is negative too.
  lemma NoTickIsEarly<T(!new)>(c: Config, run: seq<State<T>>, s': State<T>)
    requires IsRun(c, run) && Ticks(c, Last(run), s')
    requires Last(run).firstTime <= Last(run).firstAt && !c.emitPartialWindow
    ensures var s := Last(run);
            Lower(c, s.first, |s.windows|) + c.windowSize + c.allowedLateness <= s.now
  {
    assert Inv(c, Last(run)) && TimedInv(c, Last(run)) by {
      RunKeepsInv(c, run);
      RunKeepsTimedInv(c, run);
    }
    EarliestIsLate(c, Last(run), |Last(run).windows| + 1);
  }

  // The lower boundary when an element was received.
  ghost function LowerAtReceipt<T>(c: Config, first: int, a: Arrival<T>): int {
    Lower(c, first, a.received)
  }

  // An element received at most the allowed lateness late is received before the lower
  // boundary passes it and, with full windows only, after the windows that are over.
  lemma TimelyMeetsBoundary<T(!new)>(c: Config, s: State<T>, a: Arrival<T>)
    requires TimedInv(c, s) && a in s.arrivals && s.firstTime <= s.firstAt
    requires s.first <= a.item.time && a.at <= a.item.time + c.allowedLateness
    requires !c.emitPartialWindow || 0 <= s.delta
    ensures LowerAtReceipt(c, s.first, a) <= a.item.time
    ensures !c.emitPartialWindow && a.received > 0 ==> Lower(c, s.first, a.received - 1) + c.windowSize <= a.item.time
  {
    if a.received > 0 {
      EarliestIsLate(c, s, a.received);
    }
  }

  // Dispatch m, between the receipt of the element and its processing, moves the lower
  // boundary past it.
  ghost predicate PassedBy<T>(c: Config, first: int, a: Arrival<T>, m: nat) {
    a.received <= m < a.epoch && Lower(c, first, m) <= a.item.time < Lower(c, first, m + 1)
  }

  ghost predicate PassedWhileWaiting<T>(c: Config, first: int, a: Arrival<T>) {
    exists m: nat :: PassedBy(c, first, a, m)
  }

  // An element for which the boundary was not past at its receipt is discarded exactly if
  // some dispatch moves the boundary past it while it waits for the mutex.
  lemma DiscardedIff<T>(c: Config, first: int, a: Arrival<T>)
    requires a.received <= a.epoch && LowerAtReceipt(c, first, a) <= a.item.time
    ensures !Accepted(c, first, a) <==> PassedWhileWaiting(c, first, a)
  {
    if !Accepted(c, first, a) {
      var m := PassingDispatch(c, first, a.item.time, a.received, a.epoch);
      assert PassedBy(c, first, a, m);
    }
    if m: nat :| PassedBy(c, first, a, m) {
      if m + 1 < a.epoch { ElapsedGrows(c, m + 1, a.epoch); }
    }
  }

  lemma {:induction false} PassingDispatch(c: Config, first: int, time: int, i: nat, j: nat) returns (m: nat)
    requires i <= j && Lower(c, first, i) <= time < Lower(c, first, j)
    ensures i <= m < j && Lower(c, first, m) <= time < Lower(c, first, m + 1)
  {
    if Lower(c, first, j - 1) <= time {
      m := j - 1;
    } else {
      m := PassingDispatch(c, first, time, i, j - 1);
    }
  }

  // Dispatched while the element waited for the mutex.
  ghost predicate WhileWaiting<T>(a: Arrival<T>, k: nat) {
    a.received <= k < a.epoch
  }

  // If the windows that were over at the receipt of an element end before it, it is in
  // every window whose interior holds it but those dispatched while it waited.
  lemma InteriorIff<T>(c: Config, first: int, a: Arrival<T>, k: nat)
    requires a.received <= a.epoch
    requires a.received > 0 ==> Lower(c, first, a.received - 1) + c.windowSize <= a.item.time
    requires Lower(c, first, k) < a.item.time < Lower(c, first, k) + c.windowSize
    ensures InWindow(c, first, a, k) <==> !WhileWaiting(a, k)
  {
    if k + 1 < a.received {
      ElapsedGrows(c, k, a.received - 1);
    }
    if a.epoch < k {
      ElapsedGrows(c, a.epoch, k);
    }
  }

  lemma FirstIntervalIff<T>(c: Config, first: int, a: Arrival<T>, k: nat)
    requires a.received <= a.epoch && LowerAtReceipt(c, first, a) <= a.item.time
    requires Lower(c, first, k) < a.item.time < Lower(c, first, k + 1)
    ensures InWindow(c, first, a, k) <==> !WhileWaiting(a, k)
  {
    if k + 1 < a.received {
      ElapsedGrows(c, k + 1, a.received);
    }
    if a.epoch < k {
      ElapsedGrows(c, a.epoch, k);
    }
  }

  // The guarantee behind AllowedLateness.  Let the first element not arrive before its own
  // event time.  An element from the first window on that is received at most the allowed
  // lateness late meets a boundary that is not past it, and is discarded exactly if a
  // dispatch moves the boundary past it while it waits for the mutex.  It is in every
  // dispatched window whose interior holds it, a final one forced by shutdown included,
  // except exactly those dispatched while it waits.
  lemma NoDataLoss<T(!new)>(c: Config, run: seq<State<T>>, a: Arrival<T>)
    requires IsRun(c, run) && Last(run).firstTime <= Last(run).firstAt && !c.emitPartialWindow
    requires a in Last(run).arrivals
    requires Last(run).first <= a.item.time && a.at <= a.item.time + c.allowedLateness
    ensures var s := Last(run);
            && LowerAtReceipt(c, s.first, a) <= a.item.time
            && (!Accepted(c, s.first, a) <==> PassedWhileWaiting(c, s.first, a))
            && (a.received == a.epoch ==> Accepted(c, s.first, a))
            && forall k: nat | k < |s.windows| ::
                 Lower(c, s.first, k) < a.item.time < Lower(c, s.first, k) + c.windowSize ==>
                   && (InWindow(c, s.first, a, k) <==> !WhileWaiting(a, k))
                   && (!WhileWaiting(a, k) ==> a.item in s.windows[k])
  {
    var s := Last(run);
    assert Inv(c, s) && TimedInv(c, s) by {
      RunKeepsInv(c, run);
      RunKeepsTimedInv(c, run);
    }
    TimelyMeetsBoundary(c, s, a);
    DiscardedIff(c, s.first, a);
    forall k: nat | k < |s.windows| && Lower(c, s.first, k) < a.item.time < Lower(c, s.first, k) + c.windowSize
      ensures InWindow(c, s.first, a, k) <==> !WhileWaiting(a, k)
      ensures !WhileWaiting(a, k) ==> a.item in s.windows[k]
    {
      InteriorIff(c, s.first, a, k);
      if !WhileWaiting(a, k) {
        InItsWindow(c, s, a, k);
      }
    }
  }

  // Emitting partial windows too, the same holds of the windows whose first interval holds
  // the element.
  lemma NoDataLossWithPartialWindows<T(!new)>(c: Config, run: seq<State<T>>, a: Arrival<T>)
    requires IsRun(c, run) && 0 <= Last(run).firstTime <= Last(run).firstAt
    requires a in Last(run).arrivals
    requires Last(run).first <= a.item.time && a.at <= a.item.time + c.allowedLateness
    ensures var s := Last(run);
            && LowerAtReceipt(c, s.first, a) <= a.item.time
            && (!Accepted(c, s.first, a) <==> PassedWhileWaiting(c, s.first, a))
            && (a.received == a.epoch ==> Accepted(c, s.first, a))
            && forall k: nat | k < |s.windows| ::
                 Lower(c, s.first, k) < a.item.time < Lower(c, s.first, k + 1) ==>
                   && (InWindow(c, s.first, a, k) <==> !WhileWaiting(a, k))
                   && (!WhileWaiting(a, k) ==> a.item in s.windows[k])
  {
    var s := Last(run);
    assert Inv(c, s) && TimedInv(c, s) by {
      RunKeepsInv(c, run);
      RunKeepsTimedInv(c, run);
    }
    TimelyMeetsBoundary(c, s, a);
    DiscardedIff(c, s.first, a);
    forall k: nat | k < |s.windows| && Lower(c, s.first, k) < a.item.time < Lower(c, s.first, k + 1)
      ensures InWindow(c, s.first, a, k) <==> !WhileWaiting(a, k)
      ensures !WhileWaiting(a, k) ==> a.item in s.windows[k]
    {
      FirstIntervalIff(c, s.first, a, k);
      if !WhileWaiting(a, k) {
        InItsWindow(c, s, a, k);
      }
    }
  }
}
