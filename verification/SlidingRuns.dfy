/** Whole runs of the sliding window: the goroutine that queues elements and the one that
    emits windows, interleaved in every way the mutex, the timer, the ticker and the done
    channel allow (flow/sliding_window.go:155-269). */
module SlidingRuns {
  import opened Sequences
  import opened SlidingWindow

  // The goroutine that reads the input: waiting for the first element; reading on; holding
  // an element it received at some time, after some dispatches, and waiting for the mutex;
  // or finished, with the done channel closed.
  datatype Streaming<T> =
    | AwaitingFirst
    | Reading
    | Holding(x: Timed<T>, at: int, received: nat)
    | Done

  // The goroutine that emits: not started, waiting for the initial delay to elapse,
  // ticking, blocked on a send while it holds the mutex, or finished with out closed.
  datatype Emitting<T> =
    | NotStarted
    | InitialWait(since: int)
    | Ticking(created: int)
    | Sending(window: seq<Timed<T>>, created: int, last: bool)
    | Closed

  // History: an element, how many dispatches came before it was received and before it was
  // processed under the mutex, and when it was received.
  datatype Arrival<T> = Arrival(item: Timed<T>, received: nat, epoch: nat, at: int)

  datatype State<T> = State(
    now: int,
    streaming: Streaming<T>,
    emitting: Emitting<T>,
    delta: int,
    lowerBoundary: int,
    queue: seq<Timed<T>>,
    sent: seq<seq<T>>,                 // the windows that reached the output channel
    // history
    first: int,                        // the first lower boundary
    firstTime: int,                    // the first event time
    firstAt: int,                      // when the first element was processed
    arrivals: seq<Arrival<T>>,
    windows: seq<seq<Timed<T>>>,       // every dispatched window, the empty ones included
    forced: bool)                      // whether the last dispatch was forced by shutdown

  ghost predicate Init<T>(s: State<T>) {
    && s.streaming == AwaitingFirst && s.emitting == NotStarted
    && s.queue == [] && s.sent == [] && s.arrivals == [] && s.windows == [] && !s.forced
  }

  // ---------- steps ----------

  ghost predicate ClockAdvances<T(!new)>(s: State<T>, s': State<T>) {
    s.now <= s'.now && s' == s.(now := s'.now)
  }

  // The input closes before any element arrives: the output closes at once.
  ghost predicate ClosesEmpty<T(!new)>(s: State<T>, s': State<T>) {
    s.streaming == AwaitingFirst && s' == s.(streaming := Done, emitting := Closed)
  }

  // Under the mutex: an element older than the lower boundary is dropped, any other queued.
  ghost function Queue<T>(s: State<T>, x: Timed<T>, received: nat, at: int): State<T> {
    s.(arrivals := s.arrivals + [Arrival(x, received, |s.windows|, at)],
       queue := s.queue + if x.time < s.lowerBoundary then [] else [x])
  }

  // The first element fixes the lower boundary with one reading of its event time and is
  // processed with another; the readings agree unless processing time is used.
  ghost predicate ReadsFirst<T(!new)>(c: Config, s: State<T>, s': State<T>, time: int, x: Timed<T>) {
    var (start, delta) := CalculateWindowStart(c.slidingInterval, time);
    && s.streaming == AwaitingFirst
    && s' == Queue(s.(streaming := Reading, delta := delta, lowerBoundary := start,
                      first := start, firstTime := time, firstAt := s.now), x, |s.windows|, s.now)
  }

  ghost predicate MutexFree<T>(s: State<T>) {
    !s.emitting.Sending?
  }

  // Its event time is read before the mutex is taken.
  ghost predicate Receives<T(!new)>(s: State<T>, s': State<T>, x: Timed<T>) {
    s.streaming == Reading && s' == s.(streaming := Holding(x, s.now, |s.windows|))
  }

  ghost predicate Processes<T(!new)>(s: State<T>, s': State<T>) {
    && s.streaming.Holding? && MutexFree(s)
    && s' == Queue(s.(streaming := Reading), s.streaming.x, s.streaming.received, s.streaming.at)
  }

  ghost predicate InputCloses<T(!new)>(s: State<T>, s': State<T>) {
    s.streaming == Reading && s' == s.(streaming := Done)
  }

  ghost predicate EmitStarts<T(!new)>(s: State<T>, s': State<T>) {
    && s.streaming != AwaitingFirst && s.emitting == NotStarted
    && s' == s.(emitting := InitialWait(s.now))
  }

  // A timer never fires early.
  ghost predicate TimerFires<T(!new)>(c: Config, s: State<T>, s': State<T>) {
    && s.emitting.InitialWait? && s.emitting.since + c.InitialDelay(s.delta) <= s.now
    && s' == s.(emitting := Ticking(s.now))
  }

  ghost predicate QuitsEarly<T(!new)>(s: State<T>, s': State<T>) {
    && s.emitting.InitialWait? && s.streaming == Done
    && s' == s.(emitting := Closed)
  }

  ghost function Resume<T>(created: int, last: bool): Emitting<T> {
    if last then Closed else Ticking(created)
  }

  ghost predicate Dispatches<T(!new)>(c: Config, s: State<T>, s': State<T>, last: bool) {
    && s.emitting.Ticking? && s'.windows != []
    && var window := s'.windows[|s'.windows| - 1];
    && Dispatched(c, s.lowerBoundary, s.queue, s'.lowerBoundary, s'.queue, window)
    && s' == s.(lowerBoundary := s'.lowerBoundary, queue := s'.queue, windows := s.windows + [window], forced := last,
                emitting := if window == [] then Resume(s.emitting.created, last)
                            else Sending(window, s.emitting.created, last))
  }

  // The n-th tick of a ticker never comes before n intervals have passed; ticks that the
  // emission misses while it is blocked only make the next one later.
  ghost predicate Ticks<T(!new)>(c: Config, s: State<T>, s': State<T>) {
    && s.emitting.Ticking?
    && s.emitting.created + Elapsed(c, |s.windows| + 1) <= s.now
    && Dispatches(c, s, s', false)
  }

  ghost predicate DispatchesLast<T(!new)>(c: Config, s: State<T>, s': State<T>) {
    s.streaming == Done && Dispatches(c, s, s', true)
  }

  ghost predicate Delivers<T(!new)>(s: State<T>, s': State<T>) {
    && s.emitting.Sending?
    && s' == s.(sent := s.sent + [Elements(s.emitting.window)],
                emitting := Resume(s.emitting.created, s.emitting.last))
  }

  ghost predicate Next<T(!new)>(c: Config, s: State<T>, s': State<T>) {
    || ClockAdvances(s, s')
    || ClosesEmpty(s, s')
    || (exists time, x :: ReadsFirst(c, s, s', time, x))
    || (exists x :: Receives(s, s', x))
    || Processes(s, s')
    || InputCloses(s, s')
    || EmitStarts(s, s')
    || TimerFires(c, s, s')
    || QuitsEarly(s, s')
    || Ticks(c, s, s')
    || DispatchesLast(c, s, s')
    || Delivers(s, s')
  }

  ghost predicate IsRun<T(!new)>(c: Config, run: seq<State<T>>) {
    && run != [] && Init(run[0])
    && forall i | 0 < i < |run| :: Next(c, run[i - 1], run[i])
  }

  // ---------- boundaries ----------

  // k sliding intervals.
  ghost function Elapsed(c: Config, k: nat): int {
    if k == 0 then 0 else Elapsed(c, k - 1) + c.slidingInterval
  }

  // The lower boundary of window k.
  ghost function Lower(c: Config, first: int, k: nat): int {
    first + Elapsed(c, k)
  }

  lemma {:induction false} ElapsedGap(c: Config, i: nat, j: nat)
    requires i <= j
    ensures Elapsed(c, j) == Elapsed(c, i) + (j - i) * c.slidingInterval
  {
    if i < j {
      ElapsedGap(c, i, j - 1);
      assert (j - i) * c.slidingInterval == (j - 1 - i) * c.slidingInterval + c.slidingInterval;
    }
  }

  lemma {:induction false} ElapsedGrows(c: Config, i: nat, j: nat)
    requires i < j
    ensures Elapsed(c, i) + c.slidingInterval <= Elapsed(c, j)
  {
    if i < j - 1 { ElapsedGrows(c, i, j - 1); }
  }

  // ---------- which window holds which element ----------

  ghost predicate Accepted<T>(c: Config, first: int, a: Arrival<T>) {
    Lower(c, first, a.epoch) <= a.item.time
  }

  // An element met after n dispatches is in window k exactly when it is accepted, window k
  // is dispatched after it, it is not newer than the window, and either window k is the
  // first one dispatched after it or it is newer than the window's lower boundary.
  ghost predicate InWindow<T>(c: Config, first: int, a: Arrival<T>, k: nat) {
    && Accepted(c, first, a)
    && a.epoch <= k
    && a.item.time <= Lower(c, first, k) + c.windowSize
    && (a.epoch == k || Lower(c, first, k) < a.item.time)
  }

  // In the queue after n dispatches.
  ghost predicate Queued<T>(c: Config, first: int, a: Arrival<T>, n: nat) {
    Accepted(c, first, a) && (a.epoch == n || Lower(c, first, n) < a.item.time)
  }

  ghost function ItemOf<T>(): Arrival<T> -> Timed<T> {
    (a: Arrival<T>) => a.item
  }

  ghost function IsQueued<T>(c: Config, first: int, n: nat): Arrival<T> -> bool {
    (a: Arrival<T>) => Queued(c, first, a, n)
  }

  ghost function IsInWindow<T>(c: Config, first: int, k: nat): Arrival<T> -> bool {
    (a: Arrival<T>) => InWindow(c, first, a, k)
  }

  ghost function QueuedItems<T>(c: Config, first: int, arrivals: seq<Arrival<T>>, n: nat): seq<Timed<T>> {
    Map(Filter(arrivals, IsQueued(c, first, n)), ItemOf())
  }

  ghost function WindowItems<T>(c: Config, first: int, arrivals: seq<Arrival<T>>, k: nat): seq<Timed<T>> {
    Map(Filter(arrivals, IsInWindow(c, first, k)), ItemOf())
  }

  ghost function ElementsIn<T>(): seq<Timed<T>> -> seq<T> {
    (w: seq<Timed<T>>) => Elements(w)
  }

  ghost function SentOf<T>(windows: seq<seq<Timed<T>>>): seq<seq<T>> {
    Map(Filter(windows, IsNonempty()), ElementsIn())
  }

  ghost function InFlight<T>(e: Emitting<T>): seq<seq<T>> {
    if e.Sending? then [Elements(e.window)] else []
  }

  // ---------- the invariant ----------

  ghost predicate ControlInv<T>(c: Config, s: State<T>) {
    && (s.streaming == AwaitingFirst ==> s.emitting == NotStarted && s.arrivals == [])
    && (s.streaming == Reading || s.streaming.Holding? ==> s.arrivals != [])
    && (s.streaming.Holding? ==> s.streaming.received <= |s.windows|)
    && (s.arrivals == [] ==> s.queue == [] && s.emitting == if s.streaming == AwaitingFirst then NotStarted else Closed)
    && (s.arrivals != [] ==> s.lowerBoundary == Lower(c, s.first, |s.windows|))
    && (s.emitting.NotStarted? || s.emitting.InitialWait? || s.arrivals == [] ==> s.windows == [])
    && (s.emitting == Closed || s.forced ==> s.streaming == Done)
    && (s.emitting.Ticking? ==> !s.forced)
    && (s.emitting.Sending? ==> s.emitting.last == s.forced)
    && (s.windows == [] ==> !s.forced)
    && (s.emitting == Closed && s.windows != [] ==> s.forced)
  }

  ghost predicate ContentInv<T(!new)>(c: Config, s: State<T>) {
    && (forall a | a in s.arrivals :: a.received <= a.epoch <= |s.windows|)
    && (s.forced ==> forall a | a in s.arrivals :: a.epoch < |s.windows|)
    && QueueIsRight(c, s.first, s.arrivals, |s.windows|, s.queue)
    && WindowsAreRight(c, s.first, s.arrivals, s.windows)
    && s.sent + InFlight(s.emitting) == SentOf(s.windows)
  }

  ghost predicate QueueIsRight<T>(c: Config, first: int, arrivals: seq<Arrival<T>>, n: nat, queue: seq<Timed<T>>) {
    multiset(queue) == multiset(QueuedItems(c, first, arrivals, n))
  }

  ghost predicate WindowIsRight<T>(c: Config, first: int, arrivals: seq<Arrival<T>>, k: nat, window: seq<Timed<T>>) {
    SortedByTime(window) && multiset(window) == multiset(WindowItems(c, first, arrivals, k))
  }

  ghost predicate WindowsAreRight<T>(c: Config, first: int, arrivals: seq<Arrival<T>>, windows: seq<seq<Timed<T>>>) {
    forall k: nat | k < |windows| :: WindowIsRight(c, first, arrivals, k, windows[k])
  }

  ghost predicate Inv<T(!new)>(c: Config, s: State<T>) {
    ControlInv(c, s) && ContentInv(c, s)
  }

  // An arrival after n dispatches joins the queue or is dropped as the closed form says,
  // and touches no window dispatched before it.
  lemma ArrivalIsQueued<T>(c: Config, first: int, arrivals: seq<Arrival<T>>, a: Arrival<T>)
    ensures QueuedItems(c, first, arrivals + [a], a.epoch) ==
            QueuedItems(c, first, arrivals, a.epoch) + if Accepted(c, first, a) then [a.item] else []
    ensures forall k | 0 <= k < a.epoch ::
              WindowItems(c, first, arrivals + [a], k) == WindowItems(c, first, arrivals, k)
  {
    FilterSnoc(arrivals, a, IsQueued(c, first, a.epoch));
    MapSnoc(Filter(arrivals, IsQueued(c, first, a.epoch)), a, ItemOf());
    forall k | 0 <= k < a.epoch
      ensures WindowItems(c, first, arrivals + [a], k) == WindowItems(c, first, arrivals, k)
    {
      FilterSnoc(arrivals, a, IsInWindow(c, first, k));
    }
  }

  lemma WindowsStayRight<T>(c: Config, first: int, arrivals: seq<Arrival<T>>, a: Arrival<T>,
                            windows: seq<seq<Timed<T>>>)
    requires WindowsAreRight(c, first, arrivals, windows) && a.epoch == |windows|
    ensures WindowsAreRight(c, first, arrivals + [a], windows)
  {
    ArrivalIsQueued(c, first, arrivals, a);
    forall k: nat | k < |windows| ensures WindowIsRight(c, first, arrivals + [a], k, windows[k]) {
      assert WindowIsRight(c, first, arrivals, k, windows[k]);
      assert WindowItems(c, first, arrivals + [a], k) == WindowItems(c, first, arrivals, k);
    }
  }

  lemma WindowsSnoc<T>(c: Config, first: int, arrivals: seq<Arrival<T>>, windows: seq<seq<Timed<T>>>,
                       window: seq<Timed<T>>)
    requires WindowsAreRight(c, first, arrivals, windows)
    requires WindowIsRight(c, first, arrivals, |windows|, window)
    ensures WindowsAreRight(c, first, arrivals, windows + [window])
  {
  }

  lemma ProcessesKeepsInv<T(!new)>(c: Config, s: State<T>, s': State<T>)
    requires Inv(c, s) && Processes(s, s')
    ensures Inv(c, s')
  {
    var a := Arrival(s.streaming.x, s.streaming.received, |s.windows|, s.streaming.at);
    ArrivalIsQueued(c, s.first, s.arrivals, a);
    WindowsStayRight(c, s.first, s.arrivals, a, s.windows);
  }

  lemma FilterItems<T>(arrivals: seq<Arrival<T>>, p: Arrival<T> -> bool, q: Timed<T> -> bool, r: Arrival<T> -> bool)
    requires forall a | a in arrivals :: r(a) == (p(a) && q(a.item))
    ensures Filter(Map(Filter(arrivals, p), ItemOf()), q) == Map(Filter(arrivals, r), ItemOf())
  {
    FilterMap(Filter(arrivals, p), ItemOf(), q, (a: Arrival<T>) => q(a.item));
    FilterFilter(arrivals, p, (a: Arrival<T>) => q(a.item), r);
  }

  // A dispatch leaves in the queue exactly what the closed form says, and its window is
  // exactly what the closed form says.
  lemma DispatchSplits<T(!new)>(c: Config, first: int, arrivals: seq<Arrival<T>>, n: nat, queue: seq<Timed<T>>,
                                lower': int, queue': seq<Timed<T>>, window: seq<Timed<T>>)
    requires Dispatched(c, Lower(c, first, n), queue, lower', queue', window)
    requires forall a | a in arrivals :: a.epoch <= n
    requires QueueIsRight(c, first, arrivals, n, queue)
    ensures WindowIsRight(c, first, arrivals, n, window) && QueueIsRight(c, first, arrivals, n + 1, queue')
  {
    var sorted :| SplitsInto(c, Lower(c, first, n), queue, sorted, queue', window);
    WindowSplits(c, first, arrivals, n, queue, sorted, queue', window);
    QueueSplits(c, first, arrivals, n, queue, sorted, queue', window);
  }

  // The same of any sorted arrangement of the queue.
  lemma WindowSplits<T>(c: Config, first: int, arrivals: seq<Arrival<T>>, n: nat, queue: seq<Timed<T>>,
                        sorted: seq<Timed<T>>, queue': seq<Timed<T>>, window: seq<Timed<T>>)
    requires SplitsInto(c, Lower(c, first, n), queue, sorted, queue', window)
    requires forall a | a in arrivals :: a.epoch <= n
    requires QueueIsRight(c, first, arrivals, n, queue)
    ensures WindowIsRight(c, first, arrivals, n, window)
  {
    FilteredIsSorted(sorted, NotAfter(Lower(c, first, n) + c.windowSize));
    UpToIsWindow(c, first, arrivals, n, sorted);
  }

  lemma UpToIsWindow<T>(c: Config, first: int, arrivals: seq<Arrival<T>>, n: nat, sorted: seq<Timed<T>>)
    requires forall a | a in arrivals :: a.epoch <= n
    requires QueueIsRight(c, first, arrivals, n, sorted)
    ensures multiset(UpTo(sorted, Lower(c, first, n) + c.windowSize)) == multiset(WindowItems(c, first, arrivals, n))
  {
    var upTo := NotAfter<T>(Lower(c, first, n) + c.windowSize);
    FilterPermutation(sorted, QueuedItems(c, first, arrivals, n), upTo);
    FilterItems(arrivals, IsQueued(c, first, n), upTo, IsInWindow(c, first, n));
  }

  lemma QueueSplits<T>(c: Config, first: int, arrivals: seq<Arrival<T>>, n: nat, queue: seq<Timed<T>>,
                       sorted: seq<Timed<T>>, queue': seq<Timed<T>>, window: seq<Timed<T>>)
    requires SplitsInto(c, Lower(c, first, n), queue, sorted, queue', window)
    requires forall a | a in arrivals :: a.epoch <= n
    requires QueueIsRight(c, first, arrivals, n, queue)
    ensures QueueIsRight(c, first, arrivals, n + 1, queue')
  {
    AfterIsQueue(c, first, arrivals, n, sorted);
  }

  lemma AfterIsQueue<T>(c: Config, first: int, arrivals: seq<Arrival<T>>, n: nat, sorted: seq<Timed<T>>)
    requires forall a | a in arrivals :: a.epoch <= n
    requires QueueIsRight(c, first, arrivals, n, sorted)
    ensures QueueIsRight(c, first, arrivals, n + 1, After(sorted, Lower(c, first, n + 1)))
  {
    var after := IsAfter<T>(Lower(c, first, n + 1));
    FilterPermutation(sorted, QueuedItems(c, first, arrivals, n), after);
    FilterItems(arrivals, IsQueued(c, first, n), after, IsQueued(c, first, n + 1));
  }

  lemma SentSnoc<T>(windows: seq<seq<Timed<T>>>, window: seq<Timed<T>>)
    ensures SentOf(windows + [window]) == SentOf(windows) + if window == [] then [] else [Elements(window)]
  {
    FilterSnoc(windows, window, IsNonempty());
    MapSnoc(Filter(windows, IsNonempty()), window, ElementsIn());
  }

  lemma DispatchKeepsControl<T(!new)>(c: Config, s: State<T>, s': State<T>, last: bool)
    requires ControlInv(c, s) && Dispatches(c, s, s', last) && (last ==> s.streaming == Done)
    ensures ControlInv(c, s') && s.lowerBoundary == Lower(c, s.first, |s.windows|)
  {
  }

  lemma DispatchSends<T(!new)>(c: Config, s: State<T>, s': State<T>, last: bool)
    requires s.sent + InFlight(s.emitting) == SentOf(s.windows) && Dispatches(c, s, s', last)
    ensures s'.sent + InFlight(s'.emitting) == SentOf(s'.windows)
  {
    SentSnoc(s.windows, s'.windows[|s.windows|]);
    assert s.sent + [] == s.sent;
  }

  lemma DispatchMoves<T(!new)>(c: Config, s: State<T>, s': State<T>, last: bool) returns (window: seq<Timed<T>>)
    requires Dispatches(c, s, s', last)
    ensures s'.windows == s.windows + [window] && s'.arrivals == s.arrivals && s'.first == s.first
    ensures Dispatched(c, s.lowerBoundary, s.queue, s'.lowerBoundary, s'.queue, window)
  {
    window := s'.windows[|s.windows|];
  }

  lemma DispatchFilters<T(!new)>(c: Config, s: State<T>, s': State<T>, last: bool)
    requires Dispatches(c, s, s', last) && s.lowerBoundary == Lower(c, s.first, |s.windows|)
    requires forall a | a in s.arrivals :: a.epoch <= |s.windows|
    requires QueueIsRight(c, s.first, s.arrivals, |s.windows|, s.queue)
    requires WindowsAreRight(c, s.first, s.arrivals, s.windows)
    ensures QueueIsRight(c, s'.first, s'.arrivals, |s'.windows|, s'.queue)
    ensures WindowsAreRight(c, s'.first, s'.arrivals, s'.windows)
  {
    var window := DispatchMoves(c, s, s', last);
    DispatchSplits(c, s.first, s.arrivals, |s.windows|, s.queue, s'.lowerBoundary, s'.queue, window);
    WindowsSnoc(c, s.first, s.arrivals, s.windows, window);
  }

  lemma DispatchKeepsInv<T(!new)>(c: Config, s: State<T>, s': State<T>, last: bool)
    requires Inv(c, s) && Dispatches(c, s, s', last) && (last ==> s.streaming == Done)
    ensures Inv(c, s')
  {
    DispatchKeepsControl(c, s, s', last);
    DispatchFilters(c, s, s', last);
    DispatchSends(c, s, s', last);
  }

  lemma FirstIsQueued<T>(c: Config, first: int, a: Arrival<T>)
    requires a.epoch == 0
    ensures QueueIsRight(c, first, [a], 0, if a.item.time < first then [] else [a.item])
  {
    ArrivalIsQueued(c, first, [], a);
    assert [] + [a] == [a];
  }

  lemma FirstQueues<T(!new)>(c: Config, s: State<T>, s': State<T>, time: int, x: Timed<T>)
    requires Inv(c, s) && ReadsFirst(c, s, s', time, x)
    ensures s'.arrivals == [Arrival(x, 0, 0, s.now)] && s'.queue == if x.time < s'.first then [] else [x]
    ensures s'.windows == s.windows == [] && s'.lowerBoundary == s'.first
    ensures s'.sent == s.sent && s'.emitting == s.emitting
  {
  }

  lemma FirstKeepsInv<T(!new)>(c: Config, s: State<T>, s': State<T>, time: int, x: Timed<T>)
    requires Inv(c, s) && ReadsFirst(c, s, s', time, x)
    ensures Inv(c, s')
  {
    FirstQueues(c, s, s', time, x);
    FirstIsQueued(c, s'.first, s'.arrivals[0]);
  }

  // The steps that neither process an element nor dispatch a window.
  lemma QuietStepKeepsInv<T(!new)>(c: Config, s: State<T>, s': State<T>)
    requires Inv(c, s)
    requires || ClockAdvances(s, s') || ClosesEmpty(s, s') || (exists x :: Receives(s, s', x)) || InputCloses(s, s')
             || EmitStarts(s, s') || TimerFires(c, s, s') || QuitsEarly(s, s') || Delivers(s, s')
    ensures Inv(c, s')
  {
    assert s'.arrivals == s.arrivals && s'.windows == s.windows && s'.first == s.first && s'.queue == s.queue;
  }

  lemma NextKeepsInv<T(!new)>(c: Config, s: State<T>, s': State<T>)
    requires Inv(c, s) && Next(c, s, s')
    ensures Inv(c, s')
  {
    if time, x :| ReadsFirst(c, s, s', time, x) {
      FirstKeepsInv(c, s, s', time, x);
    } else if Processes(s, s') {
      ProcessesKeepsInv(c, s, s');
    } else if Ticks(c, s, s') {
      DispatchKeepsInv(c, s, s', false);
    } else if DispatchesLast(c, s, s') {
      DispatchKeepsInv(c, s, s', true);
    } else {
      QuietStepKeepsInv(c, s, s');
    }
  }

  lemma {:induction false} RunKeepsInv<T(!new)>(c: Config, run: seq<State<T>>)
    requires IsRun(c, run)
    ensures forall i | 0 <= i < |run| :: Inv(c, run[i])
  {
    for i := 1 to |run|
      invariant forall j | 0 <= j < i :: Inv(c, run[j])
    {
      NextKeepsInv(c, run[i - 1], run[i]);
    }
  }
}
