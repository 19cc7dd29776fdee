/** The sliding window object driven through a whole life: what its methods do is a run of
    the two goroutines, so the theorems about runs are theorems about the object. */
module SlidingDriver {
  import opened Events
  import opened Sequences
  import opened SlidingWindow
  import opened SlidingRuns
  import opened SlidingTheorems
  import opened SlidingProgress

  // ---------- what the events determine ----------

  // The elements, each with the number of dispatches before it: the ticks since the first
  // element.
  ghost function Met<T>(events: seq<Event<Timed<T>>>): seq<(Timed<T>, nat)> {
    if events == [] then []
    else
      var before, e := events[..|events| - 1], events[|events| - 1];
      Met(before) + if e.Element? then [(e.x, TicksSeen(before))] else []
  }

  // The ticks that come after an element.
  ghost function TicksSeen<T>(events: seq<Event<Timed<T>>>): nat {
    if events == [] then 0
    else
      var before, e := events[..|events| - 1], events[|events| - 1];
      TicksSeen(before) + if e.Tick? && Met(before) != [] then 1 else 0
  }

  ghost function FirstLower<T>(c: Config, events: seq<Event<Timed<T>>>): int
    requires Met(events) != []
  {
    CalculateWindowStart(c.slidingInterval, Met(events)[0].0.time).0
  }

  ghost function Item<T>(): ((Timed<T>, nat)) -> Timed<T> {
    (p: (Timed<T>, nat)) => p.0
  }

  ghost function IsIn<T>(c: Config, first: int, k: nat): ((Timed<T>, nat)) -> bool {
    (p: (Timed<T>, nat)) => InWindow(c, first, Arrival(p.0, p.1, p.1, 0), k)
  }

  // The contents of window k, up to their order.
  ghost function ExpectedWindow<T>(c: Config, events: seq<Event<Timed<T>>>, k: nat): seq<Timed<T>>
    requires Met(events) != []
  {
    Map(Filter(Met(events), IsIn(c, FirstLower(c, events), k)), Item())
  }

  ghost function Seen<T>(): Arrival<T> -> (Timed<T>, nat) {
    (a: Arrival<T>) => (a.item, a.epoch)
  }

  ghost predicate HasMet<T>(c: Config, s: State<T>, events: seq<Event<Timed<T>>>) {
    && Map(s.arrivals, Seen()) == Met(events)
    && |s.windows| == TicksSeen(events)
    && (s.arrivals != [] ==> s.first == FirstLower(c, events))
  }

  lemma EventsGrow<T>(events: seq<Event<Timed<T>>>, e: Event<Timed<T>>)
    ensures Met(events + [e]) == Met(events) + if e.Element? then [(e.x, TicksSeen(events))] else []
    ensures TicksSeen(events + [e]) == TicksSeen(events) + if e.Tick? && Met(events) != [] then 1 else 0
  {
    assert (events + [e])[..|events|] == events;
  }

  ghost predicate IsSeen<T>(events: seq<Event<Timed<T>>>, i: nat)
    requires i < |events|
  {
    events[i].Tick? && exists j :: 0 <= j < i && events[j].Element?
  }

  ghost function SeenTicks<T>(events: seq<Event<Timed<T>>>, n: nat): set<nat>
    requires n <= |events|
  {
    set i: nat | i < n && IsSeen(events, i)
  }

  lemma SeenTicksGrow<T>(events: seq<Event<Timed<T>>>, n: nat)
    requires n < |events|
    ensures |SeenTicks(events, n + 1)| == |SeenTicks(events, n)| + if IsSeen(events, n) then 1 else 0
  {
    assert SeenTicks(events, n + 1) == SeenTicks(events, n) + if IsSeen(events, n) then {n} else {};
  }

  lemma {:induction false} IsSeenIff<T>(events: seq<Event<Timed<T>>>, n: nat)
    requires n <= |events|
    ensures Met(events[..n]) != [] <==> exists j :: 0 <= j < n && events[j].Element?
  {
    if n > 0 {
      IsSeenIff(events, n - 1);
      assert events[..n][..n - 1] == events[..n - 1];
    }
  }

  // The ticks seen are those that come after some element.
  lemma {:induction false} TicksSeenIs<T>(events: seq<Event<Timed<T>>>, n: nat)
    requires n <= |events|
    ensures TicksSeen(events[..n]) == |SeenTicks(events, n)|
  {
    if n > 0 {
      TicksSeenIs(events, n - 1);
      IsSeenIff(events, n - 1);
      SeenTicksGrow(events, n - 1);
      assert events[..n][..n - 1] == events[..n - 1];
    }
  }

  // The elements are met in order, each after the ticks seen before it.
  lemma {:induction false} MetIs<T>(events: seq<Event<Timed<T>>>, i: nat)
    requires i < |events| && events[i].Element?
    ensures |Met(events)| == |ElementsOf(events)|
    ensures var n := |ElementsOf(events[..i])|;
            n < |Met(events)| && Met(events)[n] == (events[i].x, TicksSeen(events[..i]))
  {
    var last := |events| - 1;
    MetLength(events[..last]);
    if i < last {
      MetIs(events[..last], i);
      assert events[..last][..i] == events[..i];
    }
  }

  lemma {:induction false} MetLength<T>(events: seq<Event<Timed<T>>>)
    ensures |Met(events)| == |ElementsOf(events)|
  {
    if events != [] {
      MetLength(events[..|events| - 1]);
    }
  }

  lemma WindowIsExpected<T>(c: Config, s: State<T>, events: seq<Event<Timed<T>>>, k: nat)
    requires s.arrivals != [] && Map(s.arrivals, Seen()) == Met(events) && s.first == FirstLower(c, events)
    ensures WindowItems(c, s.first, s.arrivals, k) == ExpectedWindow(c, events, k)
  {
    FilterMap(s.arrivals, Seen(), IsIn(c, s.first, k), IsInWindow(c, s.first, k));
    assert Map(Map(Filter(s.arrivals, IsInWindow(c, s.first, k)), Seen()), Item())
        == Map(Filter(s.arrivals, IsInWindow(c, s.first, k)), ItemOf());
  }

  // ---------- the object along a run ----------

  // The object is in the last state of the run, with no send under way.
  ghost predicate Follows<T(!new)>(sw: SlidingWindow<T>, run: seq<State<T>>)
    reads sw
  {
    && IsRun(sw.config, run)
    && var s := Last(run);
    && sw.queue == s.queue && sw.out == s.sent && MutexFree(s)
    && (s.arrivals != [] ==> sw.lowerBoundary == s.lowerBoundary)
  }

  // The first element, which fixes the lower boundary.
  method OnFirst<T(!new)>(sw: SlidingWindow<T>, x: Timed<T>, ghost run: seq<State<T>>,
                          ghost events: seq<Event<Timed<T>>>)
    returns (ghost run': seq<State<T>>)
    requires Follows(sw, run) && Last(run).streaming == AwaitingFirst && HasMet(sw.config, Last(run), events)
    modifies sw
    ensures Follows(sw, run') && Last(run').streaming == Reading && Last(run').emitting == Last(run).emitting
    ensures HasMet(sw.config, Last(run'), events + [Element(x)])
  {
    ghost var s := Last(run);
    RunKeepsInv(sw.config, run);
    EventsGrow(events, Element(x));
    var delta := sw.StreamFirst(x.element, x.time, x.time);
    ghost var s' := Queue(s.(streaming := Reading, delta := delta, lowerBoundary := sw.lowerBoundary,
                             first := sw.lowerBoundary, firstTime := x.time, firstAt := s.now), x, 0, s.now);
    assert ReadsFirst(sw.config, s, s', x.time, x);
    run' := Extend(sw.config, run, s');
    assert s'.arrivals == [Arrival(x, 0, 0, s.now)];
  }

  // Any other element, received and processed with no dispatch in between.
  method OnElement<T(!new)>(sw: SlidingWindow<T>, x: Timed<T>, ghost run: seq<State<T>>,
                            ghost events: seq<Event<Timed<T>>>)
    returns (ghost run': seq<State<T>>)
    requires Follows(sw, run) && Last(run).streaming == Reading && HasMet(sw.config, Last(run), events)
    modifies sw
    ensures Follows(sw, run') && Last(run').streaming == Reading && Last(run').emitting == Last(run).emitting
    ensures HasMet(sw.config, Last(run'), events + [Element(x)])
  {
    ghost var s := Last(run);
    RunKeepsInv(sw.config, run);
    EventsGrow(events, Element(x));
    MapSnoc(s.arrivals, Arrival(x, |s.windows|, |s.windows|, s.now), Seen());
    sw.ProcessElement(x.element, x.time);
    ghost var s1 := s.(streaming := Holding(x, s.now, |s.windows|));
    assert Receives(s, s1, x);
    run' := Extend(sw.config, run, s1);
    ghost var s2 := Queue(s1.(streaming := Reading), x, |s.windows|, s.now);
    assert Processes(s1, s2);
    run' := Extend(sw.config, run', s2);
  }

  // What a dispatch, with the delivery of its window, leaves as it was.
  ghost predicate OnlyDispatched<T>(s: State<T>, s': State<T>) {
    && s'.streaming == s.streaming && s'.arrivals == s.arrivals && s'.first == s.first
    && |s'.windows| == |s.windows| + 1
  }

  // A dispatch, and the delivery of its window if there is one.
  method Dispatch<T(!new)>(sw: SlidingWindow<T>, last: bool, ghost run: seq<State<T>>)
    returns (ghost run': seq<State<T>>)
    requires Follows(sw, run) && Last(run).emitting.Ticking?
    requires if last then Last(run).streaming == Done
             else Last(run).emitting.created + Elapsed(sw.config, |Last(run).windows| + 1) <= Last(run).now
    modifies sw
    ensures Follows(sw, run') && OnlyDispatched(Last(run), Last(run'))
    ensures if last then Last(run').emitting == Closed else Last(run').emitting.Ticking?
  {
    ghost var s := Last(run);
    RunKeepsInv(sw.config, run);
    ghost var window := sw.DispatchWindow();
    ghost var created := s.emitting.created;
    ghost var next := if window == [] then Resume(created, last) else Sending(window, created, last);
    ghost var s' := s.(lowerBoundary := sw.lowerBoundary, queue := sw.queue, windows := s.windows + [window],
                       forced := last, emitting := next);
    assert Dispatches(sw.config, s, s', last);
    assert last ==> DispatchesLast(sw.config, s, s');
    assert !last ==> Ticks(sw.config, s, s');
    run' := Extend(sw.config, run, s');
    if window != [] {
      ghost var s'' := s'.(sent := s'.sent + [Elements(window)], emitting := Resume(s.emitting.created, last));
      assert Delivers(s', s'');
      run' := Extend(sw.config, run', s'');
    }
  }

  // A tick, at the earliest time it can come.
  method OnTick<T(!new)>(sw: SlidingWindow<T>, ghost run: seq<State<T>>, ghost events: seq<Event<Timed<T>>>)
    returns (ghost run': seq<State<T>>)
    requires Follows(sw, run) && Last(run).streaming == Reading && HasMet(sw.config, Last(run), events)
    modifies sw
    ensures Follows(sw, run') && Last(run').streaming == Reading && Last(run').emitting.Ticking?
    ensures HasMet(sw.config, Last(run'), events + [Tick])
  {
    RunKeepsInv(sw.config, run);
    EventsGrow(events, Tick);
    run' := StartTicker(sw.config, run);
    ghost var s := Last(run');
    ghost var due := s.emitting.created + Elapsed(sw.config, |s.windows| + 1);
    ghost var s1 := s.(now := if s.now < due then due else s.now);
    assert ClockAdvances(s, s1);
    run' := Extend(sw.config, run', s1);
    run' := Dispatch(sw, false, run');
  }

  // The close of the input.  A window whose ticker runs is dispatched for the last time.
  method OnClose<T(!new)>(sw: SlidingWindow<T>, ticking: bool, ghost run: seq<State<T>>)
    returns (ghost run': seq<State<T>>)
    requires Follows(sw, run) && Last(run).streaming == Reading
    requires ticking <==> Last(run).emitting.Ticking?
    modifies sw
    ensures Follows(sw, run') && Last(run').emitting == Closed
    ensures Last(run').arrivals == Last(run).arrivals && Last(run').first == Last(run).first
    ensures |Last(run').windows| == |Last(run).windows| + if ticking then 1 else 0
  {
    ghost var s := Last(run);
    RunKeepsInv(sw.config, run);
    assert InputCloses(s, s.(streaming := Done));
    run' := Extend(sw.config, run, s.(streaming := Done));
    if ticking {
      run' := Dispatch(sw, true, run');
    } else {
      if s.emitting == NotStarted {
        ghost var s' := Last(run').(emitting := InitialWait(s.now));
        assert EmitStarts(Last(run'), s');
        run' := Extend(sw.config, run', s');
      }
      ghost var s'' := Last(run').(emitting := Closed);
      assert QuitsEarly(Last(run'), s'');
      run' := Extend(sw.config, run', s'');
    }
  }

  // The windows so far are those that the events, and then the close, determine.
  ghost predicate IsExpected<T(!new)>(c: Config, s: State<T>, events: seq<Event<Timed<T>>>) {
    && Map(s.arrivals, Seen()) == Met(events)
    && |s.windows| == (if TicksSeen(events) == 0 then 0 else TicksSeen(events) + 1)
    && (s.arrivals != [] ==> s.first == CalculateWindowStart(c.slidingInterval, s.arrivals[0].item.time).0)
    && forall k: nat | k < |s.windows| ::
         && Met(events) != []
         && SortedByTime(s.windows[k]) && multiset(s.windows[k]) == multiset(ExpectedWindow(c, events, k))
  }

  lemma ClosedIsExpected<T(!new)>(c: Config, run: seq<State<T>>, events: seq<Event<Timed<T>>>)
    requires IsRun(c, run) && Map(Last(run).arrivals, Seen()) == Met(events)
    requires |Last(run).windows| == if TicksSeen(events) == 0 then 0 else TicksSeen(events) + 1
    requires Last(run).arrivals != [] ==> Last(run).first == FirstLower(c, events)
    requires Last(run).windows != [] ==> Last(run).arrivals != []
    ensures IsExpected(c, Last(run), events)
  {
    var s := Last(run);
    forall k: nat | k < |s.windows|
      ensures Met(events) != [] && SortedByTime(s.windows[k])
      ensures multiset(s.windows[k]) == multiset(ExpectedWindow(c, events, k))
    {
      WindowHolds(c, run, k);
      WindowIsExpected(c, s, events, k);
    }
    assert s.arrivals != [] ==> Met(events)[0].0 == s.arrivals[0].item;
  }

  // An open operator between events: ticking says whether its ticker runs.
  ghost predicate Along<T(!new)>(c: Config, s: State<T>, events: seq<Event<Timed<T>>>, first: bool, ticking: bool) {
    && HasMet(c, s, events)
    && s.streaming == (if first then AwaitingFirst else Reading)
    && (ticking <==> s.emitting.Ticking?)
    && (ticking <==> TicksSeen(events) > 0)
  }

  method OnEvent<T(!new)>(sw: SlidingWindow<T>, e: Event<Timed<T>>, first: bool, ticking: bool,
                          ghost run: seq<State<T>>, ghost events: seq<Event<Timed<T>>>)
    returns (first': bool, ticking': bool, ghost run': seq<State<T>>)
    requires Follows(sw, run) && Along(sw.config, Last(run), events, first, ticking)
    modifies sw
    ensures Follows(sw, run') && Along(sw.config, Last(run'), events + [e], first', ticking')
  {
    first', ticking', run' := first, ticking, run;
    EventsGrow(events, e);
    RunKeepsInv(sw.config, run);
    match e {
      case Element(x) =>
        if first {
          run' := OnFirst(sw, x, run, events);
          first' := false;
        } else {
          run' := OnElement(sw, x, run, events);
        }
      case Tick =>
        if !first {
          run' := OnTick(sw, run, events);
          ticking' := true;
        }
    }
  }

  // The close of the input, in whatever state the operator is.
  method Finish<T(!new)>(sw: SlidingWindow<T>, first: bool, ticking: bool,
                         ghost run: seq<State<T>>, ghost events: seq<Event<Timed<T>>>)
    returns (ghost run': seq<State<T>>)
    requires Follows(sw, run) && Along(sw.config, Last(run), events, first, ticking)
    modifies sw
    ensures IsRun(sw.config, run') && Last(run').emitting == Closed
    ensures IsExpected(sw.config, Last(run'), events) && sw.out == Last(run').sent
  {
    RunKeepsInv(sw.config, run);
    if first {
      ghost var s := Last(run);
      assert ClosesEmpty(s, s.(streaming := Done, emitting := Closed));
      run' := Extend(sw.config, run, s.(streaming := Done, emitting := Closed));
    } else {
      run' := OnClose(sw, ticking, run);
    }
    ClosedIsExpected(sw.config, run', events);
  }

  // A whole life in event-time mode: elements and ticks in any order, then the close of
  // the input.  Each tick after the first element dispatches one window, and the close one
  // more if there was such a tick.  The object's life is a run, and its output is, in
  // order, the elements of each nonempty window, each sorted and with exactly the contents
  // that the events determine.
  method Drive<T(!new)>(sw: SlidingWindow<T>, events: seq<Event<Timed<T>>>)
    returns (ghost run: seq<State<T>>, ghost idx: seq<nat>)
    requires sw.queue == [] && sw.out == []
    modifies sw
    ensures IsRun(sw.config, run) && Last(run).emitting == Closed
    ensures IsExpected(sw.config, Last(run), events) && AreSent(Last(run).windows, sw.out, idx)
  {
    run := [State(0, AwaitingFirst, NotStarted, 0, 0, [], [], 0, 0, 0, [], [], false)];
    var first, ticking := true, false;
    for i := 0 to |events|
      invariant Follows(sw, run) && Along(sw.config, Last(run), events[..i], first, ticking)
    {
      assert events[..i + 1] == events[..i] + [events[i]];
      first, ticking, run := OnEvent(sw, events[i], first, ticking, run, events[..i]);
    }
    assert events[..|events|] == events;
    run := Finish(sw, first, ticking, run, events);
    idx := SentWindows(sw.config, run);
  }
}
