/** Runs of the throttler that pass its documented maximum, one for each way there is. */
module ThrottlingCounterexamples {
  import opened Throttling
  import opened ThrottlingPeriods

  // A maximum of one element per period, and three elements.
  const ONE: Config := Options(1, 1, Backpressure)
  const THREE: seq<int> := [1, 2, 3]

  // ---------- reachable states ----------

  // Runs in which the store and the signal of a reset are one step, and runs in which they
  // are two.
  ghost predicate IsStep(atomic: bool, s: State<int>, s': State<int>) {
    if atomic then NextAtomic(ONE, s, s') else Next(ONE, s, s')
  }

  ghost predicate IsRunOf(atomic: bool, run: seq<State<int>>) {
    if atomic then IsAtomicRun(ONE, THREE, run) else IsRun(ONE, THREE, run)
  }

  // The step starts a period.
  ghost predicate Starts(atomic: bool, s: State<int>, s': State<int>) {
    if atomic then Resets(ONE, s, s') else Stores(s, s')
  }

  ghost predicate Reaches(atomic: bool, s: State<int>) {
    exists run :: IsRunOf(atomic, run) && Last(run) == s
  }

  // A period has started with state start.
  ghost predicate ReachesSince(atomic: bool, start: State<int>, s: State<int>) {
    exists run, i :: IsSince(atomic, run, i) && run[i] == start && Last(run) == s
  }

  ghost predicate IsSince(atomic: bool, run: seq<State<int>>, i: nat) {
    IsRunOf(atomic, run) && 0 < i < |run| && Starts(atomic, run[i - 1], run[i])
  }

  // A step of either kind of run: one of the buffering goroutine or of the consumer.
  ghost predicate Moves(s: State<int>, s': State<int>) {
    Receives(s, s') || Buffers(ONE, s, s') || ConsumerMoves(ONE, s, s')
  }

  lemma MovesAreSteps(atomic: bool, s: State<int>, s': State<int>)
    requires Moves(s, s')
    ensures IsStep(atomic, s, s')
  {
    assert s'.resetter == s.resetter;
  }

  lemma RunGrows(atomic: bool, run: seq<State<int>>, s': State<int>)
    requires IsRunOf(atomic, run) && IsStep(atomic, Last(run), s')
    ensures IsRunOf(atomic, run + [s']) && Last(run + [s']) == s'
  {
  }

  lemma ReachesNext(atomic: bool, s: State<int>, s': State<int>)
    requires Reaches(atomic, s) && Moves(s, s')
    ensures Reaches(atomic, s')
  {
    var run :| IsRunOf(atomic, run) && Last(run) == s;
    MovesAreSteps(atomic, s, s');
    RunGrows(atomic, run, s');
  }

  lemma ReachesStart(atomic: bool, s: State<int>, s': State<int>)
    requires Reaches(atomic, s) && Starts(atomic, s, s')
    ensures ReachesSince(atomic, s', s')
  {
    var run :| IsRunOf(atomic, run) && Last(run) == s;
    RunGrows(atomic, run, s');
    assert IsSince(atomic, run + [s'], |run|) && (run + [s'])[|run|] == s';
  }

  lemma ReachesNextSince(atomic: bool, start: State<int>, s: State<int>, s': State<int>)
    requires ReachesSince(atomic, start, s) && (Moves(s, s') || (!atomic && Signals(ONE, s, s')))
    ensures ReachesSince(atomic, start, s')
  {
    var run, i :| IsSince(atomic, run, i) && run[i] == start && Last(run) == s;
    assert IsStep(atomic, s, s') by {
      if Moves(s, s') {
        MovesAreSteps(atomic, s, s');
      }
    }
    RunGrows(atomic, run, s');
    SinceGrows(atomic, run, i, s');
  }

  lemma SinceGrows(atomic: bool, run: seq<State<int>>, i: nat, s': State<int>)
    requires IsSince(atomic, run, i) && IsRunOf(atomic, run + [s'])
    ensures IsSince(atomic, run + [s'], i) && (run + [s'])[i] == run[i]
  {
    assert (run + [s'])[i - 1] == run[i - 1];
  }

  // ---------- a late signal ----------

  // The first element is being checked.
  lemma TakeOne(atomic: bool)
    ensures var taken := [(1, true)];
            Reaches(atomic, State(0, Selecting, Receiving, Checking(1), [2, 3], [], [], [], [], NoLateWake, taken))
  {
    var s0: State<int> := State(0, Selecting, Receiving, Taking, THREE, [], [], [], [], NoLateWake, []);
    var s1 := s0.(bufferer := Holding(1), input := [2, 3]);
    var s2 := s1.(bufferer := Receiving, buffer := [1], taken := [(1, true)]);
    var s3 := s2.(consumer := Checking(1), buffer := []);
    assert IsRunOf(atomic, [s0]) && Last([s0]) == s0;
    assert Receives(s0, s1);
    ReachesNext(atomic, s0, s1);
    assert Buffers(ONE, s1, s2);
    ReachesNext(atomic, s1, s2);
    assert Takes(s2, s3);
    ReachesNext(atomic, s2, s3);
  }

  // The first element of a period is counted and sent.
  lemma QuotaLeftSends(atomic: bool, start: State<int>, s: State<int>, x: int)
    requires ReachesSince(atomic, start, s) && s.consumer == Checking(x)
    requires s.counter == 0 && s.admitted == [] && s.late == NoLateWake
    ensures ReachesSince(atomic, start,
                         s.(consumer := Taking, counter := 1, admitted := [x], delivered := s.delivered + [x]))
  {
    var s1 := s.(consumer := Adding(x));
    assert Loads(ONE, s, s1);
    ReachesNextSince(atomic, start, s, s1);
    var s2 := s1.(consumer := Sending(x), counter := 1, admitted := [x]);
    assert Adds(s1, s2);
    ReachesNextSince(atomic, start, s1, s2);
    var s3 := s2.(consumer := Taking, delivered := s.delivered + [x]);
    assert Sends(s2, s3);
    ReachesNextSince(atomic, start, s2, s3);
  }

  // What the store of a reset leaves before the first element is checked.
  ghost function EarlyStart(): State<int> {
    var p := [Period([], NoLateWake)];
    State(0, Signalling, Receiving, Checking(1), [2, 3], [], [], p, [], NoLateWake, [(1, true)])
  }

  // The first element is sent after that store, and the second is buffered.
  lemma SendOneAfterStore()
    ensures var p, taken := EarlyStart().periods, [(1, true), (2, true)];
            ReachesSince(false, EarlyStart(),
                         State(1, Signalling, Receiving, Taking, [3], [2], [1], p, [1], NoLateWake, taken))
  {
    TakeOne(false);
    var s: State<int> := State(0, Selecting, Receiving, Checking(1), [2, 3], [], [], [], [], NoLateWake, [(1, true)]);
    var s0 := EarlyStart();
    assert Stores(s, s0);
    ReachesStart(false, s, s0);
    QuotaLeftSends(false, s0, s0, 1);
    assert [] + [1] == [1];
    var s3 := s0.(consumer := Taking, counter := 1, admitted := [1], delivered := [1]);
    var s4 := s3.(bufferer := Holding(2), input := [3]);
    assert Receives(s3, s4);
    ReachesNextSince(false, s0, s3, s4);
    var s5 := s4.(bufferer := Receiving, buffer := [2], taken := [(1, true), (2, true)]);
    assert Buffers(ONE, s4, s5);
    ReachesNextSince(false, s0, s4, s5);
  }

  // With a used-up quota, a waiting consumer that the late signal of the reset wakes counts
  // its element and sends it.
  lemma LateSignalSends(start: State<int>, s: State<int>, x: int)
    requires ReachesSince(false, start, s) && s.resetter == Signalling && s.counter == 1
    requires s.consumer == Taking && s.buffer == [x]
    ensures var s' := s.(resetter := Selecting, counter := 2, buffer := [], delivered := s.delivered + [x],
                         admitted := s.admitted + [x], late := AddedLate);
            ReachesSince(false, start, s')
  {
    var s1 := s.(consumer := Checking(x), buffer := []);
    assert Takes(s, s1);
    ReachesNextSince(false, start, s, s1);
    var s2 := s1.(consumer := Parking(x));
    assert Loads(ONE, s1, s2);
    ReachesNextSince(false, start, s1, s2);
    var s3 := s2.(consumer := Parked(x));
    assert Parks(s2, s3);
    ReachesNextSince(false, start, s2, s3);
    var s4 := s3.(resetter := Selecting, consumer := Adding(x), late := WokenLate);
    assert Signals(ONE, s3, s4);
    ReachesNextSince(false, start, s3, s4);
    var s5 := s4.(consumer := Sending(x), counter := 2, admitted := s.admitted + [x], late := AddedLate);
    assert Adds(s4, s5);
    ReachesNextSince(false, start, s4, s5);
    var s6 := s5.(consumer := Taking, delivered := s.delivered + [x]);
    assert Sends(s5, s6);
    ReachesNextSince(false, start, s5, s6);
  }

  // The documented maximum does not hold on every schedule: with a maximum of one, this
  // run admits two elements in the period that starts at state i, and sends both in it.
  lemma MaximumCanBeExceeded() returns (run: seq<State<int>>, i: nat)
    ensures ONE.maxElements == 1 && IsRun(ONE, THREE, run)
    ensures 0 < i < |run| && Stores(run[i - 1], run[i]) && Last(run).periods == run[i].periods
    ensures run[i].delivered == [] && Last(run).delivered == Last(run).admitted == [1, 2]
  {
    SendOneAfterStore();
    var start, taken := EarlyStart(), [(1, true), (2, true)];
    var s: State<int> := State(1, Signalling, Receiving, Taking, [3], [2], [1], start.periods, [1], NoLateWake, taken);
    LateSignalSends(start, s, 2);
    assert [1] + [2] == [1, 2];
    run, i :| IsSince(false, run, i) && run[i] == start && Last(run).periods == start.periods
              && Last(run).delivered == Last(run).admitted == [1, 2];
  }

  // ---------- a carried send ----------

  // The first element is counted and being sent, and the second is buffered.
  lemma SendOne(atomic: bool)
    ensures var taken := [(1, true), (2, true)];
            Reaches(atomic, State(1, Selecting, Receiving, Sending(1), [3], [2], [], [], [1], NoLateWake, taken))
  {
    TakeOne(atomic);
    var s0: State<int> := State(0, Selecting, Receiving, Checking(1), [2, 3], [], [], [], [], NoLateWake, [(1, true)]);
    var s1 := s0.(consumer := Adding(1));
    assert Loads(ONE, s0, s1);
    ReachesNext(atomic, s0, s1);
    var s2 := s1.(consumer := Sending(1), counter := 1, admitted := [1]);
    assert Adds(s1, s2);
    ReachesNext(atomic, s1, s2);
    var s3 := s2.(bufferer := Holding(2), input := [3]);
    assert Receives(s2, s3);
    ReachesNext(atomic, s2, s3);
    var s4 := s3.(bufferer := Receiving, buffer := [2], taken := [(1, true), (2, true)]);
    assert Buffers(ONE, s3, s4);
    ReachesNext(atomic, s3, s4);
  }

  // What a reset during that send leaves; its signal, if still to come, finds nobody waiting.
  ghost function CarriedStart(atomic: bool): State<int> {
    var p, taken := [Period([1], NoLateWake)], [(1, true), (2, true)];
    State(0, if atomic then Selecting else Signalling, Receiving, Sending(1), [3], [2], [], p, [], NoLateWake, taken)
  }

  lemma ResetDuringSend(atomic: bool)
    ensures ReachesSince(atomic, CarriedStart(atomic), CarriedStart(atomic))
  {
    SendOne(atomic);
    var taken := [(1, true), (2, true)];
    var s: State<int> := State(1, Selecting, Receiving, Sending(1), [3], [2], [], [], [1], NoLateWake, taken);
    assert [] + [Period([1], NoLateWake)] == [Period([1], NoLateWake)];
    assert Stored(s) == CarriedStart(false) && Starts(atomic, s, CarriedStart(atomic));
    ReachesStart(atomic, s, CarriedStart(atomic));
  }

  // The first element is sent in the new period, and then the second is counted and sent.
  lemma CarriedSend(atomic: bool)
    ensures ReachesSince(atomic, CarriedStart(atomic),
                         CarriedStart(atomic).(consumer := Taking, counter := 1, buffer := [], delivered := [1, 2],
                                               admitted := [2]))
  {
    ResetDuringSend(atomic);
    var s0 := CarriedStart(atomic);
    var s1 := s0.(consumer := Taking, delivered := [1]);
    assert Sends(s0, s1);
    ReachesNextSince(atomic, s0, s0, s1);
    var s2 := s1.(consumer := Checking(2), buffer := []);
    assert Takes(s1, s2);
    ReachesNextSince(atomic, s0, s1, s2);
    QuotaLeftSends(atomic, s0, s2, 2);
    assert [1] + [2] == [1, 2];
  }

  // That period sends two elements, with a maximum of one and no late signal.
  lemma CarriedSendExceeds() returns (run: seq<State<int>>, i: nat)
    ensures ONE.maxElements == 1 && IsAtomicRun(ONE, THREE, run)
    ensures 0 < i < |run| && Resets(ONE, run[i - 1], run[i]) && Last(run).periods == run[i].periods
    ensures run[i].delivered == [] && Last(run).delivered == [1, 2]
  {
    CarriedSend(true);
    run, i :| IsSince(true, run, i) && run[i] == CarriedStart(true)
              && Last(run).periods == CarriedStart(true).periods && Last(run).delivered == [1, 2];
  }

  // ---------- both ----------

  // The same with store and signal apart, and then the signal comes late: the period that
  // starts at state i sends three elements.
  lemma BothExceed() returns (run: seq<State<int>>, i: nat)
    ensures ONE.maxElements == 1 && IsRun(ONE, THREE, run)
    ensures 0 < i < |run| && Stores(run[i - 1], run[i]) && Last(run).periods == run[i].periods
    ensures run[i].delivered == [] && Last(run).delivered == [1, 2, 3]
  {
    CarriedSend(false);
    var start := CarriedStart(false);
    var s0 := start.(consumer := Taking, counter := 1, buffer := [], delivered := [1, 2], admitted := [2]);
    var s1 := s0.(bufferer := Holding(3), input := []);
    assert Receives(s0, s1);
    ReachesNextSince(false, start, s0, s1);
    var s2 := s1.(bufferer := Receiving, buffer := [3], taken := [(1, true), (2, true), (3, true)]);
    assert Buffers(ONE, s1, s2);
    ReachesNextSince(false, start, s1, s2);
    LateSignalSends(start, s2, 3);
    assert [1, 2] + [3] == [1, 2, 3];
    run, i :| IsSince(false, run, i) && run[i] == start && Last(run).periods == start.periods
              && Last(run).delivered == [1, 2, 3];
  }
}
