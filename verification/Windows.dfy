/** Session and tumbling windows: a goroutine that buffers elements and one that swaps the
    buffer out and sends it, sharing the buffer under a mutex (flow/session_window.go:79-140,
    flow/tumbling_window.go:77-118). */
module Windows {
  import opened Sequences

  datatype Kind = Session | Tumbling

  datatype Mutex = Free | HeldByReceiver | HeldByEmitter

  // The receiving goroutine: receiving; wanting the mutex; holding it before and after the
  // append; about to signal the reset of the timer; finished, with done closed.
  datatype Receiver<T> =
    | Receiving
    | WantsMutex(x: T)
    | Appending(x: T)
    | Unlocking
    | Notifying
    | Done

  // The emitting goroutine: selecting; restarting the timer; dispatching a window, for the
  // last time or not: wanting the mutex, holding it before the swap, during the send and
  // after it; about to close out; finished.
  datatype Emitter<T> =
    | Selecting
    | Restarting
    | Wants(last: bool)
    | Swapping(last: bool)
    | Sending(window: seq<T>, last: bool)
    | Releasing(last: bool)
    | Closing
    | Closed

  datatype State<T> = State(
    input: seq<T>,           // what upstream will still send
    receiver: Receiver<T>,
    emitter: Emitter<T>,
    mutex: Mutex,
    timed: bool,             // whether the timer or ticker is still going to fire
    buffer: seq<T>,
    out: seq<seq<T>>,        // the windows sent downstream
    missed: bool)            // history: whether the last reset signal was lost for good

  ghost predicate Init<T>(input: seq<T>, s: State<T>) {
    s == State(input, Receiving, Selecting, Free, true, [], [], false)
  }

  // ---------- the receiving goroutine ----------

  ghost predicate Receives<T>(s: State<T>, s': State<T>) {
    && s.receiver == Receiving && s.input != []
    && s' == s.(receiver := WantsMutex(s.input[0]), input := s.input[1..])
  }

  ghost predicate ReceiverLocks<T>(s: State<T>, s': State<T>) {
    && s.receiver.WantsMutex? && s.mutex == Free
    && s' == s.(receiver := Appending(s.receiver.x), mutex := HeldByReceiver)
  }

  ghost predicate Appends<T>(s: State<T>, s': State<T>) {
    && s.receiver.Appending?
    && s' == s.(receiver := Unlocking, buffer := s.buffer + [s.receiver.x])
  }

  ghost predicate ReceiverUnlocks<T>(kind: Kind, s: State<T>, s': State<T>) {
    && s.receiver == Unlocking
    && s' == s.(receiver := if kind == Session then Notifying else Receiving, mutex := Free)
  }

  // The send of the reset signal succeeds only if the emitter is waiting in its select.
  ghost predicate ResetIsHeard<T>(s: State<T>, s': State<T>) {
    && s.receiver == Notifying && s.emitter == Selecting
    && s' == s.(receiver := Receiving, emitter := Restarting, missed := false)
  }

  // The timer is going to fire, or a dispatch that has not yet swapped the buffer is under way.
  ghost predicate Covered<T>(s: State<T>) {
    s.timed || s.emitter == Restarting || s.emitter.Wants? || s.emitter.Swapping?
  }

  // Otherwise, which includes an emitter on its way to its select, the signal is lost: for
  // good, if the timer is spent and the swap of its dispatch is past.
  ghost predicate ResetIsLost<T>(s: State<T>, s': State<T>) {
    s.receiver == Notifying && s' == s.(receiver := Receiving, missed := !Covered(s))
  }

  ghost predicate ReceiverEnds<T>(s: State<T>, s': State<T>) {
    s.receiver == Receiving && s.input == [] && s' == s.(receiver := Done)
  }

  // ---------- the emitting goroutine ----------

  // A session's timer fires once and stays spent until it is restarted; a ticker goes on.
  ghost predicate Fires<T>(kind: Kind, s: State<T>, s': State<T>) {
    && s.emitter == Selecting && s.timed
    && s' == s.(emitter := Wants(false), timed := kind == Tumbling)
  }

  ghost predicate Restarts<T>(s: State<T>, s': State<T>) {
    s.emitter == Restarting && s' == s.(emitter := Selecting, timed := true)
  }

  ghost predicate SeesDone<T>(s: State<T>, s': State<T>) {
    s.emitter == Selecting && s.receiver == Done && s' == s.(emitter := Wants(true))
  }

  ghost predicate EmitterLocks<T>(s: State<T>, s': State<T>) {
    && s.emitter.Wants? && s.mutex == Free
    && s' == s.(emitter := Swapping(s.emitter.last), mutex := HeldByEmitter)
  }

  ghost predicate Swaps<T>(s: State<T>, s': State<T>) {
    && s.emitter.Swapping?
    && s' == s.(emitter := if s.buffer == [] then Releasing(s.emitter.last) else Sending(s.buffer, s.emitter.last),
                buffer := [])
  }

  ghost predicate Sends<T>(s: State<T>, s': State<T>) {
    && s.emitter.Sending?
    && s' == s.(emitter := Releasing(s.emitter.last), out := s.out + [s.emitter.window])
  }

  ghost predicate EmitterUnlocks<T>(s: State<T>, s': State<T>) {
    && s.emitter.Releasing?
    && s' == s.(emitter := if s.emitter.last then Closing else Selecting, mutex := Free)
  }

  ghost predicate Closes<T>(s: State<T>, s': State<T>) {
    s.emitter == Closing && s' == s.(emitter := Closed)
  }

  ghost predicate ReceiverMoves<T>(kind: Kind, s: State<T>, s': State<T>) {
    || Receives(s, s') || ReceiverLocks(s, s') || Appends(s, s') || ReceiverUnlocks(kind, s, s')
    || ResetIsHeard(s, s') || ResetIsLost(s, s') || ReceiverEnds(s, s')
  }

  ghost predicate EmitterMoves<T>(kind: Kind, s: State<T>, s': State<T>) {
    || Fires(kind, s, s') || Restarts(s, s') || SeesDone(s, s') || EmitterLocks(s, s')
    || Swaps(s, s') || Sends(s, s') || EmitterUnlocks(s, s') || Closes(s, s')
  }

  ghost predicate Next<T>(kind: Kind, s: State<T>, s': State<T>) {
    ReceiverMoves(kind, s, s') || EmitterMoves(kind, s, s')
  }

  ghost predicate IsRun<T>(kind: Kind, input: seq<T>, run: seq<State<T>>) {
    && run != [] && Init(input, run[0])
    && forall i | 0 < i < |run| :: Next(kind, run[i - 1], run[i])
  }

  ghost function Last<T>(run: seq<State<T>>): State<T>
    requires run != []
  {
    run[|run| - 1]
  }

  // ---------- the invariant ----------

  ghost function InFlight<T>(s: State<T>): seq<T> {
    if s.emitter.Sending? then s.emitter.window else []
  }

  ghost function Hand<T>(s: State<T>): seq<T> {
    if s.receiver.WantsMutex? || s.receiver.Appending? then [s.receiver.x] else []
  }

  ghost predicate IsLast<T>(e: Emitter<T>) {
    (e.Wants? || e.Swapping? || e.Sending? || e.Releasing?) && e.last
  }

  ghost predicate ControlInv<T>(s: State<T>) {
    && (s.mutex == HeldByReceiver <==> s.receiver.Appending? || s.receiver == Unlocking)
    && (s.mutex == HeldByEmitter <==> s.emitter.Swapping? || s.emitter.Sending? || s.emitter.Releasing?)
    && (s.receiver == Done ==> s.input == [])
    && (IsLast(s.emitter) || s.emitter == Closing || s.emitter == Closed ==> s.receiver == Done)
  }

  ghost predicate ConservationInv<T>(input: seq<T>, s: State<T>) {
    && Concat(s.out) + InFlight(s) + s.buffer + Hand(s) + s.input == input
    && (forall w | w in s.out :: w != [])
    && (s.emitter.Sending? ==> s.emitter.window != [])
    && (s.emitter.Sending? || s.emitter.Releasing? || s.emitter == Closing || s.emitter == Closed ==> s.buffer == [])
  }

  // The newest element is in the buffer and its reset signal is still to come.
  ghost predicate SignalIsDue<T>(s: State<T>) {
    s.receiver == Unlocking || s.receiver == Notifying
  }

  // A buffered element is covered exactly if the last reset signal was not lost for good or
  // the input's end has led to a last dispatch.
  ghost predicate TimerInv<T>(kind: Kind, s: State<T>) {
    && (kind == Tumbling ==> s.timed && !s.missed)
    && (!SignalIsDue(s) && !s.missed && s.buffer != [] ==> Covered(s))
    && (!SignalIsDue(s) && s.missed ==>
          !s.timed && s.emitter != Restarting && (s.emitter.Wants? || s.emitter.Swapping? ==> s.emitter.last))
  }

  ghost predicate Inv<T>(kind: Kind, input: seq<T>, s: State<T>) {
    ControlInv(s) && ConservationInv(input, s) && TimerInv(kind, s)
  }

  lemma ReceiverKeepsControl<T>(kind: Kind, s: State<T>, s': State<T>)
    requires ControlInv(s) && TimerInv(kind, s) && ReceiverMoves(kind, s, s')
    ensures ControlInv(s') && TimerInv(kind, s')
  {
  }

  lemma EmitterKeepsControl<T>(kind: Kind, s: State<T>, s': State<T>)
    requires ControlInv(s) && TimerInv(kind, s) && EmitterMoves(kind, s, s')
    ensures ControlInv(s') && TimerInv(kind, s')
  {
  }

  lemma SendsConserve<T>(input: seq<T>, s: State<T>, s': State<T>)
    requires ConservationInv(input, s) && Sends(s, s')
    ensures ConservationInv(input, s')
  {
    ConcatSnoc(s.out, s.emitter.window);
    assert Concat(s'.out) + InFlight(s') == Concat(s.out) + InFlight(s);
  }

  lemma SwapsConserve<T>(input: seq<T>, s: State<T>, s': State<T>)
    requires ConservationInv(input, s) && Swaps(s, s')
    ensures ConservationInv(input, s')
  {
    assert Concat(s'.out) + InFlight(s') + s'.buffer == Concat(s.out) + InFlight(s) + s.buffer;
  }

  lemma AppendsConserve<T>(input: seq<T>, s: State<T>, s': State<T>)
    requires ControlInv(s) && ConservationInv(input, s) && Appends(s, s')
    ensures ConservationInv(input, s')
  {
    var sent := Concat(s.out) + InFlight(s);
    assert sent + s'.buffer + Hand(s') == sent + s.buffer + Hand(s);
  }

  lemma ReceivesConserve<T>(input: seq<T>, s: State<T>, s': State<T>)
    requires ConservationInv(input, s) && Receives(s, s')
    ensures ConservationInv(input, s')
  {
    var kept := Concat(s.out) + InFlight(s) + s.buffer;
    assert kept + Hand(s') + s'.input == kept + Hand(s) + s.input;
  }

  // The steps that move no element.
  ghost predicate MovesNothing<T>(s: State<T>, s': State<T>) {
    && s'.out == s.out && s'.buffer == s.buffer && s'.input == s.input
    && InFlight(s') == InFlight(s) && Hand(s') == Hand(s)
  }

  lemma OthersMoveNothing<T>(kind: Kind, s: State<T>, s': State<T>)
    requires ControlInv(s) && Next(kind, s, s')
    requires !Sends(s, s') && !Swaps(s, s') && !Appends(s, s') && !Receives(s, s')
    ensures MovesNothing(s, s') && (s'.emitter.Sending? ==> s.emitter.Sending?)
    ensures s'.emitter.Releasing? || s'.emitter == Closing || s'.emitter == Closed ==>
              s.emitter.Releasing? || s.emitter == Closing || s.emitter == Closed
  {
  }

  lemma NextKeepsInv<T>(kind: Kind, input: seq<T>, s: State<T>, s': State<T>)
    requires Inv(kind, input, s) && Next(kind, s, s')
    ensures Inv(kind, input, s')
  {
    if ReceiverMoves(kind, s, s') {
      ReceiverKeepsControl(kind, s, s');
    } else {
      EmitterKeepsControl(kind, s, s');
    }
    if Sends(s, s') {
      SendsConserve(input, s, s');
    } else if Swaps(s, s') {
      SwapsConserve(input, s, s');
    } else if Appends(s, s') {
      AppendsConserve(input, s, s');
    } else if Receives(s, s') {
      ReceivesConserve(input, s, s');
    } else {
      OthersMoveNothing(kind, s, s');
    }
  }

  lemma {:induction false} RunKeepsInv<T>(kind: Kind, input: seq<T>, run: seq<State<T>>)
    requires IsRun(kind, input, run)
    ensures forall i | 0 <= i < |run| :: Inv(kind, input, run[i])
  {
    for i := 1 to |run|
      invariant forall j | 0 <= j < i :: Inv(kind, input, run[j])
    {
      NextKeepsInv(kind, input, run[i - 1], run[i]);
    }
  }

  // ---------- the theorems ----------

  // Wherever the goroutines are, the windows sent, the window in flight, the buffer and the
  // element in hand are everything taken from the input, in order.  No window is empty.
  // Once the output is closed the windows cut the whole input into consecutive pieces.
  lemma WindowsConserveTheStream<T>(kind: Kind, input: seq<T>, run: seq<State<T>>)
    requires IsRun(kind, input, run)
    ensures var s := Last(run);
            && Concat(s.out) + InFlight(s) + s.buffer + Hand(s) + s.input == input
            && (forall w | w in s.out :: w != [])
            && (s.emitter == Closed ==> Concat(s.out) == input)
  {
    RunKeepsInv(kind, input, run);
    var s := Last(run);
    if s.emitter == Closed {
      assert Concat(s.out) + [] + [] + [] + [] == Concat(s.out);
    }
  }

  // The windows sent, and the one in flight.
  ghost function Dispatched<T>(s: State<T>): seq<seq<T>> {
    s.out + if s.emitter.Sending? then [s.emitter.window] else []
  }

  // Step j is a dispatch's swap of the buffer.
  ghost predicate IsSwap<T>(run: seq<State<T>>, j: nat)
    requires 0 < j < |run|
  {
    run[j - 1].emitter.Swapping? && !run[j].emitter.Swapping?
  }

  // The windows are, in order, the buffers as they were before the swaps among the first n
  // states, without the empty ones: idx gives the step of each.
  ghost predicate AreBuffers<T>(run: seq<State<T>>, n: nat, windows: seq<seq<T>>, idx: seq<nat>)
    requires n <= |run|
  {
    && |idx| == |windows|
    && (forall l, m | 0 <= l < m < |idx| :: idx[l] < idx[m])
    && (forall m | 0 <= m < |idx| ::
          0 < idx[m] < n && IsSwap(run, idx[m]) && windows[m] == run[idx[m] - 1].buffer != [])
    && (forall j: nat | 0 < j < n && IsSwap(run, j) && run[j - 1].buffer != [] :: j in idx)
  }

  lemma StepDispatches<T>(kind: Kind, s: State<T>, s': State<T>)
    requires Next(kind, s, s')
    ensures Dispatched(s') ==
            if s.emitter.Swapping? && !s'.emitter.Swapping? && s.buffer != [] then Dispatched(s) + [s.buffer]
            else Dispatched(s)
  {
    if ReceiverMoves(kind, s, s') {
      assert s'.out == s.out;
    } else {
      assert s.out + [] == s.out;
    }
  }

  lemma BuffersSnoc<T>(run: seq<State<T>>, n: nat, windows: seq<seq<T>>, idx: seq<nat>)
    requires 0 < n < |run| && AreBuffers(run, n, windows, idx) && IsSwap(run, n) && run[n - 1].buffer != []
    ensures AreBuffers(run, n + 1, windows + [run[n - 1].buffer], idx + [n])
  {
    var idx' := idx + [n];
    assert idx'[|idx|] == n;
    forall j: nat | 0 < j < n + 1 && IsSwap(run, j) && run[j - 1].buffer != [] ensures j in idx' {
      if j < n {
        assert j in idx;
      }
    }
  }

  lemma BuffersStay<T>(run: seq<State<T>>, n: nat, windows: seq<seq<T>>, idx: seq<nat>)
    requires 0 < n < |run| && AreBuffers(run, n, windows, idx) && !(IsSwap(run, n) && run[n - 1].buffer != [])
    ensures AreBuffers(run, n + 1, windows, idx)
  {
  }

  // In every run, at every moment, the windows sent and the one in flight are exactly the
  // buffers that the dispatches have found, each whole, in order, and without the empty ones.
  lemma {:induction false} WindowsAreBuffers<T>(kind: Kind, input: seq<T>, run: seq<State<T>>, n: nat)
    returns (idx: seq<nat>)
    requires IsRun(kind, input, run) && 0 < n <= |run|
    ensures AreBuffers(run, n, Dispatched(run[n - 1]), idx)
  {
    if n == 1 {
      idx := [];
    } else {
      idx := WindowsAreBuffers(kind, input, run, n - 1);
      StepDispatches(kind, run[n - 2], run[n - 1]);
      if IsSwap(run, n - 1) && run[n - 2].buffer != [] {
        BuffersSnoc(run, n - 1, Dispatched(run[n - 2]), idx);
        idx := idx + [n - 1];
      } else {
        BuffersStay(run, n - 1, Dispatched(run[n - 2]), idx);
      }
    }
  }

  // Until the output is closed one of the goroutines can move, given a consumer that reads on.
  lemma WindowsCanMove<T>(kind: Kind, input: seq<T>, run: seq<State<T>>)
    requires IsRun(kind, input, run) && Last(run).emitter != Closed
    ensures exists s' :: Next(kind, Last(run), s')
  {
    RunKeepsInv(kind, input, run);
    var s := Last(run);
    var e, r := s.emitter, s.receiver;
    var s' :=
      if e == Restarting then s.(emitter := Selecting, timed := true)
      else if e.Swapping? then
        s.(emitter := if s.buffer == [] then Releasing(e.last) else Sending(s.buffer, e.last), buffer := [])
      else if e.Sending? then s.(emitter := Releasing(e.last), out := s.out + [e.window])
      else if e.Releasing? then s.(emitter := if e.last then Closing else Selecting, mutex := Free)
      else if e == Closing then s.(emitter := Closed)
      else if r == Receiving && s.input == [] then s.(receiver := Done)
      else if r == Receiving then s.(receiver := WantsMutex(s.input[0]), input := s.input[1..])
      else if r.WantsMutex? then s.(receiver := Appending(r.x), mutex := HeldByReceiver)
      else if r.Appending? then s.(receiver := Unlocking, buffer := s.buffer + [r.x])
      else if r == Unlocking then s.(receiver := if kind == Session then Notifying else Receiving, mutex := Free)
      else if r == Notifying then s.(receiver := Receiving, missed := !Covered(s))
      else if e == Selecting then s.(emitter := Wants(true))
      else s.(emitter := Swapping(e.last), mutex := HeldByEmitter);
    assert Next(kind, s, s');
  }

  // In some step of the run the signal was lost with the timer spent and the swap past, and
  // no signal was sent after that.
  ghost predicate LastSignalMissed<T>(run: seq<State<T>>) {
    exists j :: 0 < j < |run| && MissedFrom(run, j)
  }

  ghost predicate MissedFrom<T>(run: seq<State<T>>, j: nat)
    requires 0 < j < |run|
  {
    && ResetIsLost(run[j - 1], run[j]) && !Covered(run[j - 1])
    && forall i | j < i < |run| :: !SendsSignal(run[i - 1], run[i])
  }

  // Received or lost.
  ghost predicate SendsSignal<T>(s: State<T>, s': State<T>) {
    s.receiver == Notifying && s'.receiver == Receiving
  }

  lemma LastSignalMissedGrows<T>(run: seq<State<T>>)
    requires |run| > 1
    ensures var n := |run| - 1;
            LastSignalMissed(run) <==>
            if SendsSignal(run[n - 1], run[n]) then ResetIsLost(run[n - 1], run[n]) && !Covered(run[n - 1])
            else LastSignalMissed(run[..n])
  {
    var n := |run| - 1;
    if SendsSignal(run[n - 1], run[n]) {
      if ResetIsLost(run[n - 1], run[n]) && !Covered(run[n - 1]) {
        assert MissedFrom(run, n);
      }
    } else {
      if j :| 0 < j < |run| && MissedFrom(run, j) {
        assert MissedFrom(run[..n], j);
      }
      if j :| 0 < j < n && MissedFrom(run[..n], j) {
        assert forall i | j < i < n :: !SendsSignal(run[..n][i - 1], run[..n][i]);
        assert MissedFrom(run, j);
      }
    }
  }

  lemma StepMissed<T>(kind: Kind, s: State<T>, s': State<T>)
    requires Next(kind, s, s')
    ensures s'.missed <==> if SendsSignal(s, s') then ResetIsLost(s, s') && !Covered(s) else s.missed
  {
  }

  lemma {:induction false} MissedIff<T>(kind: Kind, input: seq<T>, run: seq<State<T>>)
    requires IsRun(kind, input, run)
    ensures Last(run).missed <==> LastSignalMissed(run)
  {
    if |run| > 1 {
      var n := |run| - 1;
      MissedIff(kind, input, run[..n]);
      LastSignalMissedGrows(run);
      StepMissed(kind, run[n - 1], run[n]);
    }
  }

  // The exact condition under which a buffered session is forgotten.  Once the signal of
  // its newest element has been sent, the timer is running for it or its dispatch is under
  // way, unless that signal was lost with the timer spent and the swap past; then only the
  // end of the input brings a dispatch on.
  lemma SessionIsTimedIff<T>(kind: Kind, input: seq<T>, run: seq<State<T>>)
    requires IsRun(kind, input, run) && Last(run).buffer != [] && !SignalIsDue(Last(run))
    ensures Covered(Last(run)) <==> !LastSignalMissed(run) || IsLast(Last(run).emitter)
  {
    RunKeepsInv(kind, input, run);
    MissedIff(kind, input, run);
  }

  // A signal that finds the emitter waiting in its select can be heard, and an emitter that
  // has heard one does nothing before it has restarted the timer.
  lemma HeardSignalRestarts<T>(kind: Kind, s: State<T>)
    ensures s.receiver == Notifying && s.emitter == Selecting ==>
              exists s' :: Next(kind, s, s') && s' == s.(receiver := Receiving, emitter := Restarting, missed := false)
    ensures s.emitter == Restarting ==>
              && Next(kind, s, s.(emitter := Selecting, timed := true))
              && forall s' | Next(kind, s, s') && s'.emitter != Restarting ::
                   s' == s.(emitter := Selecting, timed := true)
  {
    assert s.receiver == Notifying && s.emitter == Selecting ==>
             Next(kind, s, s.(receiver := Receiving, emitter := Restarting, missed := false));
  }

  lemma Extend<T>(kind: Kind, input: seq<T>, run: seq<State<T>>, s': State<T>) returns (run': seq<State<T>>)
    requires IsRun(kind, input, run) && Next(kind, Last(run), s')
    ensures IsRun(kind, input, run') && Last(run') == s'
  {
    run' := run + [s'];
  }

  // A session whose signal is lost can be: here an element arrives while the spent timer's
  // dispatch is ending, and waits in the buffer with no timer running, until another
  // element arrives or the input closes.
  lemma LostResetLeavesSessionOpen() returns (run: seq<State<int>>)
    ensures IsRun(Session, [1], run)
    ensures var s := Last(run);
            s.buffer == [1] && !Covered(s) && s.emitter == Selecting && s.receiver == Receiving && s.mutex == Free
  {
    run := [State([1], Receiving, Selecting, Free, true, [], [], false)];
    run := Extend(Session, [1], run, Last(run).(emitter := Wants(false), timed := false));
    run := Extend(Session, [1], run, Last(run).(emitter := Swapping(false), mutex := HeldByEmitter));
    run := Extend(Session, [1], run, Last(run).(emitter := Releasing(false)));
    run := Extend(Session, [1], run, Last(run).(emitter := Selecting, mutex := Free));
    run := Extend(Session, [1], run, Last(run).(receiver := WantsMutex(1), input := []));
    run := Extend(Session, [1], run, Last(run).(receiver := Appending(1), mutex := HeldByReceiver));
    run := Extend(Session, [1], run, Last(run).(receiver := Unlocking, buffer := [1]));
    run := Extend(Session, [1], run, Last(run).(receiver := Notifying, mutex := Free));
    run := Extend(Session, [1], run, Last(run).(receiver := Receiving, missed := true));
  }
}
