/** The throttler as an object: each goroutine's code cut at the points where another
    goroutine can run, over the fields they share.  Every method carries out one step of
    the protocol and keeps what every run of it keeps. */
module Throttlers {
  import opened Sequences
  import opened Throttling
  import opened ThrottlingDelivery

  class Throttler<T> {
    const config: Config
    var counter: nat
    var out: seq<T>               // the buffered channel
    var resetter: Resetter
    var bufferer: Bufferer<T>
    var consumer: Consumer<T>
    var input: seq<T>
    var delivered: seq<T>
    ghost const source: seq<T>
    ghost var periods: seq<Period<T>>
    ghost var admitted: seq<T>
    ghost var late: LateWake
    ghost var taken: seq<(T, bool)>

    ghost function View(): State<T>
      reads this
    {
      State(counter, resetter, bufferer, consumer, input, out, delivered, periods, admitted, late, taken)
    }

    ghost predicate Valid()
      reads this
    {
      QuotaInv(config, View()) && DeliveryInv(config, source, View())
    }

    constructor (config: Config, input: seq<T>)
      ensures this.config == config && source == input && Init(input, View()) && Valid()
    {
      this.config := config;
      this.input, source := input, input;
      counter, out, delivered := 0, [], [];
      resetter, bufferer, consumer := Selecting, Receiving, Taking;
      periods, admitted, late, taken := [], [], NoLateWake, [];
      new;
      assert Kept<T>([]) == [] && Map<(T, bool), T>([], Value()) == [];
      assert View().delivered + [] + View().buffer == [];
      assert [] + [] + input == input;
    }

    method QuotaExceeded() returns (b: bool)
      ensures b <==> config.maxElements <= counter
    {
      b := counter >= config.maxElements;
    }

    // The reset loop on a tick, up to the signal.
    method ResetCounter()
      requires Valid() && resetter == Selecting
      modifies this
      ensures Valid() && Stores(old(View()), View())
    {
      ghost var s := View();
      periods := periods + [Period(admitted, late)];
      counter, admitted, late := 0, [], NoLateWake;
      resetter := Signalling;
      NextKeepsQuota(config, s, View());
      NextKeepsDelivery(config, source, s, View());
    }

    // The signal, which a consumer takes only if it is parked.
    method NotifyQuotaReset()
      requires Valid() && resetter == Signalling
      modifies this
      ensures Valid() && Signals(config, old(View()), View())
    {
      ghost var s := View();
      resetter := Selecting;
      match consumer {
        case Parked(x) =>
          consumer := Adding(x);
          if config.maxElements <= counter {
            late := WokenLate;
          }
        case _ =>
      }
      NextKeepsQuota(config, s, View());
      NextKeepsDelivery(config, source, s, View());
    }

    // The buffering goroutine receives its next element, or closes its channel.
    method BufferReceive()
      requires Valid() && bufferer == Receiving
      modifies this
      ensures Valid() && if old(input) == [] then BuffererCloses(old(View()), View()) else Receives(old(View()), View())
    {
      ghost var s := View();
      if |input| == 0 {
        bufferer := Bufferer.Finished;
      } else {
        bufferer := Holding(input[0]);
        input := input[1..];
      }
      NextKeepsQuota(config, s, View());
      NextKeepsDelivery(config, source, s, View());
    }

    // The send to the buffered channel.  With the channel full, Discard takes the default
    // case and Backpressure stays blocked.
    method BufferSend()
      requires Valid() && bufferer.Holding?
      modifies this
      ensures Valid()
      ensures if |old(out)| < config.bufferSize then Buffers(config, old(View()), View())
              else if config.mode == Discard then Drops(config, old(View()), View())
              else View() == old(View())
    {
      ghost var s := View();
      if |out| < config.bufferSize {
        out := out + [bufferer.x];
        taken := taken + [(bufferer.x, true)];
        bufferer := Receiving;
      } else if config.mode == Discard {
        taken := taken + [(bufferer.x, false)];
        bufferer := Receiving;
      } else {
        return;
      }
      NextKeepsQuota(config, s, View());
      NextKeepsDelivery(config, source, s, View());
    }

    // The consumer receives from the buffered channel, finds it closed and drained, or
    // stays blocked.
    method Take()
      requires Valid() && consumer == Taking
      modifies this
      ensures Valid()
      ensures if old(out) != [] then Takes(old(View()), View())
              else if old(bufferer) == Bufferer.Finished then ConsumerFinishes(old(View()), View())
              else View() == old(View())
    {
      ghost var s := View();
      if |out| > 0 {
        consumer := Checking(out[0]);
        out := out[1..];
      } else if bufferer.Finished? {
        consumer := Consumer.Finished;
      } else {
        return;
      }
      NextKeepsQuota(config, s, View());
      NextKeepsDelivery(config, source, s, View());
    }

    method CheckQuota()
      requires Valid() && consumer.Checking?
      modifies this
      ensures Valid() && Loads(config, old(View()), View())
      ensures var x := old(consumer).x; consumer == if config.maxElements <= old(counter) then Parking(x) else Adding(x)
    {
      ghost var s := View();
      var exceeded := QuotaExceeded();
      consumer := if exceeded then Parking(consumer.x) else Adding(consumer.x);
      NextKeepsQuota(config, s, View());
      NextKeepsDelivery(config, source, s, View());
    }

    method Park()
      requires Valid() && consumer.Parking?
      modifies this
      ensures Valid() && Parks(old(View()), View())
    {
      ghost var s := View();
      consumer := Parked(consumer.x);
      NextKeepsQuota(config, s, View());
      NextKeepsDelivery(config, source, s, View());
    }

    method Count()
      requires Valid() && consumer.Adding?
      modifies this
      ensures Valid() && Adds(old(View()), View())
    {
      ghost var s := View();
      counter := counter + 1;
      admitted := admitted + [consumer.x];
      if late == WokenLate {
        late := AddedLate;
      }
      consumer := Sending(consumer.x);
      NextKeepsQuota(config, s, View());
      NextKeepsDelivery(config, source, s, View());
    }

    method Send()
      requires Valid() && consumer.Sending?
      modifies this
      ensures Valid() && Sends(old(View()), View())
    {
      ghost var s := View();
      delivered := delivered + [consumer.x];
      consumer := Taking;
      NextKeepsQuota(config, s, View());
      NextKeepsDelivery(config, source, s, View());
    }

    // The reset loop finds done closed.
    method ReturnFromLoop()
      requires Valid() && resetter == Selecting && consumer == Consumer.Finished
      modifies this
      ensures Valid() && ResetterReturns(old(View()), View())
    {
      ghost var s := View();
      resetter := Returned;
      NextKeepsQuota(config, s, View());
      NextKeepsDelivery(config, source, s, View());
    }

    // The goroutine whose turn it is takes its next step, unless it is blocked or has ended.
    method TakeTurn(turn: Turn)
      requires Valid()
      modifies this
      ensures Valid() && IsTurn(config, turn, old(View()), View())
    {
      match turn {
        case ResetLoop(seesDone) =>
          if resetter == Signalling {
            NotifyQuotaReset();
          } else if resetter == Selecting {
            if seesDone && consumer.Finished? { ReturnFromLoop(); } else { ResetCounter(); }
          }
        case Buffering =>
          if bufferer.Receiving? { BufferReceive(); } else if bufferer.Holding? { BufferSend(); }
        case Consuming =>
          match consumer {
            case Taking => Take();
            case Checking(_) => CheckQuota();
            case Parking(_) => Park();
            case Adding(_) => Count();
            case Sending(_) => Send();
            case _ =>
          }
      }
    }

    // Any schedule.  The trace is what the schedule makes of the first state, turn by turn;
    // it determines the last state.
    method Run(schedule: seq<Turn>) returns (ghost trace: seq<State<T>>)
      requires Valid()
      modifies this
      ensures Valid()
      ensures IsTrace(config, schedule, trace) && trace[0] == old(View()) && trace[|schedule|] == View()
      ensures |delivered| <= config.maxElements + |periods| * (config.maxElements + 1)
      ensures consumer == Consumer.Finished && config.mode == Backpressure ==> delivered == source
    {
      trace := [View()];
      for i := 0 to |schedule|
        invariant Valid()
        invariant IsTrace(config, schedule[..i], trace) && trace[0] == old(View()) && trace[i] == View()
      {
        TakeTurn(schedule[i]);
        TraceGrows(config, schedule[..i], trace, schedule[i], View());
        trace := trace + [View()];
        assert schedule[..i + 1] == schedule[..i] + [schedule[i]];
      }
      assert schedule[..|schedule|] == schedule;
      AllIsDelivered(config, source, View());
    }
  }

  // Whose turn it is; the reset loop's select takes the tick or, if it sees it, done.
  datatype Turn = ResetLoop(seesDone: bool) | Buffering | Consuming

  // The step that a turn is, if its goroutine can take one, and nothing otherwise.  Every
  // case but the blocked ones is a step of the protocol.
  ghost predicate IsTurn<T>(c: Config, turn: Turn, s: State<T>, s': State<T>) {
    match turn
    case ResetLoop(seesDone) =>
      if s.resetter == Signalling then Signals(c, s, s')
      else if s.resetter == Returned then s' == s
      else if seesDone && s.consumer == Consumer.Finished then ResetterReturns(s, s')
      else Stores(s, s')
    case Buffering =>
      if s.bufferer == Bufferer.Finished then s' == s
      else if s.bufferer == Receiving then (if s.input == [] then BuffererCloses(s, s') else Receives(s, s'))
      else if |s.buffer| < c.bufferSize then Buffers(c, s, s')
      else if c.mode == Discard then Drops(c, s, s')
      else s' == s
    case Consuming =>
      if s.consumer == Consumer.Finished || s.consumer.Parked? then s' == s
      else if s.consumer != Taking then ConsumerMoves(c, s, s')
      else if s.buffer != [] then Takes(s, s')
      else if s.bufferer == Bufferer.Finished then ConsumerFinishes(s, s')
      else s' == s
  }

  ghost predicate IsTrace<T>(c: Config, schedule: seq<Turn>, trace: seq<State<T>>) {
    && |trace| == |schedule| + 1
    && forall i | 0 <= i < |schedule| :: IsTurn(c, schedule[i], trace[i], trace[i + 1])
  }

  lemma TraceGrows<T>(c: Config, schedule: seq<Turn>, trace: seq<State<T>>, turn: Turn, s': State<T>)
    requires IsTrace(c, schedule, trace) && IsTurn(c, turn, trace[|schedule|], s')
    ensures IsTrace(c, schedule + [turn], trace + [s'])
  {
  }

  lemma AllIsDelivered<T>(c: Config, source: seq<T>, s: State<T>)
    requires QuotaInv(c, s) && DeliveryInv(c, source, s)
    ensures |s.delivered| <= c.maxElements + |s.periods| * (c.maxElements + 1)
    ensures s.consumer == Consumer.Finished && c.mode == Backpressure ==> s.delivered == source
  {
    AdmittedBound(c, s.periods);
    assert |s.delivered + BeingSent(s)| == |AllAdmitted(s.periods)| + |s.admitted|;
    if s.consumer.Finished? && c.mode == Backpressure {
      AllKept(s.taken);
      assert s.delivered + [] + [] == s.delivered;
      assert Map(s.taken, Value()) + [] + [] == Map(s.taken, Value());
    }
  }

  // A turn is a step of the protocol or nothing, and the schedule leaves nothing open.
  lemma TurnsAreDetermined<T>(c: Config, turn: Turn, s: State<T>, s': State<T>, s'': State<T>)
    requires IsTurn(c, turn, s, s') && IsTurn(c, turn, s, s'')
    ensures s'' == s' && (s' == s || Next(c, s, s'))
  {
  }

  // The turn's goroutine waits for another one, or has ended.
  ghost predicate IsBlocked<T>(c: Config, turn: Turn, s: State<T>) {
    match turn
    case ResetLoop(_) => s.resetter == Returned
    case Buffering =>
      || s.bufferer == Bufferer.Finished
      || (c.mode == Backpressure && s.bufferer.Holding? && |s.buffer| >= c.bufferSize)
    case Consuming =>
      || s.consumer == Consumer.Finished || s.consumer.Parked?
      || (s.consumer == Taking && s.buffer == [] && s.bufferer != Bufferer.Finished)
  }

  // Only the turn of a goroutine that is blocked does nothing.
  lemma IdleIffBlocked<T>(c: Config, turn: Turn, s: State<T>, s': State<T>)
    requires IsTurn(c, turn, s, s')
    ensures s' == s <==> IsBlocked(c, turn, s)
    ensures s' != s ==> Next(c, s, s')
  {
  }

  // The states of a trace, without the turns that were blocked, are a run: the theorems
  // about runs are theorems about the object.
  lemma {:induction false} TraceIsRun<T>(c: Config, source: seq<T>, schedule: seq<Turn>, trace: seq<State<T>>)
    returns (run: seq<State<T>>)
    requires IsTrace(c, schedule, trace) && Init(source, trace[0])
    ensures IsRun(c, source, run) && Last(run) == trace[|schedule|]
  {
    if schedule == [] {
      run := [trace[0]];
    } else {
      var n := |schedule| - 1;
      run := TraceIsRun(c, source, schedule[..n], trace[..n + 1]);
      TurnsAreDetermined(c, schedule[n], trace[n], trace[n + 1], trace[n + 1]);
      if trace[n + 1] != trace[n] {
        run := Extend(c, source, run, trace[n + 1]);
      }
    }
  }
}
