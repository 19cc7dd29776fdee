/** What becomes of the elements in a throttler: where they are at every moment, which of
    them are dropped, that a waiting consumer is woken, and that all of them get through. */
module ThrottlingDelivery {
  import opened Sequences
  import opened Throttling

  ghost function Value<T>(): ((T, bool)) -> T {
    (p: (T, bool)) => p.0
  }

  ghost function WasKept<T>(): ((T, bool)) -> bool {
    (p: (T, bool)) => p.1
  }

  // The elements of the input that were not dropped: a subsequence of it.
  ghost function Kept<T>(taken: seq<(T, bool)>): seq<T> {
    Map(Filter(taken, WasKept()), Value())
  }

  ghost function InHand<T>(consumer: Consumer<T>): seq<T> {
    if consumer == Taking || consumer == Consumer.Finished then [] else [consumer.x]
  }

  ghost predicate DeliveryInv<T>(c: Config, input: seq<T>, s: State<T>) {
    && s.delivered + InHand(s.consumer) + s.buffer == Kept(s.taken)
    && Map(s.taken, Value()) + (if s.bufferer.Holding? then [s.bufferer.x] else []) + s.input == input
    && |s.buffer| <= c.bufferSize
    && (c.mode == Backpressure ==> forall p | p in s.taken :: p.1)
    && (s.bufferer == Bufferer.Finished ==> s.input == [])
    && (s.consumer == Consumer.Finished ==> s.buffer == [] && s.bufferer == Bufferer.Finished)
    && (s.resetter == Returned ==> s.consumer == Consumer.Finished)
  }

  lemma TakenSnoc<T>(taken: seq<(T, bool)>, x: T, kept: bool)
    ensures Kept(taken + [(x, kept)]) == Kept(taken) + if kept then [x] else []
    ensures Map(taken + [(x, kept)], Value()) == Map(taken, Value()) + [x]
  {
    FilterSnoc(taken, (x, kept), WasKept());
    MapSnoc(Filter(taken, WasKept()), (x, kept), Value());
    MapSnoc(taken, (x, kept), Value());
  }

  lemma BuffererKeepsDelivery<T>(c: Config, input: seq<T>, s: State<T>, s': State<T>)
    requires DeliveryInv(c, input, s)
    requires Receives(s, s') || Buffers(c, s, s') || Drops(c, s, s') || BuffererCloses(s, s')
    ensures DeliveryInv(c, input, s')
  {
    if Buffers(c, s, s') {
      TakenSnoc(s.taken, s.bufferer.x, true);
    } else if Drops(c, s, s') {
      TakenSnoc(s.taken, s.bufferer.x, false);
    } else if Receives(s, s') {
      var all := Map(s.taken, Value());
      assert all + [] + s.input == all + [s.input[0]] + s.input[1..];
    }
  }

  lemma ConsumerKeepsDelivery<T>(c: Config, input: seq<T>, s: State<T>, s': State<T>)
    requires DeliveryInv(c, input, s)
    requires ConsumerMoves(c, s, s')
    ensures DeliveryInv(c, input, s')
  {
    if Takes(s, s') {
      assert s.delivered + [] + s.buffer == s.delivered + [s.buffer[0]] + s.buffer[1..];
    } else if Sends(s, s') {
      assert (s.delivered + [s.consumer.x]) + [] == s.delivered + [s.consumer.x];
    }
  }

  lemma NextKeepsDelivery<T>(c: Config, input: seq<T>, s: State<T>, s': State<T>)
    requires DeliveryInv(c, input, s) && Next(c, s, s')
    ensures DeliveryInv(c, input, s')
  {
    if Receives(s, s') || Buffers(c, s, s') || Drops(c, s, s') || BuffererCloses(s, s') {
      BuffererKeepsDelivery(c, input, s, s');
    } else if Stores(s, s') || Signals(c, s, s') || ResetterReturns(s, s') {
    } else {
      ConsumerKeepsDelivery(c, input, s, s');
    }
  }

  lemma {:induction false} RunKeepsDelivery<T>(c: Config, input: seq<T>, run: seq<State<T>>)
    requires IsRun(c, input, run)
    ensures forall i | 0 <= i < |run| :: DeliveryInv(c, input, run[i])
  {
    for i := 1 to |run|
      invariant forall j | 0 <= j < i :: DeliveryInv(c, input, run[j])
    {
      NextKeepsDelivery(c, input, run[i - 1], run[i]);
    }
  }

  lemma AllKept<T>(taken: seq<(T, bool)>)
    requires forall p | p in taken :: p.1
    ensures Kept(taken) == Map(taken, Value())
  {
    if taken != [] {
      var n := |taken| - 1;
      assert taken == taken[..n] + [taken[n]];
      AllKept(taken[..n]);
      TakenSnoc(taken[..n], taken[n].0, true);
    }
  }

  // Under back pressure nothing is lost, doubled or reordered, wherever the elements are;
  // once the consumer has finished all of the input is delivered.
  lemma BackpressureDelivers<T>(c: Config, input: seq<T>, run: seq<State<T>>)
    requires IsRun(c, input, run) && c.mode == Backpressure
    ensures var s := Last(run);
            && s.delivered + InHand(s.consumer) + s.buffer
               + (if s.bufferer.Holding? then [s.bufferer.x] else []) + s.input == input
            && (s.consumer == Consumer.Finished ==> s.delivered == input)
  {
    RunKeepsDelivery(c, input, run);
    AllKept(Last(run).taken);
  }

  // In Discard mode what is delivered, held and buffered is, in order, the part of the
  // consumed input that was not dropped.
  lemma DiscardDelivers<T>(c: Config, input: seq<T>, run: seq<State<T>>)
    requires IsRun(c, input, run) && c.mode == Discard
    ensures var s := Last(run);
            && s.delivered + InHand(s.consumer) + s.buffer == Kept(s.taken)
            && Map(s.taken, Value()) + (if s.bufferer.Holding? then [s.bufferer.x] else []) + s.input == input
            && (s.consumer == Consumer.Finished ==> s.delivered == Kept(s.taken) && Map(s.taken, Value()) == input)
  {
    RunKeepsDelivery(c, input, run);
  }

  // The positions, among the elements consumed, of those that were kept.
  ghost function KeptAt<T>(taken: seq<(T, bool)>): set<nat> {
    set i: nat | i < |taken| && taken[i].1
  }

  lemma {:induction false} KeptCount<T>(taken: seq<(T, bool)>)
    ensures |Kept(taken)| == |KeptAt(taken)|
  {
    if taken != [] {
      var before, last := taken[..|taken| - 1], taken[|taken| - 1];
      assert taken == before + [last];
      KeptCount(before);
      TakenSnoc(before, last.0, last.1);
      KeptAtGrows(before, last);
    }
  }

  lemma KeptAtGrows<T>(taken: seq<(T, bool)>, last: (T, bool))
    ensures |KeptAt(taken + [last])| == |KeptAt(taken)| + Count(last.1)
  {
    assert KeptAt(taken + [last]) == KeptAt(taken) + if last.1 then {|taken|} else {};
  }

  // In Discard mode an element is kept exactly if fewer than bufferSize of the elements kept
  // before it are still outstanding; the buffer's own contents need not be known.
  lemma KeptIff<T>(c: Config, input: seq<T>, run: seq<State<T>>, j: nat)
    requires IsRun(c, input, run) && c.mode == Discard && 0 < j < |run|
    requires run[j].taken != run[j - 1].taken
    ensures |run[j].taken| == |run[j - 1].taken| + 1
    ensures var s := run[j - 1];
            run[j].taken[|s.taken|].1 <==>
            |KeptAt(s.taken)| - |s.delivered|
            - (if s.consumer == Taking || s.consumer == Consumer.Finished then 0 else 1) < c.bufferSize
  {
    var s, s' := run[j - 1], run[j];
    assert DeliveryInv(c, input, s) by {
      RunKeepsDelivery(c, input, run);
    }
    KeptCount(s.taken);
    assert |s.delivered + InHand(s.consumer) + s.buffer| == |Kept(s.taken)|;
    assert Next(c, s, s');
  }

  // ---------- a waiting consumer ----------

  // At the receive of the signal with element x, parked there or about to park.
  ghost predicate WaitsWith<T>(s: State<T>, x: T) {
    s.consumer == Parking(x) || s.consumer == Parked(x)
  }

  // A step of the reset loop that wakes a consumer parked with x.
  ghost predicate Wakes<T>(c: Config, s: State<T>, s': State<T>, x: T) {
    s.consumer == Parked(x) && Signals(c, s, s') && s'.consumer == Adding(x)
  }

  lemma StepKeepsWaiting<T>(c: Config, s: State<T>, s': State<T>, x: T)
    requires Next(c, s, s') && WaitsWith(s, x)
    ensures Wakes(c, s, s', x) || WaitsWith(s', x)
    ensures s.consumer == Parked(x) && Signals(c, s, s') ==> Wakes(c, s, s', x)
    ensures s.consumer == Parked(x) && !Signals(c, s, s') ==> s'.consumer == Parked(x)
  {
  }

  // In every run a consumer that waits for the quota goes on waiting, with its element and
  // with the reset loop running, until a signal wakes it.
  lemma {:induction false} WaitsUntilWoken<T>(c: Config, input: seq<T>, run: seq<State<T>>, i: nat, j: nat, x: T)
    requires IsRun(c, input, run) && i <= j < |run| && WaitsWith(run[i], x)
    requires forall m | i < m <= j :: !Wakes(c, run[m - 1], run[m], x)
    ensures WaitsWith(run[j], x) && run[j].resetter != Returned
  {
    if i < j {
      WaitsUntilWoken(c, input, run, i, j - 1, x);
      StepKeepsWaiting(c, run[j - 1], run[j], x);
    }
    assert DeliveryInv(c, input, run[j]) by {
      RunKeepsDelivery(c, input, run);
    }
  }

  lemma {:induction false} StaysParked<T>(c: Config, input: seq<T>, run: seq<State<T>>, i: nat, j: nat, x: T)
    requires IsRun(c, input, run) && i <= j < |run| && run[i].consumer == Parked(x)
    requires forall m | i < m <= j :: !Signals(c, run[m - 1], run[m])
    ensures run[j].consumer == Parked(x)
  {
    if i < j {
      StaysParked(c, input, run, i, j - 1, x);
      StepKeepsWaiting(c, run[j - 1], run[j], x);
    }
  }

  // Once it is parked, the first signal wakes it, and until then it stays parked.
  lemma FirstSignalWakes<T>(c: Config, input: seq<T>, run: seq<State<T>>, i: nat, j: nat, x: T)
    requires IsRun(c, input, run) && i < j < |run| && run[i].consumer == Parked(x)
    requires forall m | i < m < j :: !Signals(c, run[m - 1], run[m])
    ensures run[j - 1].consumer == Parked(x)
    ensures if Signals(c, run[j - 1], run[j]) then Wakes(c, run[j - 1], run[j], x) else run[j].consumer == Parked(x)
  {
    StaysParked(c, input, run, i, j - 1, x);
    StepKeepsWaiting(c, run[j - 1], run[j], x);
  }

  // It is never stranded: from any state in which it is parked, after at most one more
  // store, the reset loop can give that signal.
  lemma WaitingConsumerIsWoken<T>(c: Config, input: seq<T>, run: seq<State<T>>, x: T)
    requires IsRun(c, input, run) && Last(run).consumer == Parked(x)
    ensures var s := Last(run);
            exists m, s' :: (m == s || Stores(s, m)) && Wakes(c, m, s', x)
  {
    RunKeepsDelivery(c, input, run);
    var s := Last(run);
    var m := if s.resetter == Signalling then s else Stored(s);
    var s' := m.(resetter := Selecting, consumer := Adding(x),
                 late := if c.maxElements <= m.counter then WokenLate else m.late);
    assert Wakes(c, m, s', x);
  }

  // ---------- progress ----------

  ghost predicate BuffererMoves<T>(c: Config, s: State<T>, s': State<T>) {
    Receives(s, s') || Buffers(c, s, s') || Drops(c, s, s') || BuffererCloses(s, s')
  }

  // A step that brings elements on: any but the reset loop's stores, signals that nobody
  // hears, and its return.
  ghost predicate Advances<T>(c: Config, s: State<T>, s': State<T>) {
    BuffererMoves(c, s, s') || ConsumerMoves(c, s, s') || (s.consumer.Parked? && Signals(c, s, s'))
  }

  // Until the consumer has finished such a step can be taken, given a downstream that reads
  // on, at once or after one store.
  lemma ThrottlerCanMove<T>(c: Config, input: seq<T>, run: seq<State<T>>)
    requires IsRun(c, input, run) && Last(run).consumer != Consumer.Finished
    ensures var s := Last(run);
            exists m, s' :: (m == s || Stores(s, m)) && Advances(c, m, s')
  {
    var s := Last(run);
    if s.consumer.Parked? {
      WaitingConsumerIsWoken(c, input, run, s.consumer.x);
      var m, s' :| (m == s || Stores(s, m)) && Wakes(c, m, s', s.consumer.x);
      assert Advances(c, m, s');
    } else {
      var s' := UnparkedCanMove(c, s);
      assert Advances(c, s, s');
    }
  }

  lemma UnparkedCanMove<T>(c: Config, s: State<T>) returns (s': State<T>)
    requires s.consumer != Consumer.Finished && !s.consumer.Parked?
    ensures BuffererMoves(c, s, s') || ConsumerMoves(c, s, s')
  {
    match s.consumer {
      case Checking(x) =>
        s' := s.(consumer := if c.maxElements <= s.counter then Parking(x) else Adding(x));
      case Parking(x) =>
        s' := s.(consumer := Parked(x));
      case Adding(x) =>
        s' := s.(consumer := Sending(x), counter := s.counter + 1, admitted := s.admitted + [x],
                 late := if s.late == WokenLate then AddedLate else s.late);
      case Sending(x) =>
        s' := s.(consumer := Taking, delivered := s.delivered + [x]);
      case _ =>
        s' := TakingCanMove(c, s);
    }
  }

  lemma TakingCanMove<T>(c: Config, s: State<T>) returns (s': State<T>)
    requires s.consumer == Taking
    ensures BuffererMoves(c, s, s') || ConsumerMoves(c, s, s')
  {
    if s.buffer != [] {
      s' := s.(consumer := Checking(s.buffer[0]), buffer := s.buffer[1..]);
    } else if s.bufferer == Bufferer.Finished {
      s' := s.(consumer := Consumer.Finished);
    } else if s.bufferer.Holding? {
      s' := s.(bufferer := Receiving, buffer := [s.bufferer.x], taken := s.taken + [(s.bufferer.x, true)]);
      assert [] + [s.bufferer.x] == [s.bufferer.x];
    } else if s.input == [] {
      s' := s.(bufferer := Bufferer.Finished);
    } else {
      s' := s.(bufferer := Holding(s.input[0]), input := s.input[1..]);
    }
  }

  // The advancing steps that an element still has before it, and the two closes.
  ghost function Ahead<T>(consumer: Consumer<T>): nat {
    match consumer
    case Checking(_) => 6
    case Parking(_) => 5
    case Parked(_) => 4
    case Adding(_) => 3
    case Sending(_) => 2
    case Taking => 1
    case Finished => 0
  }

  ghost function Debt<T>(s: State<T>): nat {
    8 * |s.input| + 6 * |s.buffer| + Ahead(s.consumer)
    + if s.bufferer.Holding? then 8 else if s.bufferer.Receiving? then 1 else 0
  }

  lemma StepPaysDebt<T>(c: Config, s: State<T>, s': State<T>)
    requires Next(c, s, s')
    ensures Debt(s') <= Debt(s) - Count(Advances(c, s, s'))
  {
  }

  // How many of the run's steps advance.
  ghost function AdvancesIn<T>(c: Config, run: seq<State<T>>): nat {
    if |run| <= 1 then 0
    else AdvancesIn(c, run[..|run| - 1]) + Count(Advances(c, run[|run| - 2], run[|run| - 1]))
  }

  lemma {:induction false} RunPaysDebt<T>(c: Config, input: seq<T>, run: seq<State<T>>)
    requires IsRun(c, input, run)
    ensures AdvancesIn(c, run) + Debt(Last(run)) <= 8 * |input| + 2
  {
    if |run| > 1 {
      RunPaysDebt(c, input, run[..|run| - 1]);
      StepPaysDebt(c, run[|run| - 2], run[|run| - 1]);
    }
  }
}
