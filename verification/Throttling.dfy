/** The throttler: a loop that resets a quota counter and signals the reset, a goroutine
    that buffers the input, and a consumer that counts what it sends, sharing an atomic
    counter and three channels without a lock (flow/throttler.go:80-170).  Every load,
    store, add and channel operation is a step of its own. */
module Throttling {
  datatype Mode = Backpressure | Discard

  datatype Options = Options(maxElements: nat, bufferSize: nat, mode: Mode) {
    predicate Valid() {
      1 <= maxElements && 1 <= bufferSize
    }
  }

  // What the constructor accepts.
  type Config = o: Options | o.Valid() witness Options(1, 1, Backpressure)

  // The reset loop: selecting, between the store and the signal, or returned.
  datatype Resetter = Selecting | Signalling | Returned

  // The buffering goroutine: receiving, holding an element it sends next, or finished,
  // with the buffer channel closed.
  datatype Bufferer<T> = Receiving | Holding(x: T) | Finished

  // The consumer: receiving from the buffer; about to load the counter; past a load that
  // showed the quota exceeded, but not yet parked; parked on the signal; about to add one
  // to the counter; about to send downstream; or finished, with done closed.
  datatype Consumer<T> =
    | Taking
    | Checking(x: T)
    | Parking(x: T)
    | Parked(x: T)
    | Adding(x: T)
    | Sending(x: T)
    | Finished

  // History: whether this period's signal woke the consumer while the counter was at the
  // quota, and whether the consumer has added since.
  datatype LateWake = NoLateWake | WokenLate | AddedLate

  // History: a period between resets, with the elements admitted in it.
  datatype Period<T> = Period(admitted: seq<T>, late: LateWake)

  datatype State<T> = State(
    counter: nat,
    resetter: Resetter,
    bufferer: Bufferer<T>,
    consumer: Consumer<T>,
    input: seq<T>,            // what upstream will still send
    buffer: seq<T>,           // the buffered channel
    delivered: seq<T>,
    // history
    periods: seq<Period<T>>,  // every period that a reset ended
    admitted: seq<T>,         // the elements admitted since
    late: LateWake,
    taken: seq<(T, bool)>)    // the input consumed, and whether each element was kept

  ghost predicate Init<T>(input: seq<T>, s: State<T>) {
    s == State(0, Selecting, Receiving, Taking, input, [], [], [], [], NoLateWake, [])
  }

  // ---------- the reset loop ----------

  ghost predicate Stores<T>(s: State<T>, s': State<T>) {
    && s.resetter == Selecting
    && s' == Stored(s)
  }

  ghost function Stored<T>(s: State<T>): State<T> {
    s.(resetter := Signalling, counter := 0,
       periods := s.periods + [Period(s.admitted, s.late)], admitted := [], late := NoLateWake)
  }

  // A send that is taken only if the consumer is parked on the receive.
  ghost predicate Signals<T>(c: Config, s: State<T>, s': State<T>) {
    && s.resetter == Signalling
    && s' == if s.consumer.Parked?
             then s.(resetter := Selecting, consumer := Adding(s.consumer.x),
                     late := if c.maxElements <= s.counter then WokenLate else s.late)
             else s.(resetter := Selecting)
  }

  ghost predicate ResetterReturns<T>(s: State<T>, s': State<T>) {
    && s.resetter == Selecting && s.consumer == Consumer.Finished
    && s' == s.(resetter := Returned)
  }

  // ---------- the buffering goroutine ----------

  ghost predicate Receives<T>(s: State<T>, s': State<T>) {
    && s.bufferer == Receiving && s.input != []
    && s' == s.(bufferer := Holding(s.input[0]), input := s.input[1..])
  }

  ghost predicate Buffers<T>(c: Config, s: State<T>, s': State<T>) {
    && s.bufferer.Holding? && |s.buffer| < c.bufferSize
    && s' == s.(bufferer := Receiving, buffer := s.buffer + [s.bufferer.x], taken := s.taken + [(s.bufferer.x, true)])
  }

  // The default case of the send in Discard mode.
  ghost predicate Drops<T>(c: Config, s: State<T>, s': State<T>) {
    && c.mode == Discard && s.bufferer.Holding? && |s.buffer| == c.bufferSize
    && s' == s.(bufferer := Receiving, taken := s.taken + [(s.bufferer.x, false)])
  }

  ghost predicate BuffererCloses<T>(s: State<T>, s': State<T>) {
    && s.bufferer == Receiving && s.input == []
    && s' == s.(bufferer := Bufferer.Finished)
  }

  // ---------- the consumer ----------

  ghost predicate Takes<T>(s: State<T>, s': State<T>) {
    && s.consumer == Taking && s.buffer != []
    && s' == s.(consumer := Checking(s.buffer[0]), buffer := s.buffer[1..])
  }

  ghost predicate Loads<T>(c: Config, s: State<T>, s': State<T>) {
    && s.consumer.Checking?
    && s' == s.(consumer := if c.maxElements <= s.counter then Parking(s.consumer.x) else Adding(s.consumer.x))
  }

  ghost predicate Parks<T>(s: State<T>, s': State<T>) {
    s.consumer.Parking? && s' == s.(consumer := Parked(s.consumer.x))
  }

  ghost predicate Adds<T>(s: State<T>, s': State<T>) {
    && s.consumer.Adding?
    && s' == s.(consumer := Sending(s.consumer.x), counter := s.counter + 1,
                admitted := s.admitted + [s.consumer.x],
                late := if s.late == WokenLate then AddedLate else s.late)
  }

  ghost predicate Sends<T>(s: State<T>, s': State<T>) {
    && s.consumer.Sending?
    && s' == s.(consumer := Taking, delivered := s.delivered + [s.consumer.x])
  }

  ghost predicate ConsumerFinishes<T>(s: State<T>, s': State<T>) {
    && s.consumer == Taking && s.buffer == [] && s.bufferer == Bufferer.Finished
    && s' == s.(consumer := Consumer.Finished)
  }

  ghost predicate ConsumerMoves<T>(c: Config, s: State<T>, s': State<T>) {
    || Takes(s, s') || Loads(c, s, s') || Parks(s, s')
    || Adds(s, s') || Sends(s, s') || ConsumerFinishes(s, s')
  }

  ghost predicate Next<T>(c: Config, s: State<T>, s': State<T>) {
    || Stores(s, s') || Signals(c, s, s') || ResetterReturns(s, s')
    || Receives(s, s') || Buffers(c, s, s') || Drops(c, s, s') || BuffererCloses(s, s')
    || ConsumerMoves(c, s, s')
  }

  ghost predicate IsRun<T>(c: Config, input: seq<T>, run: seq<State<T>>) {
    && run != [] && Init(input, run[0])
    && forall i | 0 < i < |run| :: Next(c, run[i - 1], run[i])
  }

  ghost function Last<T>(run: seq<State<T>>): State<T>
    requires run != []
  {
    run[|run| - 1]
  }

  // ---------- the quota ----------

  // What the counter can reach in period n, the period before the first reset being 0.
  ghost function Quota(c: Config, n: nat): nat {
    if n == 0 then c.maxElements else c.maxElements + 1
  }

  ghost predicate PeriodIsRight<T>(c: Config, p: Period<T>, n: nat) {
    && |p.admitted| <= Quota(c, n)
    && (|p.admitted| > c.maxElements <==> p.late == AddedLate)
  }

  ghost predicate QuotaInv<T>(c: Config, s: State<T>) {
    && (s.late == WokenLate ==> s.consumer.Adding? && s.counter == c.maxElements)
    && (s.resetter == Signalling ==> |s.periods| > 0 && s.late == NoLateWake)
    && (s.late != NoLateWake ==> |s.periods| > 0)
    && (s.consumer.Adding? && s.late != WokenLate ==> s.counter < c.maxElements)
    && s.counter == |s.admitted|
    && PeriodIsRight(c, Period(s.admitted, s.late), |s.periods|)
    && (forall i | 0 <= i < |s.periods| :: PeriodIsRight(c, s.periods[i], i))
    && s.delivered + BeingSent(s) == AllAdmitted(s.periods) + s.admitted
  }

  ghost function BeingSent<T>(s: State<T>): seq<T> {
    if s.consumer.Sending? then [s.consumer.x] else []
  }

  ghost function AllAdmitted<T>(periods: seq<Period<T>>): seq<T> {
    if periods == [] then [] else AllAdmitted(periods[..|periods| - 1]) + periods[|periods| - 1].admitted
  }

  lemma StoresKeepsQuota<T>(c: Config, s: State<T>, s': State<T>)
    requires QuotaInv(c, s) && Stores(s, s')
    ensures QuotaInv(c, s')
  {
    assert s'.periods[..|s.periods|] == s.periods;
    assert AllAdmitted(s'.periods) + [] == AllAdmitted(s.periods) + s.admitted;
  }

  lemma SignalsKeepsQuota<T>(c: Config, s: State<T>, s': State<T>)
    requires QuotaInv(c, s) && Signals(c, s, s')
    ensures QuotaInv(c, s')
  {
  }

  lemma ConsumerKeepsQuota<T>(c: Config, s: State<T>, s': State<T>)
    requires QuotaInv(c, s)
    requires ConsumerMoves(c, s, s')
    ensures QuotaInv(c, s')
  {
    if Adds(s, s') {
      assert s.delivered + [] == s.delivered;
      assert AllAdmitted(s.periods) + s.admitted + [s.consumer.x] == AllAdmitted(s.periods) + s'.admitted;
    } else if Sends(s, s') {
      assert s'.delivered + [] == s.delivered + [s.consumer.x];
    }
  }

  lemma NextKeepsQuota<T>(c: Config, s: State<T>, s': State<T>)
    requires QuotaInv(c, s) && Next(c, s, s')
    ensures QuotaInv(c, s')
  {
    if Stores(s, s') {
      StoresKeepsQuota(c, s, s');
    } else if Signals(c, s, s') {
      SignalsKeepsQuota(c, s, s');
    } else if ConsumerMoves(c, s, s') {
      ConsumerKeepsQuota(c, s, s');
    } else {
      assert s'.counter == s.counter && s'.periods == s.periods && s'.admitted == s.admitted && s'.late == s.late;
    }
  }

  lemma {:induction false} RunKeepsQuota<T>(c: Config, input: seq<T>, run: seq<State<T>>)
    requires IsRun(c, input, run)
    ensures forall i | 0 <= i < |run| :: QuotaInv(c, run[i])
  {
    for i := 1 to |run|
      invariant forall j | 0 <= j < i :: QuotaInv(c, run[j])
    {
      NextKeepsQuota(c, run[i - 1], run[i]);
    }
  }

  lemma {:induction false} AdmittedBound<T>(c: Config, periods: seq<Period<T>>)
    requires forall i | 0 <= i < |periods| :: PeriodIsRight(c, periods[i], i)
    ensures |AllAdmitted(periods)| + Quota(c, |periods|) <= c.maxElements + |periods| * (c.maxElements + 1)
  {
    if periods != [] {
      var n := |periods| - 1;
      AdmittedBound(c, periods[..n]);
      assert periods[n] == periods[..][n];
      assert (n + 1) * (c.maxElements + 1) == n * (c.maxElements + 1) + (c.maxElements + 1);
    }
  }

  // The quota under every interleaving.  The periods cut what is delivered, with the element
  // being sent, into consecutive pieces, and the counter is the number of elements admitted
  // since the last reset.  That number stays within the quota before the first reset and
  // passes it by at most one afterwards, so r resets let at most
  // maxElements + r * (maxElements + 1) elements through.
  lemma QuotaHolds<T>(c: Config, input: seq<T>, run: seq<State<T>>)
    requires IsRun(c, input, run)
    ensures var s := Last(run);
            && s.delivered + BeingSent(s) == AllAdmitted(s.periods) + s.admitted
            && s.counter == |s.admitted| <= c.maxElements + (if s.periods == [] then 0 else 1)
            && (forall i | 0 <= i < |s.periods| :: |s.periods[i].admitted| <= c.maxElements + if i == 0 then 0 else 1)
            && |s.delivered| <= c.maxElements + |s.periods| * (c.maxElements + 1)
  {
    RunKeepsQuota(c, input, run);
    var s := Last(run);
    AdmittedBound(c, s.periods);
    assert |s.delivered + BeingSent(s)| == |AllAdmitted(s.periods)| + |s.admitted|;
    forall i | 0 <= i < |s.periods| ensures |s.periods[i].admitted| <= c.maxElements + if i == 0 then 0 else 1 {
      assert PeriodIsRight(c, s.periods[i], i);
    }
  }

  // A signal that comes when the quota its reset granted is used up already.
  ghost predicate SignalsLate<T>(c: Config, s: State<T>, s': State<T>) {
    Signals(c, s, s') && s.consumer.Parked? && c.maxElements <= s.counter
  }

  // What the history says of period n.
  ghost function LateIn<T>(s: State<T>, n: nat): LateWake {
    if n < |s.periods| then s.periods[n].late else if n == |s.periods| then s.late else NoLateWake
  }

  ghost function AdmittedIn<T>(s: State<T>, n: nat): seq<T> {
    if n < |s.periods| then s.periods[n].admitted else if n == |s.periods| then s.admitted else []
  }

  // In period n a signal has come late.
  ghost predicate SignalledLateIn<T>(c: Config, run: seq<State<T>>, n: nat) {
    exists j :: 0 < j < |run| && SignalsLate(c, run[j - 1], run[j]) && |run[j].periods| == n
  }

  // After that, in the same period, the consumer has counted an element.
  ghost predicate CountedLateIn<T>(c: Config, run: seq<State<T>>, n: nat) {
    exists m :: 0 < m < |run| && CountsLate(c, run, n, m)
  }

  ghost predicate CountsLate<T>(c: Config, run: seq<State<T>>, n: nat, m: nat)
    requires 0 < m < |run|
  {
    Adds(run[m - 1], run[m]) && |run[m].periods| == n && SignalledLateIn(c, run[..m], n)
  }

  lemma SignalledLateGrows<T>(c: Config, run: seq<State<T>>, n: nat)
    requires |run| > 1
    ensures var r := |run| - 1;
            SignalledLateIn(c, run, n) <==>
            SignalledLateIn(c, run[..r], n) || (SignalsLate(c, run[r - 1], run[r]) && |run[r].periods| == n)
  {
    var init := run[..|run| - 1];
    if j :| 0 < j < |init| && SignalsLate(c, init[j - 1], init[j]) && |init[j].periods| == n {
      assert SignalsLate(c, run[j - 1], run[j]);
    }
    if j :| 0 < j < |run| - 1 && SignalsLate(c, run[j - 1], run[j]) && |run[j].periods| == n {
      assert SignalsLate(c, init[j - 1], init[j]);
    }
  }

  lemma CountedLateGrows<T>(c: Config, run: seq<State<T>>, n: nat)
    requires |run| > 1
    ensures CountedLateIn(c, run, n) <==> CountedLateIn(c, run[..|run| - 1], n) || CountsLate(c, run, n, |run| - 1)
  {
    var init := run[..|run| - 1];
    if m :| 0 < m < |init| && CountsLate(c, init, n, m) {
      assert init[..m] == run[..m];
      assert CountsLate(c, run, n, m);
    }
    if m :| 0 < m < |run| - 1 && CountsLate(c, run, n, m) {
      assert init[..m] == run[..m];
      assert CountsLate(c, init, n, m);
    }
  }

  lemma StepLate<T>(c: Config, s: State<T>, s': State<T>, n: nat)
    requires QuotaInv(c, s) && Next(c, s, s')
    ensures LateIn(s', n) != NoLateWake <==>
            LateIn(s, n) != NoLateWake || (SignalsLate(c, s, s') && |s'.periods| == n)
    ensures LateIn(s', n) == AddedLate <==>
            LateIn(s, n) == AddedLate || (Adds(s, s') && |s'.periods| == n && LateIn(s, n) != NoLateWake)
  {
  }

  lemma {:induction false} LateIffSteps<T>(c: Config, input: seq<T>, run: seq<State<T>>, n: nat)
    requires IsRun(c, input, run)
    ensures LateIn(Last(run), n) != NoLateWake <==> SignalledLateIn(c, run, n)
    ensures LateIn(Last(run), n) == AddedLate <==> CountedLateIn(c, run, n)
  {
    if |run| > 1 {
      var r := |run| - 1;
      LateIffSteps(c, input, run[..r], n);
      RunKeepsQuota(c, input, run);
      StepLate(c, run[r - 1], run[r], n);
      SignalledLateGrows(c, run, n);
      CountedLateGrows(c, run, n);
    }
  }

  // A period admits more than the maximum exactly if in it a late signal woke the consumer
  // and the consumer then counted its element.
  lemma OverQuotaIff<T>(c: Config, input: seq<T>, run: seq<State<T>>, n: nat)
    requires IsRun(c, input, run) && n <= |Last(run).periods|
    ensures |AdmittedIn(Last(run), n)| > c.maxElements <==> CountedLateIn(c, run, n)
  {
    RunKeepsQuota(c, input, run);
    LateIffSteps(c, input, run, n);
    var s := Last(run);
    assert PeriodIsRight(c, Period(AdmittedIn(s, n), LateIn(s, n)), n) by {
      if n < |s.periods| {
        assert PeriodIsRight(c, s.periods[n], n);
      }
    }
  }

  ghost function Count(b: bool): nat {
    if b then 1 else 0
  }

  lemma Extend<T>(c: Config, input: seq<T>, run: seq<State<T>>, s': State<T>) returns (run': seq<State<T>>)
    requires IsRun(c, input, run) && Next(c, Last(run), s')
    ensures IsRun(c, input, run') && Last(run') == s' && run' == run + [s']
  {
    run' := run + [s'];
  }

  // In every run the consumer's check lets an element through exactly if fewer than the
  // maximum have been admitted since the last reset, and otherwise sends it to wait.
  lemma CheckIs<T>(c: Config, input: seq<T>, run: seq<State<T>>, j: nat, x: T)
    requires IsRun(c, input, run) && 0 < j < |run|
    requires run[j - 1].consumer == Checking(x) && run[j].consumer != Checking(x)
    ensures run[j].consumer == if |run[j - 1].admitted| < c.maxElements then Adding(x) else Parking(x)
  {
    RunKeepsQuota(c, input, run);
    assert Next(c, run[j - 1], run[j]);
  }
}
