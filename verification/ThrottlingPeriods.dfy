/** What a throttler sends in a period between two resets, and what it would send if a reset
    and its signal were one step. */
module ThrottlingPeriods {
  import opened Throttling

  // The consumer counts before its blocking send, so an element counted in one period can
  // be sent in the next.
  ghost predicate StartsPeriod<T>(run: seq<State<T>>, i: nat)
    requires i < |run|
  {
    i == 0 || Stores(run[i - 1], run[i])
  }

  ghost function SentBetween<T>(s: State<T>, s': State<T>): int {
    |s'.delivered| - |s.delivered|
  }

  lemma PeriodSendsWhatItAdmits<T>(c: Config, s: State<T>, s': State<T>)
    requires QuotaInv(c, s) && QuotaInv(c, s') && s.admitted == [] && s'.periods == s.periods
    ensures SentBetween(s, s') == |s'.admitted| + Count(s.consumer.Sending?) - Count(s'.consumer.Sending?)
  {
    assert |s.delivered + BeingSent(s)| == |AllAdmitted(s.periods)|;
    assert |s'.delivered + BeingSent(s')| == |AllAdmitted(s.periods)| + |s'.admitted|;
  }

  // What has been sent at j in the period that starts at i.  It passes the maximum by two at
  // most, and never in the first period.
  lemma PeriodSends<T>(c: Config, input: seq<T>, run: seq<State<T>>, i: nat, j: nat)
    requires IsRun(c, input, run) && i <= j < |run| && StartsPeriod(run, i) && run[j].periods == run[i].periods
    ensures SentBetween(run[i], run[j]) ==
            |run[j].admitted| + Count(run[i].consumer.Sending?) - Count(run[j].consumer.Sending?)
    ensures SentBetween(run[i], run[j]) <= c.maxElements + 2 * Count(i > 0)
  {
    RunKeepsQuota(c, input, run);
    PeriodSendsWhatItAdmits(c, run[i], run[j]);
  }

  // The documented maximum of elements produced per period, exactly.  It is exceeded if and
  // only if either a late signal woke the consumer and its element was counted, unless no
  // send was under way at the reset and that element is still being sent; or the period's
  // quota is used up, a send was under way at the reset, and none is now.
  lemma SendsExceedIff<T>(c: Config, input: seq<T>, run: seq<State<T>>, i: nat, j: nat)
    requires IsRun(c, input, run) && i <= j < |run| && StartsPeriod(run, i) && run[j].periods == run[i].periods
    ensures var carried, held := run[i].consumer.Sending?, run[j].consumer.Sending?;
            SentBetween(run[i], run[j]) > c.maxElements <==>
              || (CountedLateIn(c, run[..j + 1], |run[j].periods|) && (carried || !held))
              || (run[j].counter == c.maxElements && carried && !held)
  {
    PeriodSends(c, input, run, i, j);
    RunKeepsQuota(c, input, run);
    assert Last(run[..j + 1]) == run[j];
    OverQuotaIff(c, input, run[..j + 1], |run[j].periods|);
  }

  // ---------- store and signal as one step ----------

  ghost predicate Resets<T>(c: Config, s: State<T>, s': State<T>) {
    && s.resetter == Selecting
    && var stored := Stored(s);
       Stores(s, stored) && Signals(c, stored, s')
  }

  ghost predicate NextAtomic<T>(c: Config, s: State<T>, s': State<T>) {
    Resets(c, s, s') || (Next(c, s, s') && !Stores(s, s') && !Signals(c, s, s'))
  }

  ghost predicate IsAtomicRun<T>(c: Config, input: seq<T>, run: seq<State<T>>) {
    && run != [] && Init(input, run[0])
    && forall i | 0 < i < |run| :: NextAtomic(c, run[i - 1], run[i])
  }

  // No period so far exceeds the maximum, nor will this one with the element about to be
  // counted.
  ghost predicate KeepsMaximum<T>(c: Config, s: State<T>) {
    && s.resetter != Signalling
    && s.counter == |s.admitted|
    && s.counter + (if s.consumer.Adding? then 1 else 0) <= c.maxElements
    && forall i | 0 <= i < |s.periods| :: |s.periods[i].admitted| <= c.maxElements
  }

  lemma AtomicStepKeepsMaximum<T>(c: Config, s: State<T>, s': State<T>)
    requires KeepsMaximum(c, s) && NextAtomic(c, s, s')
    ensures KeepsMaximum(c, s')
  {
  }

  // If nothing could happen between the store and the signal, no period would admit more
  // than the maximum.
  lemma {:induction false} AtomicResetKeepsMaximum<T>(c: Config, input: seq<T>, run: seq<State<T>>)
    requires IsAtomicRun(c, input, run)
    ensures forall i | 0 <= i < |run| :: KeepsMaximum(c, run[i])
  {
    for i := 1 to |run|
      invariant forall j | 0 <= j < i :: KeepsMaximum(c, run[j])
    {
      AtomicStepKeepsMaximum(c, run[i - 1], run[i]);
    }
  }

  lemma AtomicStepKeepsQuota<T>(c: Config, s: State<T>, s': State<T>)
    requires QuotaInv(c, s) && NextAtomic(c, s, s')
    ensures QuotaInv(c, s')
  {
    if Resets(c, s, s') {
      StoresKeepsQuota(c, s, Stored(s));
      SignalsKeepsQuota(c, Stored(s), s');
    } else {
      NextKeepsQuota(c, s, s');
    }
  }

  lemma {:induction false} AtomicRunKeepsQuota<T>(c: Config, input: seq<T>, run: seq<State<T>>)
    requires IsAtomicRun(c, input, run)
    ensures forall i | 0 <= i < |run| :: QuotaInv(c, run[i])
  {
    for i := 1 to |run|
      invariant forall j | 0 <= j < i :: QuotaInv(c, run[j])
    {
      AtomicStepKeepsQuota(c, run[i - 1], run[i]);
    }
  }

  ghost predicate StartsAtomicPeriod<T>(c: Config, run: seq<State<T>>, i: nat)
    requires i < |run|
  {
    i == 0 || Resets(c, run[i - 1], run[i])
  }

  // Even so a period can send one element more than the maximum, and does exactly if its
  // quota is used up, a send was under way at the reset, and none is now.
  lemma AtomicSendsExceedIff<T>(c: Config, input: seq<T>, run: seq<State<T>>, i: nat, j: nat)
    requires IsAtomicRun(c, input, run) && i <= j < |run|
    requires StartsAtomicPeriod(c, run, i) && run[j].periods == run[i].periods
    ensures SentBetween(run[i], run[j]) <= c.maxElements + Count(i > 0)
    ensures SentBetween(run[i], run[j]) > c.maxElements <==>
            run[j].counter == c.maxElements && run[i].consumer.Sending? && !run[j].consumer.Sending?
  {
    AtomicRunKeepsQuota(c, input, run);
    AtomicResetKeepsMaximum(c, input, run);
    PeriodSendsWhatItAdmits(c, run[i], run[j]);
  }
}
