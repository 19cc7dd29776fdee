/** The sliding window operator, method by method (flow/sliding_window.go).
    Times and durations are integer nanoseconds. */
module SlidingWindow {
  import opened Sequences

  // An incoming element together with its event time.
  datatype Timed<T> = Timed(element: T, time: int)

  datatype Options = Options(windowSize: int, slidingInterval: int,
                             allowedLateness: int, emitPartialWindow: bool) {
    // What the constructor checks, and that the interval is positive, without which
    // the ticker and the remainder by the interval are undefined.
    predicate Valid() {
      0 < slidingInterval <= windowSize && allowedLateness <= slidingInterval
    }

    // How long the emission waits before its ticker is created.
    function InitialDelay(delta: int): int {
      allowedLateness + (if emitPartialWindow then 0 else windowSize - slidingInterval - delta)
    }
  }

  type Config = o: Options | o.Valid() witness Options(1, 1, 0, false)

  // ---------- window start ----------

  const MIN_INT64: int := -0x8000_0000_0000_0000
  const MAX_INT64: int := 0x7fff_ffff_ffff_ffff

  // Go's zero time, January 1 of year 1, lies before the range of Unix nanoseconds.
  const ZERO_TIME: int := -62_135_596_800_000_000_000

  predicate InInt64(n: int) {
    MIN_INT64 <= n <= MAX_INT64
  }

  // Go's % truncates toward zero: the remainder has the sign of the dividend.
  function TruncatedRemainder(a: int, b: int): int
    requires 0 < b
  {
    if 0 <= a then a % b else -((-a) % b)
  }

  // The start of the window an event time belongs to, and its distance from the event time.
  function CalculateWindowStart(slidingInterval: int, eventTime: int): (int, int)
    requires 0 < slidingInterval
  {
    if eventTime == ZERO_TIME then (eventTime, 0)
    else
      var delta := TruncatedRemainder(eventTime, slidingInterval);
      (eventTime - delta, delta)
  }

  lemma MultiplesAreApart(a: int, b: int, m: int)
    requires 0 < m && a < b
    ensures a * m + m <= b * m
  {
    var k := b - a - 1;
    assert b * m == (a + 1 + k) * m == a * m + m + k * m;
    assert 0 <= k * m;
  }

  lemma MultiplesKeepOrder(a: int, b: int, m: int)
    requires 0 < m && a <= b
    ensures a * m <= b * m
  {
    if a < b { MultiplesAreApart(a, b, m); }
  }

  lemma MultipleHasNoRemainder(q: int, s: int)
    requires 0 < s
    ensures (q * s) % s == 0
  {
    var r := (q * s) % s;
    var d := (q * s) / s;
    assert q * s == d * s + r;
    if d < q { MultiplesAreApart(d, q, s); assert false; }
    if q < d { MultiplesAreApart(q, d, s); assert false; }
  }

  lemma NextMultiple(a: int, b: int, m: int)
    requires 0 < m && a * m < b * m
    ensures a * m + m <= b * m
  {
    if b <= a {
      MultiplesKeepOrder(b, a, m);
    } else {
      MultiplesAreApart(a, b, m);
    }
  }

  lemma StartIsMultiple(s: int, t: int) returns (q: int)
    requires 0 < s && t != ZERO_TIME
    ensures var (start, delta) := CalculateWindowStart(s, t);
            start == q * s && if 0 <= t then 0 <= delta < s && start <= t else -s < delta <= 0 && t <= start <= 0
  {
    q := if 0 <= t then t / s else -((-t) / s);
  }

  // From the epoch on, the start is the greatest multiple of the interval not after the
  // event; before the epoch it is the least multiple not before the event.
  lemma WindowStartIsAligned(s: int, t: int)
    requires 0 < s && t != ZERO_TIME && InInt64(t) && InInt64(s)
    ensures var (start, delta) := CalculateWindowStart(s, t);
            && start == t - delta && start % s == 0
            && InInt64(start) && InInt64(delta)
            && (0 <= t ==> 0 <= delta < s && forall m | start < m * s :: t < m * s)
            && (t <= 0 ==> -s < delta <= 0 && forall m | m * s < start :: m * s < t)
  {
    var (start, delta) := CalculateWindowStart(s, t);
    var q := StartIsMultiple(s, t);
    MultipleHasNoRemainder(q, s);
    forall m | start < m * s && 0 <= t ensures t < m * s {
      NextMultiple(q, m, s);
    }
    forall m | m * s < start && t <= 0 ensures m * s < t {
      NextMultiple(m, q, s);
    }
  }

  // The zero time has no Unix nanoseconds and is its own start.
  lemma ZeroTimeIsItsOwnStart(s: int)
    requires 0 < s
    ensures !InInt64(ZERO_TIME) && CalculateWindowStart(s, ZERO_TIME) == (ZERO_TIME, 0)
  {
  }

  // ---------- sorting and extraction ----------

  ghost predicate SortedByTime<T>(q: seq<Timed<T>>) {
    forall i, j | 0 <= i < j < |q| :: q[i].time <= q[j].time
  }

  ghost function NotAfter<T>(bound: int): Timed<T> -> bool {
    (x: Timed<T>) => x.time <= bound
  }

  ghost function IsAfter<T>(bound: int): Timed<T> -> bool {
    (x: Timed<T>) => x.time > bound
  }

  ghost function UpTo<T>(q: seq<Timed<T>>, bound: int): seq<Timed<T>> {
    Filter(q, NotAfter(bound))
  }

  ghost function After<T>(q: seq<Timed<T>>, bound: int): seq<Timed<T>> {
    Filter(q, IsAfter(bound))
  }

  ghost function Elements<T>(q: seq<Timed<T>>): seq<T> {
    Map(q, (x: Timed<T>) => x.element)
  }

  // A sorted arrangement of the queue is split into the window and the queue that remains.
  ghost predicate SplitsInto<T>(c: Config, lower: int, queue: seq<Timed<T>>, sorted: seq<Timed<T>>,
                                queue': seq<Timed<T>>, window: seq<Timed<T>>) {
    && SortedByTime(sorted) && multiset(sorted) == multiset(queue)
    && window == UpTo(sorted, lower + c.windowSize)
    && queue' == After(sorted, lower + c.slidingInterval)
  }

  // What one dispatch does, whatever order the sort leaves ties in.
  ghost predicate Dispatched<T(!new)>(c: Config, lower: int, queue: seq<Timed<T>>,
                                      lower': int, queue': seq<Timed<T>>, window: seq<Timed<T>>) {
    && lower' == lower + c.slidingInterval
    && exists sorted :: SplitsInto(c, lower, queue, sorted, queue', window)
  }

  method InsertByTime<T>(q: seq<Timed<T>>, x: Timed<T>) returns (r: seq<Timed<T>>)
    requires SortedByTime(q)
    ensures SortedByTime(r) && multiset(r) == multiset(q) + multiset{x}
  {
    var j := |q|;
    while 0 < j && x.time < q[j - 1].time
      invariant 0 <= j <= |q|
      invariant forall k | j <= k < |q| :: x.time < q[k].time
    {
      j := j - 1;
    }
    r := q[..j] + [x] + q[j..];
    InsertedAt(q, x, j);
    MultisetAround(q[..j], x, q[j..]);
    assert q == q[..j] + q[j..];
  }

  lemma InsertedAt<T>(q: seq<Timed<T>>, x: Timed<T>, j: nat)
    requires SortedByTime(q) && j <= |q|
    requires 0 < j ==> q[j - 1].time <= x.time
    requires forall k | j <= k < |q| :: x.time < q[k].time
    ensures SortedByTime(q[..j] + [x] + q[j..])
  {
    var r := q[..j] + [x] + q[j..];
    forall k | 0 <= k < j ensures q[k].time <= x.time {
      assert q[k].time <= q[j - 1].time;
    }
    forall i, k | 0 <= i < k < |r| ensures r[i].time <= r[k].time {
      assert r[i] == if i < j then q[i] else if i == j then x else q[i - 1];
      assert r[k] == if k < j then q[k] else if k == j then x else q[k - 1];
    }
  }

  lemma SortedWith<T>(q: seq<Timed<T>>, x: Timed<T>) returns (r: seq<Timed<T>>)
    requires SortedByTime(q)
    ensures SortedByTime(r) && multiset(r) == multiset(q) + multiset{x}
  {
    var j := |q|;
    while 0 < j && x.time < q[j - 1].time
      invariant 0 <= j <= |q|
      invariant forall k | j <= k < |q| :: x.time < q[k].time
    {
      j := j - 1;
    }
    r := q[..j] + [x] + q[j..];
    InsertedAt(q, x, j);
    MultisetAround(q[..j], x, q[j..]);
    assert q == q[..j] + q[j..];
  }

  // Every queue has a sorted arrangement.
  lemma {:induction false} SomeSorted<T>(q: seq<Timed<T>>) returns (sorted: seq<Timed<T>>)
    ensures SortedByTime(sorted) && multiset(sorted) == multiset(q)
  {
    if q == [] {
      sorted := [];
    } else {
      sorted := SomeSorted(q[..|q| - 1]);
      sorted := SortedWith(sorted, q[|q| - 1]);
      assert q == q[..|q| - 1] + [q[|q| - 1]];
    }
  }

  method SortByTime<T>(q: seq<Timed<T>>) returns (sorted: seq<Timed<T>>)
    ensures SortedByTime(sorted) && multiset(sorted) == multiset(q)
  {
    sorted := [];
    for i := 0 to |q|
      invariant SortedByTime(sorted) && multiset(sorted) == multiset(q[..i])
    {
      sorted := InsertByTime(sorted, q[i]);
      assert q[..i + 1] == q[..i] + [q[i]];
    }
    assert q[..|q|] == q;
  }

  lemma SortedAfter<T>(q: seq<Timed<T>>, i: nat, bound: int)
    requires SortedByTime(q) && i <= |q|
    requires forall k | 0 <= k < i :: q[k].time <= bound
    requires i < |q| ==> q[i].time > bound
    ensures forall k | 0 <= k < |q| :: q[k].time > bound <==> k >= i
  {
  }

  lemma SortedSplit<T>(q: seq<Timed<T>>, i: nat, bound: int)
    requires SortedByTime(q) && i <= |q|
    requires forall k | 0 <= k < i :: q[k].time <= bound
    requires i < |q| ==> q[i].time > bound
    ensures UpTo(q, bound) == q[..i] && After(q, bound) == q[i..]
  {
    SortedAfter(q, i, bound);
    assert q == q[..i] + q[i..];
    BoundSplits(q[..i], q[i..], bound);
  }

  // What one pass over the sorted queue extracts is the window of a dispatch, and what it
  // leaves is the queue after it.
  lemma ExtractedIsDispatched<T(!new)>(c: Config, lower: int, queue: seq<Timed<T>>, sorted: seq<Timed<T>>,
                                       elements: seq<T>, queue': seq<Timed<T>>) returns (window: seq<Timed<T>>)
    requires SortedByTime(sorted) && multiset(sorted) == multiset(queue)
    requires |elements| <= |sorted| && |queue'| <= |sorted| && queue' == sorted[|sorted| - |queue'|..]
    requires forall k | 0 <= k < |sorted| ::
               if k < |elements| then sorted[k].time <= lower + c.windowSize && elements[k] == sorted[k].element
               else sorted[k].time > lower + c.windowSize
    requires forall k | 0 <= k < |sorted| ::
               sorted[k].time > lower + c.slidingInterval <==> k >= |sorted| - |queue'|
    ensures Dispatched(c, lower, queue, lower + c.slidingInterval, queue', window)
    ensures elements == Elements(window)
  {
    SortedSplit(sorted, |elements|, lower + c.windowSize);
    SortedSplit(sorted, |sorted| - |queue'|, lower + c.slidingInterval);
    window := sorted[..|elements|];
    assert SplitsInto(c, lower, queue, sorted, queue', window);
  }

  lemma BoundSplits<T>(early: seq<Timed<T>>, late: seq<Timed<T>>, bound: int)
    requires (forall x | x in early :: x.time <= bound) && forall x | x in late :: x.time > bound
    ensures UpTo(early + late, bound) == early && After(early + late, bound) == late
  {
    FilterAppend(early, late, NotAfter(bound));
    FilterAppend(early, late, IsAfter(bound));
    FilterAll(early, NotAfter(bound));
    FilterNone(late, NotAfter(bound));
    FilterNone(early, IsAfter(bound));
    FilterAll(late, IsAfter(bound));
  }

  lemma FilteredIsSorted<T>(q: seq<Timed<T>>, p: Timed<T> -> bool)
    requires SortedByTime(q)
    ensures SortedByTime(Filter(q, p))
  {
    if q != [] {
      FilteredIsSorted(q[..|q| - 1], p);
      FilterMembers(q[..|q| - 1], p);
      var f := Filter(q[..|q| - 1], p);
      forall i | 0 <= i < |f| ensures f[i].time <= q[|q| - 1].time {
        assert f[i] in q[..|q| - 1];
      }
    }
  }

  class SlidingWindow<T(!new)> {
    const config: Config
    var lowerBoundary: int
    var queue: seq<Timed<T>>
    var out: seq<seq<T>>  // the windows sent downstream

    constructor (config: Config)
      ensures this.config == config && queue == [] && out == []
    {
      this.config := config;
      lowerBoundary := ZERO_TIME;
      queue := [];
      out := [];
    }

    // The first element's event time, read once for the boundary and once more when the
    // element is processed: the two differ when processing time is used.
    method StreamFirst(element: T, eventTime: int, processedTime: int) returns (delta: int)
      requires queue == []
      modifies this`lowerBoundary, this`queue
      ensures (lowerBoundary, delta) == CalculateWindowStart(config.slidingInterval, eventTime)
      ensures queue == if processedTime < lowerBoundary then [] else [Timed(element, processedTime)]
    {
      var (start, d) := CalculateWindowStart(config.slidingInterval, eventTime);
      lowerBoundary, delta := start, d;
      ProcessElement(element, processedTime);
    }

    // Skips an event older than the lower boundary, queues any other.
    method ProcessElement(element: T, eventTime: int)
      modifies this`queue
      ensures queue == old(queue) +
                       if eventTime < lowerBoundary then [] else [Timed(element, eventTime)]
    {
      if eventTime < lowerBoundary {
        return;
      }
      queue := queue + [Timed(element, eventTime)];
    }

    // One pass over the sorted queue, copying the suffix that stays when it first meets
    // an element after the new lower boundary, and leaving at the first element that is
    // too new for the window.
    method ExtractWindowElements() returns (elements: seq<T>)
      requires SortedByTime(queue)
      modifies this`lowerBoundary, this`queue
      ensures lowerBoundary == old(lowerBoundary) + config.slidingInterval
      ensures |elements| <= |old(queue)|
      ensures forall k | 0 <= k < |old(queue)| ::
                if k < |elements|
                then
                  && old(queue)[k].time <= old(lowerBoundary) + config.windowSize
                  && elements[k] == old(queue)[k].element
                else old(queue)[k].time > old(lowerBoundary) + config.windowSize
      ensures |queue| <= |old(queue)| && queue == old(queue)[|old(queue)| - |queue|..]
      ensures forall k | 0 <= k < |old(queue)| ::
                old(queue)[k].time > lowerBoundary <==> k >= |old(queue)| - |queue|
    {
      var upperBoundary := lowerBoundary + config.windowSize;
      lowerBoundary := lowerBoundary + config.slidingInterval;
      elements := [];
      var remaining: Option<seq<Timed<T>>> := None;
      ghost var kept: nat := |queue|;
      var i := 0;
      while i < |queue|
        invariant 0 <= i <= |queue|
        invariant |elements| == i && forall k | 0 <= k < i :: elements[k] == queue[k].element
        invariant forall k | 0 <= k < i :: queue[k].time <= upperBoundary
        invariant remaining.None? ==> kept == |queue| && forall k | 0 <= k < i :: queue[k].time <= lowerBoundary
        invariant remaining.Some? ==> kept < i <= |queue| && remaining.value == queue[kept..] &&
                                      queue[kept].time > lowerBoundary &&
                                      forall k | 0 <= k < kept :: queue[k].time <= lowerBoundary
      {
        if remaining.None? && queue[i].time > lowerBoundary {
          remaining := Some(queue[i..]);
          kept := i;
        }
        if queue[i].time <= upperBoundary {
          elements := elements + [queue[i].element];
        } else {
          break;
        }
        i := i + 1;
      }
      SortedAfter(queue, i, upperBoundary);
      SortedAfter(queue, kept, lowerBoundary);
      queue := if remaining.Some? then remaining.value else [];
    }

    // Sorts the queue, sends the current window unless it is empty, and moves the window on.
    method DispatchWindow() returns (ghost window: seq<Timed<T>>)
      modifies this`lowerBoundary, this`queue, this`out
      ensures Dispatched(config, old(lowerBoundary), old(queue), lowerBoundary, queue, window)
      ensures out == old(out) + if window == [] then [] else [Elements(window)]
      ensures |Elements(window)| == |window|
      ensures forall i | 0 <= i < |window| :: Elements(window)[i] == window[i].element
    {
      queue := SortByTime(queue);
      ghost var sorted := queue;
      var windowElements := ExtractWindowElements();
      window := ExtractedIsDispatched(config, old(lowerBoundary), old(queue), sorted, windowElements, queue);
      if |windowElements| > 0 {
        out := out + [windowElements];
      }
    }
  }
}
