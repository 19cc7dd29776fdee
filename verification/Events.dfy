/** What a goroutine's select meets, in order: elements, and the ticks of a timer or ticker.
    The input closes after the last event. */
module Events {
  import opened Sequences

  datatype Event<T> = Element(x: T) | Tick

  ghost function ElementsOf<T>(events: seq<Event<T>>): seq<T> {
    if events == [] then []
    else ElementsOf(events[..|events| - 1]) + if events[|events| - 1].Element? then [events[|events| - 1].x] else []
  }

  lemma ElementsSnoc<T>(events: seq<Event<T>>, e: Event<T>)
    ensures ElementsOf<T>([]) == []
    ensures ElementsOf(events + [e]) == ElementsOf(events) + if e.Element? then [e.x] else []
  {
    assert (events + [e])[..|events|] == events;
  }

  // Some of the slices are together exactly the elements before event i.
  ghost predicate FlushedAt<T>(events: seq<Event<T>>, slices: seq<seq<T>>, i: nat)
    requires i < |events|
  {
    exists m :: 0 <= m <= |slices| && Concat(slices[..m]) == ElementsOf(events[..i])
  }

  // The first m slices end just where a tick comes or the input closes.
  ghost predicate CutAtTick<T>(events: seq<Event<T>>, slices: seq<seq<T>>, m: nat)
    requires m <= |slices|
  {
    || Concat(slices[..m]) == ElementsOf(events)
    || exists i :: 0 <= i < |events| && events[i].Tick? && Concat(slices[..m]) == ElementsOf(events[..i])
  }
}
