/** The buffer of session and tumbling windows as an object: the sections that the two
    goroutines run under the mutex (flow/session_window.go:79-88, 127-140,
    flow/tumbling_window.go:77-85, 105-118), in any order. */
module WindowBuffers {
  import opened Batches
  import opened Events
  import opened Sequences

  class Window<T> {
    var buffer: seq<T>
    var out: seq<seq<T>>    // the windows sent downstream

    constructor ()
      ensures buffer == [] && out == []
    {
      buffer, out := [], [];
    }

    method Receive(element: T)
      modifies this`buffer
      ensures buffer == old(buffer) + [element]
    {
      buffer := buffer + [element];
    }

    method DispatchWindow()
      modifies this
      ensures buffer == []
      ensures out == old(out) + if old(buffer) == [] then [] else [old(buffer)]
    {
      var windowElements := buffer;
      buffer := [];
      if |windowElements| > 0 {
        out := out + [windowElements];
      }
    }

    // Elements received, and the timer or ticker firing, in any order, and then the close
    // of the input: the windows are the nonempty runs of elements between firings.
    method Run(events: seq<Event<T>>)
      requires buffer == [] && out == []
      modifies this
      ensures out == Filter(Segments(events), IsNonempty()) && buffer == []
      ensures Concat(out) == ElementsOf(events) && forall w | w in out :: w != []
      ensures forall i | 0 <= i < |events| && events[i].Tick? :: FlushedAt(events, out, i)
      ensures forall m | 0 < m <= |out| :: CutAtTick(events, out, m)
    {
      for i := 0 to |events|
        invariant var segments := Segments(events[..i]);
                  && out == Filter(segments[..|segments| - 1], IsNonempty())
                  && buffer == segments[|segments| - 1]
      {
        assert events[..i + 1][..i] == events[..i];
        ghost var segments := Segments(events[..i]);
        ghost var n := |segments| - 1;
        match events[i] {
          case Element(x) =>
            assert Segments(events[..i + 1])[..n] == segments[..n];
            Receive(x);
          case Tick =>
            assert Segments(events[..i + 1])[..n + 1] == segments;
            DispatchWindow();
        }
      }
      assert events[..|events|] == events;
      DispatchWindow();
      WindowsAreCut(events);
    }
  }

  lemma {:induction false} NonemptyConcat<T>(segments: seq<seq<T>>)
    ensures Concat(Filter(segments, IsNonempty())) == Concat(segments)
  {
    if segments != [] {
      var n := |segments| - 1;
      NonemptyConcat(segments[..n]);
      if segments[n] != [] {
        ConcatSnoc(Filter(segments[..n], IsNonempty()), segments[n]);
      } else {
        assert Filter(segments[..n], IsNonempty()) + [] == Filter(segments[..n], IsNonempty());
        assert Concat(segments[..n]) + [] == Concat(segments[..n]);
      }
    }
  }

  lemma {:induction false} NonemptyOfPrefix<T>(segments: seq<seq<T>>, j: nat)
    requires j <= |segments|
    ensures Filter(segments[..j], IsNonempty()) <= Filter(segments, IsNonempty())
  {
    assert segments == segments[..j] + segments[j..];
    FilterAppend(segments[..j], segments[j..], IsNonempty());
  }

  // Where m nonempty segments end, m windows end.
  lemma {:induction false} NonemptyEnd<T>(segments: seq<seq<T>>, m: nat) returns (j: nat)
    requires 0 < m <= |Filter(segments, IsNonempty())|
    ensures 0 < j <= |segments| && Filter(segments[..j], IsNonempty()) == Filter(segments, IsNonempty())[..m]
  {
    var n := |segments| - 1;
    var before := Filter(segments[..n], IsNonempty());
    if m <= |before| {
      j := NonemptyEnd(segments[..n], m);
      assert segments[..n][..j] == segments[..j];
    } else {
      j := |segments|;
      assert segments[..j] == segments;
    }
  }

  lemma WindowFlushed<T>(events: seq<Event<T>>, i: nat)
    requires i < |events| && events[i].Tick?
    ensures FlushedAt(events, Filter(Segments(events), IsNonempty()), i)
  {
    var j := TickEnds(events, i);
    var segments := Segments(events);
    var windows, sent := Filter(segments, IsNonempty()), Filter(segments[..j], IsNonempty());
    NonemptyOfPrefix(segments, j);
    NonemptyConcat(segments[..j]);
    assert windows[..|sent|] == sent;
  }

  lemma WindowCut<T>(events: seq<Event<T>>, m: nat)
    requires 0 < m <= |Filter(Segments(events), IsNonempty())|
    ensures CutAtTick(events, Filter(Segments(events), IsNonempty()), m)
  {
    var j := NonemptyEnd(Segments(events), m);
    NonemptyConcat(Segments(events)[..j]);
    SegmentCut(events, j, Filter(Segments(events), IsNonempty()), m);
  }

  // The windows without their specification: none is empty, together they are the input in
  // order, every firing finds what came before it sent, and every window ends just where
  // the timer or ticker fired or the input closed.
  lemma WindowsAreCut<T>(events: seq<Event<T>>)
    ensures var windows := Filter(Segments(events), IsNonempty());
            && Concat(windows) == ElementsOf(events)
            && (forall w | w in windows :: w != [])
            && (forall i | 0 <= i < |events| && events[i].Tick? :: FlushedAt(events, windows, i))
            && (forall m | 0 < m <= |windows| :: CutAtTick(events, windows, m))
  {
    var windows := Filter(Segments(events), IsNonempty());
    NonemptyConcat(Segments(events));
    SegmentsHoldTheInput(events);
    FilterMembers(Segments(events), IsNonempty());
    forall i | 0 <= i < |events| && events[i].Tick? ensures FlushedAt(events, windows, i) {
      WindowFlushed(events, i);
    }
    forall m | 0 < m <= |windows| ensures CutAtTick(events, windows, m) {
      WindowCut(events, m);
    }
  }
}
