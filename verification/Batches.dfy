/** Batch: one goroutine that answers elements, ticks and the close of its input
    (flow/batch.go:80-119). */
module Batches {
  import opened Events
  import opened Sequences

  // The slices of size max, and a last shorter one if something is left.
  ghost function Chunks<T>(s: seq<T>, max: nat): seq<seq<T>>
    requires max >= 1
  {
    if |s| == 0 then [] else if |s| <= max then [s] else [s[..max]] + Chunks(s[max..], max)
  }

  // The runs of elements between ticks.  There is one more run than ticks.
  ghost function Segments<T>(events: seq<Event<T>>): (r: seq<seq<T>>)
    ensures r != []
  {
    if events == [] then [[]]
    else
      var rest := Segments(events[..|events| - 1]);
      match events[|events| - 1]
      case Tick => rest + [[]]
      case Element(x) => rest[|rest| - 1 := rest[|rest| - 1] + [x]]
  }

  // The specification: each run between ticks cut into chunks of its own.
  ghost function ChunkedSegments<T>(segments: seq<seq<T>>, max: nat): seq<seq<T>>
    requires max >= 1
  {
    if segments == [] then []
    else ChunkedSegments(segments[..|segments| - 1], max) + Chunks(segments[|segments| - 1], max)
  }

  ghost predicate WithoutTicks<T>(events: seq<Event<T>>) {
    forall e | e in events :: e.Element?
  }

  // The chunks of full size, and what is left.
  ghost function Full<T>(s: seq<T>, max: nat): seq<seq<T>>
    requires max >= 1
  {
    if |s| < max then [] else [s[..max]] + Full(s[max..], max)
  }

  ghost function Rest<T>(s: seq<T>, max: nat): seq<T>
    requires max >= 1
  {
    if |s| < max then s else Rest(s[max..], max)
  }

  lemma {:induction false} ChunksAreFullAndRest<T>(s: seq<T>, max: nat)
    requires max >= 1
    ensures Chunks(s, max) == Full(s, max) + (if Rest(s, max) == [] then [] else [Rest(s, max)])
    ensures |Rest(s, max)| < max
    ensures forall c | c in Full(s, max) :: |c| == max
  {
    if |s| >= max {
      ChunksAreFullAndRest(s[max..], max);
      if |s| == max {
        assert s[..max] == s && s[max..] == [];
      }
    }
  }

  lemma {:induction false} FullAndRestConcat<T>(s: seq<T>, max: nat)
    requires max >= 1
    ensures Concat(Full(s, max)) + Rest(s, max) == s
  {
    if |s| >= max {
      FullAndRestConcat(s[max..], max);
      ConcatAppend([s[..max]], Full(s[max..], max));
      ConcatSnoc([], s[..max]);
      assert Concat([s[..max]]) == s[..max] by { assert [] + [s[..max]] == [s[..max]]; }
      assert s == s[..max] + s[max..];
    }
  }

  // Adding an element completes a chunk exactly when the rest was one short of it.
  lemma {:induction false} RestGrows<T>(s: seq<T>, x: T, max: nat)
    requires max >= 1
    ensures var rest := Rest(s, max) + [x];
            if |rest| >= max then Full(s + [x], max) == Full(s, max) + [rest] && Rest(s + [x], max) == []
            else Full(s + [x], max) == Full(s, max) && Rest(s + [x], max) == rest
  {
    if |s| >= max {
      RestGrows(s[max..], x, max);
      assert (s + [x])[..max] == s[..max] && (s + [x])[max..] == s[max..] + [x];
    } else if |s| + 1 == max {
      assert (s + [x])[..max] == s + [x] && (s + [x])[max..] == [];
      assert Full<T>([], max) == [] && Rest<T>([], max) == [];
    }
  }

  // The batches that some events have completed, and what they leave in the buffer.
  ghost function Completed<T>(events: seq<Event<T>>, max: nat): seq<seq<T>>
    requires max >= 1
  {
    var segments := Segments(events);
    var n := |segments| - 1;
    ChunkedSegments(segments[..n], max) + Full(segments[n], max)
  }

  ghost function Left<T>(events: seq<Event<T>>, max: nat): seq<T>
    requires max >= 1
  {
    var segments := Segments(events);
    Rest(segments[|segments| - 1], max)
  }

  lemma ElementIsBatched<T>(events: seq<Event<T>>, x: T, max: nat)
    requires max >= 1
    ensures var events', buffer := events + [Element(x)], Left(events, max) + [x];
            if |buffer| >= max
            then Completed(events', max) == Completed(events, max) + [buffer] && Left(events', max) == []
            else Completed(events', max) == Completed(events, max) && Left(events', max) == buffer
  {
    var events' := events + [Element(x)];
    var segments := Segments(events);
    var n := |segments| - 1;
    assert events'[..|events|] == events;
    assert Segments(events') == segments[n := segments[n] + [x]];
    assert Segments(events')[..n] == segments[..n];
    RestGrows(segments[n], x, max);
  }

  lemma TickEndsSegment<T>(events: seq<Event<T>>, max: nat)
    requires max >= 1
    ensures var events', buffer := events + [Tick], Left(events, max);
            && Completed(events', max) == Completed(events, max) + (if buffer == [] then [] else [buffer])
            && Left(events', max) == []
  {
    var events' := events + [Tick];
    var segments := Segments(events);
    var n := |segments| - 1;
    assert events'[..|events|] == events;
    assert Segments(events')[..n + 1] == segments;
    ChunksAreFullAndRest(segments[n], max);
  }

  lemma CloseEndsSegment<T>(events: seq<Event<T>>, max: nat)
    requires max >= 1
    ensures var buffer := Left(events, max);
            ChunkedSegments(Segments(events), max) == Completed(events, max) + if buffer == [] then [] else [buffer]
  {
    var segments := Segments(events);
    ChunksAreFullAndRest(segments[|segments| - 1], max);
  }

  class Batch<T> {
    const maxBatchSize: nat
    var buffer: seq<T>
    var out: seq<seq<T>>    // the batches sent downstream

    constructor (maxBatchSize: nat)
      requires maxBatchSize >= 1
      ensures this.maxBatchSize == maxBatchSize && buffer == [] && out == []
    {
      this.maxBatchSize := maxBatchSize;
      buffer, out := [], [];
    }

    method Flush()
      modifies this`buffer, this`out
      ensures out == old(out) + [old(buffer)] && buffer == []
    {
      out := out + [buffer];
      buffer := [];
    }

    // The whole life of the goroutine, whatever the ticks: the batches are the chunks of
    // the runs between ticks.
    method BatchStream(events: seq<Event<T>>)
      requires maxBatchSize >= 1 && buffer == [] && out == []
      modifies this`buffer, this`out
      ensures out == ChunkedSegments(Segments(events), maxBatchSize) && buffer == []
      ensures Concat(out) == ElementsOf(events) && forall b | b in out :: 1 <= |b| <= maxBatchSize
      ensures forall i | 0 <= i < |events| && events[i].Tick? :: FlushedAt(events, out, i)
      ensures forall m | 0 <= m < |out| && |out[m]| < maxBatchSize :: CutAtTick(events, out, m + 1)
    {
      assert Segments<T>([])[..0] == [];
      for i := 0 to |events|
        invariant out == Completed(events[..i], maxBatchSize)
        invariant buffer == Left(events[..i], maxBatchSize)
      {
        assert events[..i + 1] == events[..i] + [events[i]];
        match events[i] {
          case Element(x) =>
            ElementIsBatched(events[..i], x, maxBatchSize);
            buffer := buffer + [x];
            if |buffer| >= maxBatchSize {
              Flush();
            }
          case Tick =>
            TickEndsSegment(events[..i], maxBatchSize);
            if |buffer| > 0 {
              Flush();
            }
        }
      }
      assert events[..|events|] == events;
      CloseEndsSegment(events, maxBatchSize);
      if |buffer| > 0 {
        Flush();
      }
      BatchesAreCut(events, maxBatchSize);
    }
  }

  // ---------- what the specification promises ----------

  // Batching loses, repeats and reorders nothing.
  lemma {:induction false} BatchesHoldTheInput<T>(events: seq<Event<T>>, max: nat)
    requires max >= 1
    ensures Concat(ChunkedSegments(Segments(events), max)) == ElementsOf(events)
  {
    var segments := Segments(events);
    SegmentsHoldTheInput(events);
    ChunkedSegmentsConcat(segments, max);
  }

  lemma ConcatGrowsLast<T>(segments: seq<seq<T>>, x: T)
    requires segments != []
    ensures var n := |segments| - 1;
            Concat(segments[n := segments[n] + [x]]) == Concat(segments) + [x]
  {
    var n := |segments| - 1;
    assert segments[n := segments[n] + [x]][..n] == segments[..n];
  }

  lemma {:induction false} SegmentsHoldTheInput<T>(events: seq<Event<T>>)
    ensures Concat(Segments(events)) == ElementsOf(events)
  {
    if events == [] {
      ConcatSnoc<T>([], []);
    } else {
      var n := |events| - 1;
      var rest := Segments(events[..n]);
      SegmentsHoldTheInput(events[..n]);
      match events[n] {
        case Tick =>
          ConcatSnoc(rest, []);
          assert Concat(rest) + [] == Concat(rest);
        case Element(x) =>
          ConcatGrowsLast(rest, x);
      }
    }
  }

  lemma {:induction false} ChunkedSegmentsConcat<T>(segments: seq<seq<T>>, max: nat)
    requires max >= 1
    ensures Concat(ChunkedSegments(segments, max)) == Concat(segments)
  {
    if segments != [] {
      var n := |segments| - 1;
      ChunkedSegmentsConcat(segments[..n], max);
      ConcatAppend(ChunkedSegments(segments[..n], max), Chunks(segments[n], max));
      ChunksConcat(segments[n], max);
    }
  }

  lemma ChunksConcat<T>(s: seq<T>, max: nat)
    requires max >= 1
    ensures Concat(Chunks(s, max)) == s
  {
    var full, rest := Full(s, max), Rest(s, max);
    ChunksAreFullAndRest(s, max);
    FullAndRestConcat(s, max);
    if rest == [] {
      assert full + [] == full && Concat(full) + [] == Concat(full);
    } else {
      ConcatSnoc(full, rest);
    }
  }

  // Between events the buffer is always short of a full batch.
  lemma BufferIsShort<T>(events: seq<Event<T>>, max: nat)
    requires max >= 1
    ensures |Left(events, max)| < max
    ensures Concat(Completed(events, max)) + Left(events, max) == ElementsOf(events)
  {
    var segments := Segments(events);
    var n := |segments| - 1;
    var before, full, rest := ChunkedSegments(segments[..n], max), Full(segments[n], max), Rest(segments[n], max);
    ChunksAreFullAndRest(segments[n], max);
    ConcatAppend(before, full);
    FullAndRestConcat(segments[n], max);
    ChunkedSegmentsConcat(segments[..n], max);
    SegmentsHoldTheInput(events);
    Reassociate(Concat(before), Concat(full), rest);
  }

  lemma Reassociate<T>(a: seq<T>, b: seq<T>, c: seq<T>)
    ensures (a + b) + c == a + (b + c)
  {
  }

  // Within a run, only the last chunk can be short.
  lemma ChunkSizes<T>(segment: seq<T>, max: nat, i: nat)
    requires max >= 1 && i < |Chunks(segment, max)|
    ensures 1 <= |Chunks(segment, max)[i]| <= max
    ensures i < |Chunks(segment, max)| - 1 ==> |Chunks(segment, max)[i]| == max
  {
    var full := Full(segment, max);
    ChunksAreFullAndRest(segment, max);
    if i < |full| {
      assert full[i] in full;
    }
  }

  // s is the input up to the end of some run, which is a tick or the close of the input.
  ghost predicate EndsSegment<T>(segments: seq<seq<T>>, s: seq<T>) {
    exists j :: 0 <= j <= |segments| && Concat(segments[..j]) == s
  }

  // Batch i has from one to max elements and, if it is short, ends just where a tick came
  // or the input closed.
  ghost predicate BatchFits<T>(segments: seq<seq<T>>, max: nat, batches: seq<seq<T>>, i: nat)
    requires i < |batches|
  {
    && 1 <= |batches[i]| <= max
    && (|batches[i]| < max ==> EndsSegment(segments, Concat(batches[..i + 1])))
  }

  lemma {:induction false} BatchSizes<T>(segments: seq<seq<T>>, max: nat, i: nat)
    requires max >= 1 && i < |ChunkedSegments(segments, max)|
    ensures BatchFits(segments, max, ChunkedSegments(segments, max), i)
  {
    var n := |segments| - 1;
    var before, chunks := ChunkedSegments(segments[..n], max), Chunks(segments[n], max);
    var batches := before + chunks;
    if i < |before| {
      BatchSizes(segments[..n], max, i);
      assert batches[i] == before[i] && batches[..i + 1] == before[..i + 1];
      EarlierEnds(segments, Concat(before[..i + 1]), |before[i]| < max);
    } else {
      ChunkSizes(segments[n], max, i - |before|);
      assert batches[i] == chunks[i - |before|];
      if |batches[i]| < max {
        assert batches[..i + 1] == batches && segments[..n + 1] == segments;
        ChunkedSegmentsConcat(segments, max);
      }
    }
  }

  lemma EarlierEnds<T>(segments: seq<seq<T>>, s: seq<T>, ends: bool)
    requires segments != [] && (ends ==> EndsSegment(segments[..|segments| - 1], s))
    ensures ends ==> EndsSegment(segments, s)
  {
    if ends {
      var before := segments[..|segments| - 1];
      var j :| 0 <= j <= |before| && Concat(before[..j]) == s;
      assert before[..j] == segments[..j];
    }
  }

  // ---------- the runs between ticks, in terms of the events ----------

  // Every run but the last ends at a tick.
  lemma {:induction false} SegmentEnds<T>(events: seq<Event<T>>, j: nat) returns (i: nat)
    requires 0 < j < |Segments(events)|
    ensures i < |events| && events[i].Tick? && Concat(Segments(events)[..j]) == ElementsOf(events[..i])
  {
    var n := |events| - 1;
    var rest := Segments(events[..n]);
    assert Segments(events)[..j] == rest[..j];
    if j < |rest| {
      i := SegmentEnds(events[..n], j);
      assert events[..n][..i] == events[..i];
    } else {
      i := n;
      assert rest[..j] == rest;
      SegmentsHoldTheInput(events[..n]);
    }
  }

  // At every tick a run ends.
  lemma {:induction false} TickEnds<T>(events: seq<Event<T>>, i: nat) returns (j: nat)
    requires i < |events| && events[i].Tick?
    ensures j < |Segments(events)| && Concat(Segments(events)[..j]) == ElementsOf(events[..i])
  {
    var n := |events| - 1;
    var rest := Segments(events[..n]);
    if i < n {
      j := TickEnds(events[..n], i);
      assert events[..n][..i] == events[..i];
    } else {
      j := |rest|;
      SegmentsHoldTheInput(events[..n]);
    }
    assert Segments(events)[..j] == rest[..j];
  }

  lemma {:induction false} ChunksOfPrefix<T>(segments: seq<seq<T>>, j: nat, max: nat)
    requires max >= 1 && j <= |segments|
    ensures ChunkedSegments(segments[..j], max) <= ChunkedSegments(segments, max)
  {
    if j < |segments| {
      var before := segments[..|segments| - 1];
      ChunksOfPrefix(before, j, max);
      assert before[..j] == segments[..j];
    } else {
      assert segments[..j] == segments;
    }
  }

  lemma BatchFlushed<T>(events: seq<Event<T>>, max: nat, i: nat)
    requires max >= 1 && i < |events| && events[i].Tick?
    ensures FlushedAt(events, ChunkedSegments(Segments(events), max), i)
  {
    var j := TickEnds(events, i);
    var segments := Segments(events);
    var batches, sent := ChunkedSegments(segments, max), ChunkedSegments(segments[..j], max);
    ChunksOfPrefix(segments, j, max);
    ChunkedSegmentsConcat(segments[..j], max);
    assert batches[..|sent|] == sent;
  }

  lemma ShortBatchCut<T>(events: seq<Event<T>>, max: nat, m: nat)
    requires max >= 1 && m < |ChunkedSegments(Segments(events), max)|
    requires |ChunkedSegments(Segments(events), max)[m]| < max
    ensures CutAtTick(events, ChunkedSegments(Segments(events), max), m + 1)
  {
    var segments := Segments(events);
    var batches := ChunkedSegments(segments, max);
    BatchSizes(segments, max, m);
    var j :| 0 <= j <= |segments| && Concat(segments[..j]) == Concat(batches[..m + 1]);
    assert j > 0 by {
      ConcatNonempty(batches, m);
    }
    SegmentCut(events, j, batches, m + 1);
  }

  lemma ConcatNonempty<T>(ss: seq<seq<T>>, m: nat)
    requires m < |ss| && ss[m] != []
    ensures Concat(ss[..m + 1]) != []
  {
    assert ss[..m + 1] == ss[..m] + [ss[m]];
    ConcatSnoc(ss[..m], ss[m]);
  }

  lemma SegmentCut<T>(events: seq<Event<T>>, j: nat, slices: seq<seq<T>>, m: nat)
    requires 0 < j <= |Segments(events)| && m <= |slices|
    requires Concat(slices[..m]) == Concat(Segments(events)[..j])
    ensures CutAtTick(events, slices, m)
  {
    if j < |Segments(events)| {
      var i := SegmentEnds(events, j);
    } else {
      assert Segments(events)[..j] == Segments(events);
      SegmentsHoldTheInput(events);
    }
  }

  // What batching does, without its specification: the batches are the input in order, each
  // of one to max elements; every tick finds what came before it sent; and a short batch
  // ends just where a tick came or the input closed.
  lemma BatchesAreCut<T>(events: seq<Event<T>>, max: nat)
    requires max >= 1
    ensures var batches := ChunkedSegments(Segments(events), max);
            && Concat(batches) == ElementsOf(events)
            && (forall b | b in batches :: 1 <= |b| <= max)
            && (forall i | 0 <= i < |events| && events[i].Tick? :: FlushedAt(events, batches, i))
            && (forall m | 0 <= m < |batches| && |batches[m]| < max :: CutAtTick(events, batches, m + 1))
  {
    var batches := ChunkedSegments(Segments(events), max);
    BatchesHoldTheInput(events, max);
    forall b | b in batches ensures 1 <= |b| <= max {
      var m :| 0 <= m < |batches| && batches[m] == b;
      BatchSizes(Segments(events), max, m);
    }
    forall i | 0 <= i < |events| && events[i].Tick? ensures FlushedAt(events, batches, i) {
      BatchFlushed(events, max, i);
    }
    forall m | 0 <= m < |batches| && |batches[m]| < max ensures CutAtTick(events, batches, m + 1) {
      ShortBatchCut(events, max, m);
    }
  }

  // Without ticks the batches are the chunks of the whole input.
  lemma {:induction false} NoTicksMeansChunks<T>(events: seq<Event<T>>, max: nat)
    requires max >= 1 && WithoutTicks(events)
    ensures Segments(events) == [ElementsOf(events)]
    ensures ChunkedSegments(Segments(events), max) == Chunks(ElementsOf(events), max)
  {
    if events != [] {
      assert events[|events| - 1] in events;
      NoTicksMeansChunks(events[..|events| - 1], max);
    }
    assert [ElementsOf(events)][..0] == [];
    assert ChunkedSegments([ElementsOf(events)], max) == [] + Chunks(ElementsOf(events), max);
  }
}
