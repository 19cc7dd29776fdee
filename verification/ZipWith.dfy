/** ZipWith: one goroutine that reads several outlets in turn (flow/util.go:107-171). */
module ZipWith {
  import opened Sequences

  // The output channels of some operators, each named by its index: what is still to be
  // received from each before it is closed.
  class Outlets<T> {
    var pending: seq<seq<T>>

    constructor (contents: seq<seq<T>>)
      ensures pending == contents
    {
      pending := contents;
    }

    // A receive, which on a closed and drained channel yields nothing.
    method Receive(j: nat) returns (e: Option<T>)
      requires j < |pending|
      modifies this
      ensures old(pending)[j] == [] ==> e == None && pending == old(pending)
      ensures old(pending)[j] != [] ==>
                e == Some(old(pending)[j][0]) && pending == old(pending)[j := old(pending)[j][1..]]
    {
      if |pending[j]| == 0 {
        return None;
      }
      e := Some(pending[j][0]);
      pending := pending[j := pending[j][1..]];
    }
  }

  // Row i: element i of every stream, or zero for a stream that is shorter.
  ghost predicate IsRow<T>(row: seq<T>, streams: seq<seq<T>>, zero: T, i: nat) {
    && |row| == |streams|
    && forall j | 0 <= j < |row| :: row[j] == if i < |streams[j]| then streams[j][i] else zero
  }

  ghost function MaxLength<T>(streams: seq<seq<T>>): nat {
    if streams == [] then 0
    else
      var rest := MaxLength(streams[..|streams| - 1]);
      if |streams[|streams| - 1]| <= rest then rest else |streams[|streams| - 1]|
  }

  lemma {:induction false} MaxLengthIs<T>(streams: seq<seq<T>>, m: nat)
    requires forall j | 0 <= j < |streams| :: |streams[j]| <= m
    requires m == 0 || exists j :: 0 <= j < |streams| && |streams[j]| == m
    ensures MaxLength(streams) == m
  {
    if streams != [] {
      var n := |streams| - 1;
      LengthsAreBounded(streams);
      MaxLengthAtMost(streams, m);
    }
  }

  lemma {:induction false} LengthsAreBounded<T>(streams: seq<seq<T>>)
    ensures forall j | 0 <= j < |streams| :: |streams[j]| <= MaxLength(streams)
  {
    if streams != [] {
      LengthsAreBounded(streams[..|streams| - 1]);
    }
  }

  lemma {:induction false} MaxLengthAtMost<T>(streams: seq<seq<T>>, m: nat)
    requires forall j | 0 <= j < |streams| :: |streams[j]| <= m
    ensures MaxLength(streams) <= m
  {
    if streams != [] {
      MaxLengthAtMost(streams[..|streams| - 1], m);
    }
  }

  ghost function Drop<T>(s: seq<T>, n: nat): seq<T> {
    if n <= |s| then s[n..] else []
  }

  // The first k outlets have given up r + 1 elements, or all they had; the others r.
  ghost predicate ConsumedTo<T>(pending: seq<seq<T>>, streams: seq<seq<T>>, r: nat, k: nat) {
    && |pending| == |streams|
    && forall j | 0 <= j < |pending| :: pending[j] == Drop(streams[j], if j < k then r + 1 else r)
  }

  // The outlets before n are drained after r rows.
  ghost predicate DrainedBefore<T>(streams: seq<seq<T>>, n: nat, r: nat)
    requires n <= |streams|
  {
    forall j | 0 <= j < n :: |streams[j]| <= r
  }

  lemma ReceivedOne<T>(pending: seq<seq<T>>, pending': seq<seq<T>>, streams: seq<seq<T>>, r: nat, k: nat)
    requires ConsumedTo(pending, streams, r, k) && k < |streams|
    requires pending' == if pending[k] == [] then pending else pending[k := pending[k][1..]]
    ensures ConsumedTo(pending', streams, r, k + 1)
    ensures pending[k] == [] <==> |streams[k]| <= r
    ensures pending[k] != [] ==> pending[k][0] == streams[k][r]
  {
  }

  // One read from each outlet of the tail, the outlets after n.
  method ReadTail<T>(outlets: Outlets<T>, zipped: array<T>, zero: T, n: nat, tail: seq<nat>,
                     ghost streams: seq<seq<T>>, ghost r: nat)
    requires n < zipped.Length == |streams| && |tail| == |streams| - (n + 1)
    requires forall i | 0 <= i < |tail| :: tail[i] == n + 1 + i
    requires ConsumedTo(outlets.pending, streams, r, n + 1)
    modifies outlets, zipped
    ensures ConsumedTo(outlets.pending, streams, r, |streams|)
    ensures forall j | 0 <= j <= n :: zipped[j] == old(zipped[j])
    ensures forall j | n < j < zipped.Length :: zipped[j] == if r < |streams[j]| then streams[j][r] else zero
  {
    for i := 0 to |tail|
      invariant ConsumedTo(outlets.pending, streams, r, n + 1 + i)
      invariant forall j | 0 <= j <= n :: zipped[j] == old(zipped[j])
      invariant forall j | n < j < n + 1 + i :: zipped[j] == if r < |streams[j]| then streams[j][r] else zero
    {
      ghost var before := outlets.pending;
      var e := outlets.Receive(tail[i]);
      ReceivedOne(before, outlets.pending, streams, r, n + 1 + i);
      zipped[i + n + 1] := if e.Some? then e.value else zero;
    }
  }

  // One row: the closed outlets' places filled with zero, then the head's element, then
  // what the tail yields.
  method ReadRow<T>(outlets: Outlets<T>, zero: T, n: nat, element: T, tail: seq<nat>, length: nat,
                    ghost streams: seq<seq<T>>, ghost r: nat)
    returns (row: seq<T>)
    requires n < length == |streams| && |tail| == |streams| - (n + 1)
    requires forall i | 0 <= i < |tail| :: tail[i] == n + 1 + i
    requires ConsumedTo(outlets.pending, streams, r, n + 1) && DrainedBefore(streams, n, r)
    requires r < |streams[n]| && element == streams[n][r]
    modifies outlets
    ensures ConsumedTo(outlets.pending, streams, r + 1, 0)
    ensures |row| == |streams|
    ensures forall j | 0 <= j < |row| :: row[j] == if r < |streams[j]| then streams[j][r] else zero
  {
    var zipped := new T[length](_ => zero);
    for j := 0 to n
      invariant outlets.pending == old(outlets.pending)
      invariant forall i | 0 <= i < length :: zipped[i] == zero
    {
      zipped[j] := zero;
    }
    zipped[n] := element;
    ReadTail(outlets, zipped, zero, n, tail, streams, r);
    row := zipped[..];
  }

  // A read from the head, which is outlet n: all the outlets before it are drained.
  method ReceiveHead<T>(outlets: Outlets<T>, head: nat, ghost streams: seq<seq<T>>, ghost r: nat)
    returns (element: Option<T>)
    requires head < |streams| && ConsumedTo(outlets.pending, streams, r, 0) && DrainedBefore(streams, head, r)
    modifies outlets
    ensures ConsumedTo(outlets.pending, streams, r, if element.Some? then head + 1 else 0)
    ensures element.Some? <==> r < |streams[head]|
    ensures element.Some? ==> element.value == streams[head][r]
  {
    ghost var before := outlets.pending;
    element := outlets.Receive(head);
    assert ConsumedTo(before, streams, r, head);
    ReceivedOne(before, outlets.pending, streams, r, head);
  }

  // The outputs so far are the combined rows, which are those of the streams.
  ghost predicate AreRows<T, R>(out: seq<R>, rows: seq<seq<T>>, combine: seq<T> -> R, zero: T, streams: seq<seq<T>>) {
    && |out| == |rows|
    && forall i | 0 <= i < |rows| :: IsRow(rows[i], streams, zero, i) && out[i] == combine(rows[i])
  }

  lemma RowsSnoc<T, R>(out: seq<R>, rows: seq<seq<T>>, row: seq<T>, combine: seq<T> -> R, zero: T, streams: seq<seq<T>>)
    requires AreRows(out, rows, combine, zero, streams) && IsRow(row, streams, zero, |rows|)
    ensures AreRows(out + [combine(row)], rows + [row], combine, zero, streams)
  {
  }

  // All the rows that have the head, outlet n, as their first open outlet.
  method ZipHead<T, R>(combine: seq<T> -> R, zero: T, outlets: Outlets<T>, n: nat, tail: seq<nat>, length: nat,
                       sent: seq<R>, ghost sentRows: seq<seq<T>>, ghost streams: seq<seq<T>>)
    returns (out: seq<R>, ghost rows: seq<seq<T>>)
    requires n < length == |streams| && |tail| == |streams| - (n + 1)
    requires forall i | 0 <= i < |tail| :: tail[i] == n + 1 + i
    requires ConsumedTo(outlets.pending, streams, |sent|, 0) && DrainedBefore(streams, n, |sent|)
    requires AreRows(sent, sentRows, combine, zero, streams)
    modifies outlets
    ensures ConsumedTo(outlets.pending, streams, |out|, 0)
    ensures |out| == if |streams[n]| <= |sent| then |sent| else |streams[n]|
    ensures AreRows(out, rows, combine, zero, streams)
  {
    out, rows := sent, sentRows;
    var element := ReceiveHead(outlets, n, streams, |out|);
    while element.Some?
      invariant ConsumedTo(outlets.pending, streams, |out|, if element.Some? then n + 1 else 0)
      invariant element.Some? <==> |out| < |streams[n]|
      invariant element.Some? ==> element.value == streams[n][|out|]
      invariant |sent| <= |out| && (|out| == |sent| || |out| <= |streams[n]|)
      invariant AreRows(out, rows, combine, zero, streams)
      decreases |streams[n]| - |out|
    {
      var row := ReadRow(outlets, zero, n, element.value, tail, length, streams, |out|);
      RowsSnoc(out, rows, row, combine, zero, streams);
      out, rows := out + [combine(row)], rows + [row];
      element := ReceiveHead(outlets, n, streams, |out|);
    }
  }

  // As many outputs as the longest stream has elements.  Output i is combine of a row with
  // one entry per outlet: element i of its stream, or zero if the stream is shorter.  Every
  // outlet is drained.
  method ZipWith<T, R>(combine: seq<T> -> R, zero: T, outlets: Outlets<T>)
    returns (out: seq<R>, ghost rows: seq<seq<T>>)
    requires 2 <= |outlets.pending|
    modifies outlets
    ensures |out| == |rows| == MaxLength(old(outlets.pending))
    ensures forall i | 0 <= i < |out| :: out[i] == combine(rows[i]) && |rows[i]| == |old(outlets.pending)|
    ensures forall i, j | 0 <= i < |rows| && 0 <= j < |rows[i]| ::
              rows[i][j] == if i < |old(outlets.pending)[j]| then old(outlets.pending)[j][i] else zero
    ensures |outlets.pending| == |old(outlets.pending)|
    ensures forall j | 0 <= j < |outlets.pending| :: outlets.pending[j] == []
  {
    var length := |outlets.pending|;
    ghost var streams := outlets.pending;
    out, rows := [], [];
    var head, tail := 0, seq(length - 1, i => i + 1);
    for n := 0 to length
      invariant n < length ==> head == n && |tail| == length - (n + 1)
      invariant n < length ==> forall i | 0 <= i < |tail| :: tail[i] == n + 1 + i
      invariant ConsumedTo(outlets.pending, streams, |out|, 0) && DrainedBefore(streams, n, |out|)
      invariant AreRows(out, rows, combine, zero, streams)
      invariant |out| == 0 || exists j :: 0 <= j < |streams| && |streams[j]| == |out|
    {
      out, rows := ZipHead(combine, zero, outlets, head, tail, length, out, rows, streams);
      if n == length - 1 {
        // the last outlet has been read
      } else if n == length - 2 {
        head, tail := n + 1, [];
      } else {
        head, tail := n + 1, tail[1..];
      }
    }
    MaxLengthIs(streams, |out|);
  }
}
