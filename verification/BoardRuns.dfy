/**
 The Board_power plugin over a run of calls: which samples a report is about.
 */
module BoardRuns {
  import opened Wrappers
  import opened BoardPower

  type Buffers = seq<Option<seq<Sample>>>

  predicate Sized(calls: seq<Buffers>, n: nat) {
    forall k :: 0 <= k < |calls| ==> |calls[k]| == n
  }

  /** The streams call k starts with. */
  function Before(streams: seq<seq<Sample>>, calls: seq<Buffers>, k: nat): (r: seq<seq<Sample>>)
    requires k <= |calls| && Sized(calls, |streams|)
    ensures |r| == |streams|
  {
    if k == 0 then streams else AfterCall(Before(streams, calls, k - 1), calls[k - 1])
  }

  /** The streams the report of call k is about. */
  function ReadAt(streams: seq<seq<Sample>>, calls: seq<Buffers>, k: nat): (r: seq<seq<Sample>>)
    requires k < |calls| && Sized(calls, |streams|)
    ensures |r| == |streams|
  {
    ReadBy(Before(streams, calls, k), calls[k])
  }

  // ---------- the plugin's hook, call after call ----------

  /** `reports[k]` is what call k put into the table, if it succeeded. */
  method SampleCalls(board: Board, calls: seq<Buffers>, events: seq<string>, values: array<real>)
    returns (reports: seq<Option<seq<real>>>)
    requires board.Valid() && board.Tracks() && |events| <= values.Length
    requires forall k :: 0 <= k < |calls| ==> board.Readable(calls[k])
    requires forall e :: e in events ==> Find(board.channels, e, 0).Some?
    modifies board`streams, board.value, board.nbSamples, values
    ensures board.Tracks() && |reports| == |calls| && Sized(calls, |old(board.streams)|)
    ensures board.streams == Before(old(board.streams), calls, |calls|)
    ensures forall k :: 0 <= k < |calls| ==> (reports[k].Some? <==> Succeeds(calls[k]))
    ensures forall k :: 0 <= k < |calls| && reports[k].Some? ==>
              Reported(board.channels, ReadAt(old(board.streams), calls, k), events, reports[k].value)
  {
    hide ReportOf, Before, Succeeds, AfterCall, ReadBy, Board.Readable, Board.DeviceTracks, Reported;
    ghost var start := board.streams;
    BuffersFit(board, calls);
    NoCallYet(start, calls);
    reports := [];
    var k := 0;
    while k < |calls|
      invariant 0 <= k <= |calls| && |reports| == k && board.Tracks()
      invariant Sized(calls, |start|) && board.streams == Before(start, calls, k)
      invariant forall j :: 0 <= j < k ==> (reports[j].Some? <==> Succeeds(calls[j]))
      invariant forall j :: 0 <= j < k && reports[j].Some? ==>
                  Reported(board.channels, ReadAt(start, calls, j), events, reports[j].value)
    {
      ghost var was := values[..];
      var ok := board.SampleAll(calls[k], events, values);
      NextCall(start, calls, k);
      if ok {
        IsReported(board.channels, ReadAt(start, calls, k), events, was, values[..|events|]);
      }
      reports := reports + [if ok then Some(values[..|events|]) else None];
      k := k + 1;
    }
  }

  /** The table holds every event's report; what it held before does not matter. */
  predicate Reported(rows: seq<seq<Channel>>, streams: seq<seq<Sample>>, events: seq<string>, report: seq<real>) {
    |report| == |events| && forall j :: 0 <= j < |events| ==> report[j] == ReportOf(rows, streams, events[j], 0.0)
  }

  lemma {:induction false} IsReported(rows: seq<seq<Channel>>, streams: seq<seq<Sample>>, events: seq<string>, was: seq<real>, report: seq<real>)
    requires |report| == |events| <= |was| && forall e :: e in events ==> Find(rows, e, 0).Some?
    requires forall j :: 0 <= j < |events| ==> report[j] == ReportOf(rows, streams, events[j], was[j])
    ensures Reported(rows, streams, events, report)
  {
    hide Find;
    forall j | 0 <= j < |events| ensures report[j] == ReportOf(rows, streams, events[j], 0.0) {
      assert events[j] in events;
    }
  }

  lemma BuffersFit(board: Board, calls: seq<Buffers>)
    requires board.Valid() && board.Tracks() && forall k :: 0 <= k < |calls| ==> board.Readable(calls[k])
    ensures Sized(calls, |board.streams|)
  {
  }

  lemma NoCallYet(streams: seq<seq<Sample>>, calls: seq<Buffers>)
    requires Sized(calls, |streams|)
    ensures Before(streams, calls, 0) == streams
  {
  }

  lemma NextCall(streams: seq<seq<Sample>>, calls: seq<Buffers>, k: nat)
    requires k < |calls| && Sized(calls, |streams|)
    ensures Before(streams, calls, k + 1) == AfterCall(Before(streams, calls, k), calls[k])
  {
  }

  // ---------- which samples a report is about ----------

  predicate Empty(streams: seq<seq<Sample>>) {
    forall d :: 0 <= d < |streams| ==> streams[d] == []
  }

  lemma {:induction false} DeliveredAt(streams: seq<seq<Sample>>, buffers: Buffers, n: nat, d: nat)
    requires n <= |buffers| == |streams| && AllRead(buffers, n) && d < |streams|
    ensures Delivered(streams, buffers, n)[d] == streams[d] + (if d < n then buffers[d].value else [])
  {
    if n > 0 {
      DeliveredAt(streams, buffers, n - 1, d);
    }
  }

  /** A report is about the buffers of its own call. */
  predicate OwnBuffers(streams: seq<seq<Sample>>, buffers: Buffers)
    requires |buffers| == |streams|
  {
    forall d :: 0 <= d < |streams| ==> buffers[d].Some? && ReadBy(streams, buffers)[d] == buffers[d].value
  }

  /** A successful call reports its own buffers if and only if nothing was left over. */
  lemma {:induction false} OwnBuffersIff(streams: seq<seq<Sample>>, buffers: Buffers)
    requires |buffers| == |streams| && Succeeds(buffers)
    ensures OwnBuffers(streams, buffers) <==> Empty(streams)
  {
    forall d | 0 <= d < |streams| ensures buffers[d].Some? && ReadBy(streams, buffers)[d] == streams[d] + buffers[d].value {
      DeliveredAt(streams, buffers, |buffers|, d);
    }
    forall d | 0 <= d < |streams| ensures ReadBy(streams, buffers)[d] == buffers[d].value <==> streams[d] == [] {
    }
  }

  /** Over a run that starts afresh: the report of a call is about its own buffers
      when it is the first or the call before it succeeded. */
  lemma {:induction false} ReportsAreIndependent(streams: seq<seq<Sample>>, calls: seq<Buffers>, k: nat)
    requires k < |calls| && Sized(calls, |streams|) && Empty(streams) && Succeeds(calls[k])
    requires k > 0 ==> Succeeds(calls[k - 1])
    ensures OwnBuffers(Before(streams, calls, k), calls[k])
  {
    OwnBuffersIff(Before(streams, calls, k), calls[k]);
  }

  /** After a failed call it is about that call's samples too. */
  lemma {:induction false} FailedCallMixes(x: seq<Sample>, y: seq<Sample>, z: seq<Sample>)
    ensures ReadAt([[], []], [[Some(x), None], [Some(y), Some(z)]], 1) == [x + y, z]
  {
    var first, second: Buffers := [Some(x), None], [Some(y), Some(z)];
    var calls := [first, second];
    ReadablesAre(first, 1);
    ReadablesAre(second, 2);
    var left := AfterCall([[], []], first);
    DeliveredAt([[], []], first, 1, 0);
    DeliveredAt([[], []], first, 1, 1);
    assert [] + x == x && left[0] == x && left[1] == [] + [] == [];
    assert left == [x, []];
    assert Before([[], []], calls, 0) == [[], []];
    assert Before([[], []], calls, 1) == left;
    DeliveredAt(left, second, 2, 0);
    DeliveredAt(left, second, 2, 1);
    assert [] + z == z;
  }

  // ---------- means over a run ----------

  /** Any number of finished scans. */
  predicate Whole(stream: seq<Sample>, channels: nat) {
    Scans(stream, channels) && NextChannel(stream, channels) == 0
  }

  /** Whole scans after whole scans are whole scans. */
  lemma {:induction false} WholeScansJoin(s: seq<Sample>, r: seq<Sample>, channels: nat)
    requires Whole(s, channels) && Scans(r, channels)
    ensures Scans(s + r, channels) && NextChannel(s + r, channels) == NextChannel(r, channels)
    decreases |r|
  {
    if r == [] {
      assert s + r == s;
    } else {
      var init := r[..|r| - 1];
      WholeScansJoin(s, init, channels);
      assert (s + r)[..|s + r| - 1] == s + init;
    }
  }

  predicate AllWhole(streams: seq<seq<Sample>>, channels: nat) {
    forall d :: 0 <= d < |streams| ==> Whole(streams[d], channels)
  }

  predicate WholeBuffers(buffers: Buffers, channels: nat) {
    forall d :: 0 <= d < |buffers| && buffers[d].Some? ==> Whole(buffers[d].value, channels)
  }

  lemma {:induction false} CallKeepsWhole(streams: seq<seq<Sample>>, buffers: Buffers, channels: nat)
    requires channels > 0 && |buffers| == |streams| && AllWhole(streams, channels) && WholeBuffers(buffers, channels)
    ensures AllWhole(ReadBy(streams, buffers), channels) && AllWhole(AfterCall(streams, buffers), channels)
  {
    hide Scans, NextChannel, Succeeds;
    var n := Readables(buffers);
    forall d | 0 <= d < |streams| ensures Whole(ReadBy(streams, buffers)[d], channels) {
      DeliveredAt(streams, buffers, n, d);
      if d < n {
        WholeScansJoin(streams[d], buffers[d].value, channels);
      } else {
        assert streams[d] + [] == streams[d];
      }
    }
    NoScans(channels);
  }

  lemma NoScans(channels: nat)
    requires channels > 0
    ensures Whole([], channels)
  {
  }

  lemma {:induction false} RunKeepsWhole(streams: seq<seq<Sample>>, calls: seq<Buffers>, channels: nat, k: nat)
    requires k <= |calls| && Sized(calls, |streams|) && channels > 0 && AllWhole(streams, channels)
    requires forall j :: 0 <= j < |calls| ==> WholeBuffers(calls[j], channels)
    ensures AllWhole(Before(streams, calls, k), channels)
  {
    hide Whole, WholeBuffers, AllWhole;
    if k > 0 {
      RunKeepsWhole(streams, calls, channels, k - 1);
      CallKeepsWhole(Before(streams, calls, k - 1), calls[k - 1], channels);
    }
  }

  /** With buffers of whole scans, failed calls or not, every report of a run is the
      scaled mean of the samples read since the last successful call. */
  lemma {:induction false} RunReportsMeans(rows: seq<seq<Channel>>, streams: seq<seq<Sample>>, calls: seq<Buffers>, channels: nat, k: nat, event: string)
    requires k < |calls| && |streams| == |rows| && Sized(calls, |streams|) && channels > 0 && AllWhole(streams, channels)
    requires forall j :: 0 <= j < |calls| ==> WholeBuffers(calls[j], channels)
    requires Find(rows, event, 0).Some?
    ensures var read := ReadAt(streams, calls, k);
            var (d, c) := Find(rows, event, 0).value;
            CountOf(read[d], c) > 0 ==>
              ReportOf(rows, read, event, 0.0) == (SumOf(read[d], c) as real) / (CountOf(read[d], c) as real) * rows[d][c].scale
  {
    hide ReportOf, Find, ReadBy, Before, WholeBuffers, Scans;
    RunKeepsWhole(streams, calls, channels, k);
    CallKeepsWhole(Before(streams, calls, k), calls[k], channels);
    var read := ReadAt(streams, calls, k);
    forall d | 0 <= d < |read| ensures InStep(read[d]) {
      ScansAreInStep(read[d], channels);
    }
    ReportIsScaledMean(rows, read, event, 0.0);
  }
}
