/**
 The Board_power plugin: channel values averaged in place while a buffer is read,
 looked up by label, and reset.
 */
module BoardPower {
  import opened Wrappers

  // ---------- running means ----------

  /** One sample of a device: which of its channels, and the raw 16-bit value. */
  datatype Sample = Sample(ch: nat, raw: int)

  function Abs(x: int): nat {
    if x < 0 then -x else x
  }

  /** The magnitude is the sample or its negative, whichever is not negative. */
  lemma AbsIs(x: int)
    ensures Abs(x) >= x && Abs(x) >= -x && (Abs(x) == x || Abs(x) == -x)
  {
  }

  /** Samples of channel `ch` so far. */
  function CountOf(stream: seq<Sample>, ch: nat): nat {
    if stream == [] then 0
    else CountOf(stream[..|stream| - 1], ch) + if stream[|stream| - 1].ch == ch then 1 else 0
  }

  function SumOf(stream: seq<Sample>, ch: nat): nat {
    if stream == [] then 0
    else SumOf(stream[..|stream| - 1], ch) + if stream[|stream| - 1].ch == ch then Abs(stream[|stream| - 1].raw) else 0
  }

  /** The update every sample makes to its channel, `n` being the device's count. */
  function Updated(value: real, raw: int, n: nat): real
    requires n > 0
  {
    value + ((Abs(raw) as real) - value) / (n as real)
  }

  lemma UpdatedIs(value: real, raw: int, n: nat)
    requires n > 0
    ensures Updated(value, raw, n) == value + ((Abs(raw) as real) - value) / (n as real)
  {
  }

  /** The count divides every update, so a channel-0 sample must come first. */
  predicate StartsWithFirst(stream: seq<Sample>) {
    stream != [] ==> stream[0].ch == 0
  }

  lemma {:induction false} FirstCounted(stream: seq<Sample>)
    requires stream != [] && stream[0].ch == 0
    ensures CountOf(stream, 0) > 0
  {
    if |stream| > 1 {
      FirstCounted(stream[..|stream| - 1]);
    } else {
      assert stream[..0] == [];
    }
  }

  /** A channel's value after the stream: the count is that of channel 0. */
  function ValueOf(stream: seq<Sample>, ch: nat): real
    requires StartsWithFirst(stream)
  {
    if stream == [] then 0.0
    else
      var init, s := stream[..|stream| - 1], stream[|stream| - 1];
      FirstCounted(stream);
      if s.ch == ch then Updated(ValueOf(init, ch), s.raw, CountOf(stream, 0)) else ValueOf(init, ch)
  }

  /** What one more sample does to a channel's value and to the count. */
  lemma SampleCounted(stream: seq<Sample>, s: Sample)
    requires StartsWithFirst(stream + [s])
    ensures StartsWithFirst(stream) && CountOf(stream + [s], 0) > 0
    ensures CountOf(stream + [s], 0) == CountOf(stream, 0) + if s.ch == 0 then 1 else 0
    ensures forall ch: nat :: ValueOf(stream + [s], ch)
                          == if s.ch == ch then Updated(ValueOf(stream, ch), s.raw, CountOf(stream + [s], 0)) else ValueOf(stream, ch)
  {
    hide Updated;
    var longer := stream + [s];
    assert longer[..|longer| - 1] == stream;
    assert stream != [] ==> longer[0] == stream[0];
    FirstCounted(longer);
  }

  /** Whenever a channel is sampled it has been sampled as often as channel 0. */
  predicate InStep(stream: seq<Sample>)
    decreases |stream|
  {
    stream != [] ==>
      InStep(stream[..|stream| - 1]) && CountOf(stream, stream[|stream| - 1].ch) == CountOf(stream, 0)
  }

  lemma {:induction false} InStepStarts(stream: seq<Sample>)
    requires InStep(stream)
    ensures StartsWithFirst(stream)
    decreases |stream|
  {
    if |stream| > 1 {
      InStepStarts(stream[..|stream| - 1]);
    } else if |stream| == 1 {
      assert stream[..0] == [];
      assert CountOf([], stream[0].ch) == CountOf([], 0) == 0;
    }
  }

  /** `v` is the arithmetic mean of n numbers with this sum; of none it says nothing. */
  predicate IsMean(v: real, sum: nat, n: nat) {
    (n as real) * v == sum as real
  }

  lemma {:induction false} MeanStep(v: real, sum: nat, n: nat, raw: int)
    requires IsMean(v, sum, n)
    ensures IsMean(Updated(v, raw, n + 1), sum + Abs(raw), n + 1)
  {
    var x, m := Abs(raw) as real, (n + 1) as real;
    assert m * ((x - v) / m) == x - v;
    assert m * v == (n as real) * v + v;
  }

  lemma NoSamples()
    ensures IsMean(0.0, 0, 0)
  {
  }

  lemma MeanIsUnique(v: real, sum: nat, n: nat)
    requires n > 0 && IsMean(v, sum, n)
    ensures v == (sum as real) / (n as real)
  {
  }

  /** After every prefix of a stream in step, each channel's value is the mean of
      the absolute samples it has received. */
  lemma {:induction false} ValueIsMean(stream: seq<Sample>, ch: nat)
    requires InStep(stream)
    ensures StartsWithFirst(stream) && IsMean(ValueOf(stream, ch), SumOf(stream, ch), CountOf(stream, ch))
    decreases |stream|
  {
    hide Updated, IsMean;
    InStepStarts(stream);
    if stream == [] {
      NoSamples();
    } else {
      var init, s := stream[..|stream| - 1], stream[|stream| - 1];
      ValueIsMean(init, ch);
      FirstCounted(stream);
      if s.ch == ch {
        MeanStep(ValueOf(init, ch), SumOf(init, ch), CountOf(init, ch), s.raw);
      }
    }
  }

  // ---------- whole scans ----------

  /** The channel a device samples after this stream of scans. */
  function NextChannel(stream: seq<Sample>, channels: nat): nat {
    if stream == [] || stream[|stream| - 1].ch + 1 == channels then 0 else stream[|stream| - 1].ch + 1
  }

  /** Scans of a device: its channels in order from the first, over and over; the
      last scan may be unfinished. */
  predicate Scans(stream: seq<Sample>, channels: nat)
    decreases |stream|
  {
    channels > 0 && (stream != [] ==>
      Scans(stream[..|stream| - 1], channels)
      && stream[|stream| - 1].ch == NextChannel(stream[..|stream| - 1], channels))
  }

  lemma {:induction false} ScanCounts(stream: seq<Sample>, channels: nat)
    requires Scans(stream, channels)
    ensures var j := NextChannel(stream, channels);
            j < channels && forall ch :: 0 <= ch < channels ==>
              CountOf(stream, ch) == CountOf(stream, channels - 1) + if ch < j then 1 else 0
    decreases |stream|
  {
    if stream != [] {
      ScanCounts(stream[..|stream| - 1], channels);
    }
  }

  /** Scans that put channel 0 first are in step, so their values are means. */
  lemma {:induction false} ScansAreInStep(stream: seq<Sample>, channels: nat)
    requires Scans(stream, channels)
    ensures InStep(stream)
    decreases |stream|
  {
    if stream != [] {
      var init := stream[..|stream| - 1];
      ScansAreInStep(init, channels);
      ScanCounts(init, channels);
    }
  }

  // ---------- looking channels up by label ----------

  datatype Channel = Channel(name: string, scale: real)

  /** First index at or after c of a channel with this label, or the row's length. */
  function InRow(row: seq<Channel>, name: string, c: nat): (k: nat)
    requires c <= |row|
    ensures c <= k <= |row| && (k < |row| ==> row[k].name == name)
    decreases |row| - c
  {
    if c == |row| || row[c].name == name then c else InRow(row, name, c + 1)
  }

  /** Device and channel of the first match at or after device d. */
  function Find(rows: seq<seq<Channel>>, name: string, d: nat): (r: Option<(nat, nat)>)
    requires d <= |rows|
    ensures r.Some? ==> d <= r.value.0 < |rows| && r.value.1 < |rows[r.value.0]|
    decreases |rows| - d
  {
    if d == |rows| then None
    else if InRow(rows[d], name, 0) < |rows[d]| then Some((d, InRow(rows[d], name, 0)))
    else Find(rows, name, d + 1)
  }

  /** The first channel, device by device, that carries the label. */
  lemma {:induction false} FindIsFirst(rows: seq<seq<Channel>>, name: string, d: nat)
    requires d <= |rows|
    ensures Find(rows, name, d).None? <==>
            forall i, j :: d <= i < |rows| && 0 <= j < |rows[i]| ==> rows[i][j].name != name
    ensures Find(rows, name, d).Some? ==>
            var (i, j) := Find(rows, name, d).value;
            rows[i][j].name == name
            && (forall k, c :: d <= k < i && 0 <= c < |rows[k]| ==> rows[k][c].name != name)
            && (forall c :: 0 <= c < j ==> rows[i][c].name != name)
    decreases |rows| - d
  {
    if d < |rows| {
      NoneBefore(rows[d], name, 0);
      FindIsFirst(rows, name, d + 1);
    }
  }

  lemma {:induction false} NoneBefore(row: seq<Channel>, name: string, c: nat)
    requires c <= |row|
    ensures forall k :: c <= k < InRow(row, name, c) ==> row[k].name != name
    decreases |row| - c
  {
    if c < |row| && row[c].name != name { NoneBefore(row, name, c + 1); }
  }

  /** What an event reports: value times scale of the first channel with its label;
      an event nobody knows keeps its old value. */
  function ReportOf(rows: seq<seq<Channel>>, streams: seq<seq<Sample>>, event: string, before: real): real
  {
    match Find(rows, event, 0)
    case None => before
    case Some((d, c)) =>
      if d < |streams| && StartsWithFirst(streams[d]) then ValueOf(streams[d], c) * rows[d][c].scale else 0.0
  }

  /** With streams in step it is the mean of the samples times the scale. */
  lemma {:induction false} ReportIsScaledMean(rows: seq<seq<Channel>>, streams: seq<seq<Sample>>, event: string, before: real)
    requires |streams| == |rows| && forall d :: 0 <= d < |streams| ==> InStep(streams[d])
    requires Find(rows, event, 0).Some?
    ensures var (d, c) := Find(rows, event, 0).value;
            CountOf(streams[d], c) > 0 ==>
              ReportOf(rows, streams, event, before)
              == (SumOf(streams[d], c) as real) / (CountOf(streams[d], c) as real) * rows[d][c].scale
  {
    var (d, c) := Find(rows, event, 0).value;
    hide Find, IsMean;
    ValueIsMean(streams[d], c);
    if CountOf(streams[d], c) > 0 {
      MeanIsUnique(ValueOf(streams[d], c), SumOf(streams[d], c), CountOf(streams[d], c));
    }
  }

  // ---------- the plugin ----------

  class Board {
    const channels: seq<seq<Channel>>
    const nbChannels: nat
    const value: array2<real>
    const nbSamples: array<nat>
    /** What each device has delivered since the last reset. */
    ghost var streams: seq<seq<Sample>>

    ghost predicate Valid() {
      && value.Length0 == nbSamples.Length == |channels| && value.Length1 == nbChannels
      && forall d :: 0 <= d < |channels| ==> |channels[d]| == nbChannels
    }

    ghost predicate DeviceTracks(d: nat)
      requires Valid() && d < |channels|
      reads this`streams, value, nbSamples
    {
      && d < |streams| && StartsWithFirst(streams[d])
      && nbSamples[d] == CountOf(streams[d], 0)
      && forall c :: 0 <= c < nbChannels ==> value[d, c] == ValueOf(streams[d], c)
    }

    ghost predicate Tracks()
      requires Valid()
      reads this`streams, value, nbSamples
    {
      |streams| == |channels| && forall d :: 0 <= d < |channels| ==> DeviceTracks(d)
    }

    constructor (channels: seq<seq<Channel>>, nbChannels: nat)
      requires forall d :: 0 <= d < |channels| ==> |channels[d]| == nbChannels
      ensures Valid() && this.channels == channels && this.nbChannels == nbChannels && fresh(value) && fresh(nbSamples)
      ensures Tracks() && streams == seq(|channels|, _ => [])
    {
      this.channels, this.nbChannels := channels, nbChannels;
      value := new real[|channels|, nbChannels]((_, _) => 0.0);
      nbSamples := new nat[|channels|](_ => 0);
      streams := seq(|channels|, _ => []);
    }

    /** The callback for one sample of device d. */
    method PrintSample(d: nat, s: Sample)
      requires Valid() && Tracks() && d < |channels| && s.ch < nbChannels && StartsWithFirst(streams[d] + [s])
      modifies this`streams, value, nbSamples
      ensures Tracks() && streams == old(streams)[d := old(streams[d]) + [s]]
    {
      hide Updated, Abs, ValueOf, CountOf, StartsWithFirst;
      assert DeviceTracks(d);
      ghost var stream := streams[d] + [s];
      SampleCounted(streams[d], s);
      if s.ch == 0 {
        nbSamples[d] := nbSamples[d] + 1;
      }
      var before, n := value[d, s.ch], nbSamples[d];
      var next := before + ((Abs(s.raw) as real) - before) / (n as real);
      UpdatedIs(before, s.raw, n);
      value[d, s.ch] := next;
      streams := streams[d := stream];
      forall k | 0 <= k < |channels| ensures DeviceTracks(k) {
        assert old(DeviceTracks(k));
      }
    }

    method Lookup(name: string) returns (r: Option<(nat, nat)>)
      requires Valid()
      ensures r == Find(channels, name, 0)
    {
      var d := 0;
      while d < |channels|
        invariant 0 <= d <= |channels| && Find(channels, name, 0) == Find(channels, name, d)
      {
        var c := 0;
        while c < nbChannels
          invariant 0 <= c <= nbChannels && InRow(channels[d], name, 0) == InRow(channels[d], name, c)
        {
          if channels[d][c].name == name {
            break;
          }
          c := c + 1;
        }
        if c < nbChannels {
          return Some((d, c));
        }
        d := d + 1;
      }
      return None;
    }

    /** Accepts the requested events when each is the label of some channel. */
    method CreateEventSets(events: seq<string>) returns (ok: bool, data: seq<string>)
      requires Valid()
      ensures ok <==> forall e :: e in events ==> Find(channels, e, 0).Some?
      ensures ok ==> data == events
    {
      data := [];
      var i := 0;
      while i < |events|
        invariant 0 <= i <= |events| && data == events[..i]
        invariant forall k :: 0 <= k < i ==> Find(channels, events[k], 0).Some?
      {
        var found := Lookup(events[i]);
        if found.None? {
          assert events[i] in events;
          return false, data;
        }
        data := data + [events[i]];
        i := i + 1;
      }
      return true, data;
    }

    method Filter(events: seq<string>, values: array<real>)
      requires Valid() && Tracks() && |events| <= values.Length
      modifies values
      ensures Tracks() && forall k :: 0 <= k < |events| ==> values[k] == ReportOf(channels, streams, events[k], old(values[k]))
    {
      var i := 0;
      while i < |events|
        invariant 0 <= i <= |events| && Tracks()
        invariant forall k :: 0 <= k < i ==> values[k] == ReportOf(channels, streams, events[k], old(values[k]))
        invariant forall k :: i <= k < values.Length ==> values[k] == old(values[k])
      {
        var found := Lookup(events[i]);
        if found.Some? {
          var (d, c) := found.value;
          assert DeviceTracks(d);
          values[i] := value[d, c] * channels[d][c].scale;
        }
        i := i + 1;
      }
    }

    ghost predicate Cleared(d: nat)
      requires Valid() && d < |channels|
      reads value, nbSamples
    {
      nbSamples[d] == 0 && forall c :: 0 <= c < nbChannels ==> value[d, c] == 0.0
    }

    /** Forgets all samples. */
    method ResetMyChannelsValue()
      requires Valid()
      modifies this`streams, value, nbSamples
      ensures Tracks() && streams == seq(|channels|, _ => [])
    {
      var d := 0;
      while d < |channels|
        invariant 0 <= d <= |channels| && streams == old(streams)
        invariant forall k :: 0 <= k < d ==> Cleared(k)
      {
        ClearDevice(d);
        d := d + 1;
      }
      streams := seq(|channels|, _ => []);
      forall k | 0 <= k < |channels| ensures DeviceTracks(k) {
        assert Cleared(k);
      }
    }

    /** The loop body: one device's count and channel values go back to zero. */
    method ClearDevice(d: nat)
      requires Valid() && d < |channels|
      modifies value, nbSamples
      ensures Cleared(d) && forall k :: 0 <= k < |channels| && k != d && old(Cleared(k)) ==> Cleared(k)
    {
      nbSamples[d] := 0;
      var c := 0;
      while c < nbChannels
        invariant 0 <= c <= nbChannels && nbSamples[d] == 0
        invariant forall k :: 0 <= k < |channels| && k != d ==> nbSamples[k] == old(nbSamples[k])
        invariant forall k, x :: 0 <= k < |channels| && k != d && 0 <= x < nbChannels ==> value[k, x] == old(value[k, x])
        invariant forall x :: 0 <= x < c ==> value[d, x] == 0.0
      {
        value[d, c] := 0.0;
        c := c + 1;
      }
    }

    /** Buffers a device can deliver: known channels, channel 0 first. */
    ghost predicate Readable(buffers: seq<Option<seq<Sample>>>)
      requires Valid()
    {
      |buffers| == |channels| && forall d :: 0 <= d < |buffers| && buffers[d].Some? ==>
        StartsWithFirst(buffers[d].value) && forall s :: s in buffers[d].value ==> s.ch < nbChannels
    }

    method ReadBuffer(d: nat, buffer: seq<Sample>)
      requires Valid() && Tracks() && d < |channels| && StartsWithFirst(buffer)
      requires forall s :: s in buffer ==> s.ch < nbChannels
      modifies this`streams, value, nbSamples
      ensures Tracks() && streams == old(streams)[d := old(streams[d]) + buffer]
    {
      hide DeviceTracks;
      assert streams[d] + buffer[..0] == streams[d];
      assert StartsWithFirst(streams[d]) by { TracksStarts(d); }
      var i := 0;
      while i < |buffer|
        invariant 0 <= i <= |buffer| && Tracks() && |streams| == |old(streams)|
        invariant streams == old(streams)[d := old(streams[d]) + buffer[..i]]
      {
        assert (old(streams[d]) + buffer[..i]) + [buffer[i]] == old(streams[d]) + buffer[..i + 1];
        PrintSample(d, buffer[i]);
        i := i + 1;
      }
      assert buffer[..i] == buffer;
    }

    lemma TracksStarts(d: nat)
      requires Valid() && Tracks() && d < |channels|
      ensures StartsWithFirst(streams[d])
    {
      assert DeviceTracks(d);
    }

    /** One call: reads every device's buffer, then reports and resets. When a
        buffer cannot be refilled the call stops there, and what was read stays. */
    method SampleAll(buffers: seq<Option<seq<Sample>>>, events: seq<string>, values: array<real>) returns (ok: bool)
      requires Valid() && Tracks() && Readable(buffers) && |events| <= values.Length
      modifies this`streams, value, nbSamples, values
      ensures Tracks() && ok == Succeeds(buffers) && streams == AfterCall(old(streams), buffers)
      ensures !ok ==> values[..] == old(values[..])
      ensures ok ==> forall k :: 0 <= k < |events| ==>
                       values[k] == ReportOf(channels, ReadBy(old(streams), buffers), events[k], old(values[k]))
    {
      hide DeviceTracks;
      var d := 0;
      while d < |channels|
        invariant 0 <= d <= |channels| && Tracks() && AllRead(buffers, d) && streams == Delivered(old(streams), buffers, d)
        invariant values[..] == old(values[..])
      {
        if buffers[d].None? {
          ReadablesAre(buffers, d);
          return false;
        }
        ReadBuffer(d, buffers[d].value);
        d := d + 1;
      }
      ReadablesAre(buffers, d);
      Filter(events, values);
      ResetMyChannelsValue();
      return true;
    }
  }

  // ---------- one call and the next ----------

  predicate AllRead(buffers: seq<Option<seq<Sample>>>, n: nat)
    requires n <= |buffers|
  {
    forall d :: 0 <= d < n ==> buffers[d].Some?
  }

  /** The buffers in front of the first that cannot be refilled. */
  function Readables(buffers: seq<Option<seq<Sample>>>): (n: nat)
    ensures n <= |buffers| && (n < |buffers| ==> buffers[n].None?)
    ensures AllRead(buffers, n)
  {
    if buffers == [] || buffers[0].None? then 0 else 1 + Readables(buffers[1..])
  }

  lemma {:induction false} ReadablesAre(buffers: seq<Option<seq<Sample>>>, n: nat)
    requires n <= |buffers| && AllRead(buffers, n) && (n < |buffers| ==> buffers[n].None?)
    ensures Readables(buffers) == n
  {
    if n > 0 { ReadablesAre(buffers[1..], n - 1); }
  }

  /** A call succeeds when every buffer can be refilled. */
  predicate Succeeds(buffers: seq<Option<seq<Sample>>>) {
    Readables(buffers) == |buffers|
  }

  /** The streams once the first n devices have delivered their buffers. */
  function Delivered(streams: seq<seq<Sample>>, buffers: seq<Option<seq<Sample>>>, n: nat): (r: seq<seq<Sample>>)
    requires n <= |buffers| == |streams| && AllRead(buffers, n)
    ensures |r| == |streams|
  {
    if n == 0 then streams
    else
      var r := Delivered(streams, buffers, n - 1);
      r[n - 1 := r[n - 1] + buffers[n - 1].value]
  }

  /** What a call has read when it reports, or when it fails. */
  function ReadBy(streams: seq<seq<Sample>>, buffers: seq<Option<seq<Sample>>>): (r: seq<seq<Sample>>)
    requires |buffers| == |streams|
    ensures |r| == |streams|
  {
    Delivered(streams, buffers, Readables(buffers))
  }

  /** What it leaves for the next call: nothing, or all of that when it failed. */
  function AfterCall(streams: seq<seq<Sample>>, buffers: seq<Option<seq<Sample>>>): (r: seq<seq<Sample>>)
    requires |buffers| == |streams|
    ensures |r| == |streams|
  {
    if Succeeds(buffers) then seq(|streams|, _ => []) else ReadBy(streams, buffers)
  }
}
