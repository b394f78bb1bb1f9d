/**
 The power monitor of the user library: energy estimated from the time spent at
 each CPU frequency, and the acceptance of successive process statistics.
 */
module PowerMonitor {
  import opened Unsigned

  // ---------- energy from frequency tables ----------

  const MAX_ROWS := 16

  /** Power drawn at row i of n: from `max` in the first row down to `min` in the last. */
  function RowPower(max: real, min: real, i: nat, n: nat): real
    requires n >= 2
  {
    max - (max - min) * (i as real) / ((n - 1) as real)
  }

  /** Millijoules of a constant power over a time in units of 10 ms. */
  function Charge(power: real, time: nat): real {
    power * (time as real) * 10.0
  }

  /** Energy of the first i rows, each a time in units of 10 ms. */
  function EnergyTo(rows: seq<nat>, max: real, min: real, i: nat): real
    requires |rows| >= 2 && i <= |rows|
  {
    if i == 0 then 0.0
    else EnergyTo(rows, max, min, i - 1) + Charge(RowPower(max, min, i - 1, |rows|), rows[i - 1])
  }

  /** A table without rows gives nothing. One row alone has no power: see `Readable`. */
  function TableEnergy(rows: seq<nat>, max: real, min: real): real
    requires |rows| != 1
  {
    if rows == [] then 0.0 else EnergyTo(rows, max, min, |rows|)
  }

  function TablesEnergy(tables: seq<seq<nat>>, max: real, min: real): real
    requires Readable(tables)
  {
    if tables == [] then 0.0
    else TablesEnergy(tables[..|tables| - 1], max, min) + TableEnergy(Kept(tables[|tables| - 1]), max, min)
  }

  /** The reader stops after sixteen rows. */
  function Kept(rows: seq<nat>): seq<nat> {
    if |rows| <= MAX_ROWS then rows else rows[..MAX_ROWS]
  }

  /** A table of exactly one row makes the code divide by zero. */
  predicate Readable(tables: seq<seq<nat>>) {
    forall t :: t in tables ==> |t| != 1
  }

  /** `tables` holds the times of each CPU whose statistics file can be opened. */
  method CpuEnergy(tables: seq<seq<nat>>, max: real, min: real) returns (total: real)
    requires Readable(tables)
    ensures total == TablesEnergy(tables, max, min)
  {
    hide TableEnergy, Kept;
    total := 0.0;
    var range := max - min;
    var c := 0;
    while c < |tables|
      invariant 0 <= c <= |tables|
      invariant total == TablesEnergy(tables[..c], max, min)
    {
      assert tables[c] in tables;
      var freqs := ReadRows(tables[c]);
      total := AddRows(freqs, max, range, total, min);
      assert tables[..c + 1][..c] == tables[..c];
      c := c + 1;
    }
    assert tables[..c] == tables;
  }

  /** The reading loop over one CPU's rows: those behind the sixteenth do not count. */
  method ReadRows(rows: seq<nat>) returns (freqs: seq<nat>)
    ensures freqs == Kept(rows) == if |rows| <= 16 then rows else rows[..16]
  {
    freqs := [];
    var i := 0;
    while i < |rows| && i <= 15
      invariant 0 <= i <= |rows| && i <= MAX_ROWS && freqs == rows[..i]
    {
      freqs := freqs + [rows[i]];
      i := i + 1;
    }
  }

  /** The accumulation loop over one CPU's rows. */
  method AddRows(freqs: seq<nat>, max: real, range: real, before: real, ghost min: real) returns (total: real)
    requires |freqs| != 1 && range == max - min
    ensures total == before + TableEnergy(freqs, max, min)
  {
    hide RowPower;
    total := before;
    var maxI := |freqs| - 1;
    var i := 0;
    while i <= maxI
      invariant 0 <= i <= |freqs|
      invariant |freqs| >= 2 ==> total == before + EnergyTo(freqs, max, min, i)
      invariant freqs == [] ==> total == before
    {
      var power := max - range * (i as real) / (maxI as real);
      PowerIs(max, min, range, i, maxI);
      total := total + power * (freqs[i] as real) * 10.0;
      i := i + 1;
    }
  }

  lemma PowerIs(max: real, min: real, range: real, i: nat, last: int)
    requires last >= 1 && range == max - min
    ensures max - range * (i as real) / (last as real) == RowPower(max, min, i, last + 1)
  {
  }

  /** Each time weighed by its place: the first row counts `max`, the last `min`. */
  function Weighed(rows: seq<nat>, max: real, min: real, i: nat): real
    requires i <= |rows|
  {
    if i == 0 then 0.0
    else Weighed(rows, max, min, i - 1)
         + (max * ((|rows| - i) as real) + min * ((i - 1) as real)) * (rows[i - 1] as real)
  }

  lemma RowWeight(max: real, min: real, i: nat, n: nat, time: nat)
    requires n >= 2 && i < n
    ensures ((n - 1) as real) * Charge(RowPower(max, min, i, n), time)
         == 10.0 * ((max * ((n - 1 - i) as real) + min * (i as real)) * (time as real))
  {
    var d, x, m, t, w := max - min, i as real, (n - 1) as real, time as real, RowPower(max, min, i, n);
    assert m * (d * x / m) == d * x;
    assert m * w == max * m - d * x;
    assert d * x == max * x - min * x;
    assert max * (m - x) == max * m - max * x;
    assert (n - 1 - i) as real == m - x;
    var u := max * (m - x) + min * x;
    assert m * w == u;
    assert m * (w * t * 10.0) == (m * w) * t * 10.0;
  }

  /** The energy of n rows is exactly the straight line between `max` and `min` over
      their times, ten millijoules for each milliwatt and unit of time. */
  lemma {:induction false} EnergyIsLine(rows: seq<nat>, max: real, min: real, i: nat)
    requires |rows| >= 2 && i <= |rows|
    ensures ((|rows| - 1) as real) * EnergyTo(rows, max, min, i) == 10.0 * Weighed(rows, max, min, i)
  {
    hide RowPower, Charge;
    if i > 0 {
      EnergyIsLine(rows, max, min, i - 1);
      RowWeight(max, min, i - 1, |rows|, rows[i - 1]);
      Spread((|rows| - 1) as real, EnergyTo(rows, max, min, i - 1), Charge(RowPower(max, min, i - 1, |rows|), rows[i - 1]));
    }
  }

  lemma Spread(m: real, x: real, y: real)
    ensures m * (x + y) == m * x + m * y
  {
  }

  lemma {:induction false} TableIsLine(rows: seq<nat>, max: real, min: real)
    requires |rows| >= 2
    ensures ((|rows| - 1) as real) * TableEnergy(rows, max, min) == 10.0 * Weighed(rows, max, min, |rows|)
  {
    EnergyIsLine(rows, max, min, |rows|);
  }

  function Time(rows: seq<nat>): nat {
    if rows == [] then 0 else Time(rows[..|rows| - 1]) + rows[|rows| - 1]
  }

  lemma {:induction false} PowerInRange(max: real, min: real, i: nat, n: nat)
    requires n >= 2 && i < n && max >= min
    ensures min <= RowPower(max, min, i, n) <= max
  {
    var d, x, m := max - min, i as real, (n - 1) as real;
    assert 0.0 <= x <= m && m > 0.0;
    Share(d, x, m);
  }

  lemma {:induction false} Share(d: real, x: real, m: real)
    requires d >= 0.0 && 0.0 <= x <= m && m > 0.0
    ensures 0.0 <= d * x / m <= d
  {
    var q := d * x / m;
    assert q * m == d * x;
    assert 0.0 <= d * x <= d * m;
  }

  lemma {:induction false} Scale(lo: real, w: real, hi: real, t: nat)
    requires lo <= w <= hi
    ensures Charge(lo, t) <= Charge(w, t) <= Charge(hi, t)
  {
    var x := t as real;
    assert (w - lo) * x >= 0.0 && (hi - w) * x >= 0.0;
    assert (w - lo) * x == w * x - lo * x && (hi - w) * x == hi * x - w * x;
  }

  lemma {:induction false} EnergyToBounds(rows: seq<nat>, max: real, min: real, i: nat)
    requires |rows| >= 2 && i <= |rows| && max >= min
    ensures Charge(min, Time(rows[..i])) <= EnergyTo(rows, max, min, i) <= Charge(max, Time(rows[..i]))
  {
    hide RowPower, Charge;
    if i == 0 {
      assert Time(rows[..0]) == 0;
      NoCharge(min);
      NoCharge(max);
    } else {
      EnergyToBounds(rows, max, min, i - 1);
      var w, t := RowPower(max, min, i - 1, |rows|), rows[i - 1];
      PowerInRange(max, min, i - 1, |rows|);
      Scale(min, w, max, t);
      assert rows[..i][..i - 1] == rows[..i - 1];
      ChargeAdds(min, Time(rows[..i - 1]), t);
      ChargeAdds(max, Time(rows[..i - 1]), t);
    }
  }

  lemma NoCharge(power: real)
    ensures Charge(power, 0) == 0.0
  {
  }

  lemma ChargeAdds(power: real, x: nat, y: nat)
    ensures Charge(power, x + y) == Charge(power, x) + Charge(power, y)
  {
  }

  /** A table's energy lies between the lowest and the highest power over its time. */
  lemma {:induction false} EnergyBounds(rows: seq<nat>, max: real, min: real)
    requires |rows| != 1 && max >= min
    ensures Charge(min, Time(rows)) <= TableEnergy(rows, max, min) <= Charge(max, Time(rows))
    ensures min * (Time(rows) as real) * 10.0 <= TableEnergy(rows, max, min) <= max * (Time(rows) as real) * 10.0
  {
    if rows != [] {
      hide EnergyTo, Time, Charge;
      EnergyToBounds(rows, max, min, |rows|);
      assert rows[..|rows|] == rows;
    }
  }

  /** More time in any state never means less energy. */
  lemma {:induction false} EnergyGrows(rows: seq<nat>, more: seq<nat>, max: real, min: real, i: nat)
    requires |rows| == |more| >= 2 && i <= |rows| && max >= min >= 0.0
    requires forall k :: 0 <= k < |rows| ==> rows[k] <= more[k]
    ensures EnergyTo(rows, max, min, i) <= EnergyTo(more, max, min, i)
  {
    hide RowPower, Charge;
    if i > 0 {
      EnergyGrows(rows, more, max, min, i - 1);
      PowerInRange(max, min, i - 1, |rows|);
      var w := RowPower(max, min, i - 1, |rows|);
      Longer(w, rows[i - 1], more[i - 1]);
    }
  }

  lemma Longer(w: real, x: nat, y: nat)
    requires w >= 0.0 && x <= y
    ensures Charge(w, x) <= Charge(w, y)
  {
    assert w * ((y - x) as real) >= 0.0;
    assert w * (y as real) == w * (x as real) + w * ((y - x) as real);
  }

  /** As many CPUs with as many rows, none with less time in any. */
  predicate NoLess(tables: seq<seq<nat>>, more: seq<seq<nat>>) {
    |tables| == |more| && forall c :: 0 <= c < |tables| ==> RowsNoLess(tables[c], more[c])
  }

  predicate RowsNoLess(rows: seq<nat>, more: seq<nat>) {
    |rows| == |more| && forall k :: 0 <= k < |rows| ==> rows[k] <= more[k]
  }

  /** So it is over all CPUs. */
  lemma {:induction false} TotalGrows(tables: seq<seq<nat>>, more: seq<seq<nat>>, max: real, min: real)
    requires Readable(tables) && Readable(more) && NoLess(tables, more) && max >= min >= 0.0
    ensures TablesEnergy(tables, max, min) <= TablesEnergy(more, max, min)
    decreases |tables|
  {
    if tables != [] {
      hide EnergyTo;
      var c := |tables| - 1;
      assert tables[c] in tables && more[c] in more && RowsNoLess(tables[c], more[c]);
      TotalGrows(tables[..c], more[..c], max, min);
      var rows, longer := Kept(tables[c]), Kept(more[c]);
      if rows != [] {
        EnergyGrows(rows, longer, max, min, |rows|);
      }
    }
  }

  function TotalTime(tables: seq<seq<nat>>): nat {
    if tables == [] then 0 else TotalTime(tables[..|tables| - 1]) + Time(Kept(tables[|tables| - 1]))
  }

  /** So does the energy of all CPUs together. */
  lemma {:induction false} TotalBounds(tables: seq<seq<nat>>, max: real, min: real)
    requires Readable(tables) && max >= min
    ensures Charge(min, TotalTime(tables)) <= TablesEnergy(tables, max, min) <= Charge(max, TotalTime(tables))
    decreases |tables|
  {
    if tables == [] {
      NoCharge(min);
      NoCharge(max);
    } else {
      hide TableEnergy, Time, Charge;
      var init, last := tables[..|tables| - 1], tables[|tables| - 1];
      assert last in tables;
      TotalBounds(init, max, min);
      EnergyBounds(Kept(last), max, min);
      ChargeAdds(min, TotalTime(init), Time(Kept(last)));
      ChargeAdds(max, TotalTime(init), Time(Kept(last)));
    }
  }

  // ---------- accepting samples ----------

  datatype Stats = Stats(sysItv: nat, sysRuntime: nat, pidRuntime: nat, readBytes: nat, writeBytes: nat,
                         cancelledWrites: nat, cacheMisses: nat, cpuEnergy: real)

  const COUNTERS := 7

  function Counter(s: Stats, k: nat): nat
    requires k < COUNTERS
  {
    match k
    case 0 => s.sysItv
    case 1 => s.sysRuntime
    case 2 => s.pidRuntime
    case 3 => s.readBytes
    case 4 => s.writeBytes
    case 5 => s.cancelledWrites
    case _ => s.cacheMisses
  }

  predicate Accepted(before: Stats, after: Stats) {
    after.sysItv > before.sysItv && after.sysRuntime > before.sysRuntime
  }

  /** The increments between two samples, as 64-bit differences. */
  function Delta(a: Stats, b: Stats): Stats {
    Stats(Wrap(b.sysItv - a.sysItv), Wrap(b.sysRuntime - a.sysRuntime), Wrap(b.pidRuntime - a.pidRuntime),
          Wrap(b.readBytes - a.readBytes), Wrap(b.writeBytes - a.writeBytes),
          Wrap(b.cancelledWrites - a.cancelledWrites), Wrap(b.cacheMisses - a.cacheMisses), b.cpuEnergy - a.cpuEnergy)
  }

  lemma DeltaCounts(a: Stats, b: Stats, k: nat)
    requires k < COUNTERS
    ensures Counter(Delta(a, b), k) == Wrap(Counter(b, k) - Counter(a, k))
  {
  }

  class Monitor {
    var before: Stats
    var delta: Stats

    /** Accepts a sample whose clocks have moved: every counter of `delta` becomes
        its increment and the sample the new baseline. Otherwise nothing changes. */
    method CalculateAndUpdate(after: Stats) returns (ok: bool)
      modifies this
      ensures ok <==> after.sysItv > old(before).sysItv && after.sysRuntime > old(before).sysRuntime
      ensures !ok ==> before == old(before) && delta == old(delta)
      ensures ok ==> before == after && delta.cpuEnergy == after.cpuEnergy - old(before).cpuEnergy
                     && delta == Delta(old(before), after)
                     && forall k :: 0 <= k < COUNTERS ==> Counter(delta, k) == Wrap(Counter(after, k) - Counter(old(before), k))
    {
      if after.sysItv <= before.sysItv {
        return false;
      }
      if after.sysRuntime <= before.sysRuntime {
        return false;
      }
      delta := Stats(Wrap(after.sysItv - before.sysItv), Wrap(after.sysRuntime - before.sysRuntime),
                     Wrap(after.pidRuntime - before.pidRuntime), Wrap(after.readBytes - before.readBytes),
                     Wrap(after.writeBytes - before.writeBytes), Wrap(after.cancelledWrites - before.cancelledWrites),
                     Wrap(after.cacheMisses - before.cacheMisses), after.cpuEnergy - before.cpuEnergy);
      before := after;
      return true;
    }

    /** The sampling loop: a rejected sample reports nothing. */
    method Watch(samples: seq<Stats>) returns (reports: seq<Stats>)
      modifies this
      ensures before == Baseline(old(before), samples) && reports == Reports(old(before), samples)
    {
      hide Delta, Counter;
      reports := [];
      var i := 0;
      while i < |samples|
        invariant 0 <= i <= |samples|
        invariant before == Baseline(old(before), samples[..i]) && reports == Reports(old(before), samples[..i])
      {
        assert samples[..i + 1][..i] == samples[..i];
        var ok := CalculateAndUpdate(samples[i]);
        if ok {
          reports := reports + [delta];
        }
        i := i + 1;
      }
      assert samples[..i] == samples;
    }
  }

  /** The baseline after a run of samples. */
  function Baseline(b: Stats, samples: seq<Stats>): Stats {
    if samples == [] then b
    else
      var a := Baseline(b, samples[..|samples| - 1]);
      if Accepted(a, samples[|samples| - 1]) then samples[|samples| - 1] else a
  }

  /** The increments a run reports, one for each accepted sample. */
  function Reports(b: Stats, samples: seq<Stats>): seq<Stats> {
    if samples == [] then []
    else
      var init, s := samples[..|samples| - 1], samples[|samples| - 1];
      var a := Baseline(b, init);
      Reports(b, init) + if Accepted(a, s) then [Delta(a, s)] else []
  }

  function CounterSum(reports: seq<Stats>, k: nat): nat
    requires k < COUNTERS
  {
    if reports == [] then 0
    else CounterSum(reports[..|reports| - 1], k) + Counter(reports[|reports| - 1], k)
  }

  function EnergySum(reports: seq<Stats>): real {
    if reports == [] then 0.0 else EnergySum(reports[..|reports| - 1]) + reports[|reports| - 1].cpuEnergy
  }

  lemma SumsGrow(reports: seq<Stats>, d: Stats)
    ensures forall k: nat :: k < COUNTERS ==> CounterSum(reports + [d], k) == CounterSum(reports, k) + Counter(d, k)
    ensures EnergySum(reports + [d]) == EnergySum(reports) + d.cpuEnergy
  {
    hide Counter;
    assert (reports + [d])[..|reports|] == reports;
  }

  /** Whatever is rejected on the way, the reported increments of every counter sum,
      in 64-bit arithmetic, to the last accepted value minus the first baseline. */
  lemma {:induction false} IncrementsAddUp(b: Stats, samples: seq<Stats>, k: nat)
    requires k < COUNTERS
    ensures Wrap(CounterSum(Reports(b, samples), k)) == Wrap(Counter(Baseline(b, samples), k) - Counter(b, k))
    decreases |samples|
  {
    hide Counter, Accepted, Wrap, Delta, CounterSum;
    if samples == [] {
      NothingReported(k);
      InRange(0);
    } else {
      var init, s := samples[..|samples| - 1], samples[|samples| - 1];
      IncrementsAddUp(b, init, k);
      assert Reports(b, init) + [] == Reports(b, init);
      var a := Baseline(b, init);
      if Accepted(a, s) {
        SumsGrow(Reports(b, init), Delta(a, s));
        DeltaCounts(a, s, k);
        ChainedSub(CounterSum(Reports(b, init), k), Counter(b, k), Counter(a, k), Counter(s, k));
      }
    }
  }

  /** In numbers: the sum and the difference differ by a multiple of 2^64. */
  lemma {:induction false} IncrementsModulo(b: Stats, samples: seq<Stats>, k: nat)
    requires k < COUNTERS
    ensures (CounterSum(Reports(b, samples), k) - (Counter(Baseline(b, samples), k) - Counter(b, k)))
            % 0x1_0000_0000_0000_0000 == 0
  {
    IncrementsAddUp(b, samples, k);
    hide Counter, CounterSum, Reports, Baseline;
  }

  lemma NothingReported(k: nat)
    requires k < COUNTERS
    ensures CounterSum([], k) == 0
  {
  }

  lemma {:induction false} ChainedSub(total: nat, x: nat, y: nat, z: nat)
    requires Wrap(total) == Wrap(y - x)
    ensures Wrap(total + Wrap(z - y)) == Wrap(z - x)
  {
    hide Wrap;
    WrapAdds(total, z - y);
    WrapAdds(z - y, total);
    WrapAdds(z - y, y - x);
  }

  lemma {:induction false} EnergyAddsUp(b: Stats, samples: seq<Stats>)
    ensures EnergySum(Reports(b, samples)) == Baseline(b, samples).cpuEnergy - b.cpuEnergy
    decreases |samples|
  {
    if samples != [] {
      var init, s := samples[..|samples| - 1], samples[|samples| - 1];
      EnergyAddsUp(b, init);
      assert Reports(b, init) + [] == Reports(b, init);
      SumsGrow(Reports(b, init), Delta(Baseline(b, init), s));
    }
  }

  /** The baseline is the first one or one of the samples, and every report moves
      both of its clocks strictly forward. */
  lemma {:induction false} ClocksAdvance(b: Stats, samples: seq<Stats>)
    ensures var r, n := Baseline(b, samples), |Reports(b, samples)|;
            (r == b || r in samples) && r.sysItv >= b.sysItv + n && r.sysRuntime >= b.sysRuntime + n
            && (n == 0 ==> r == b)
    decreases |samples|
  {
    hide Delta;
    if samples != [] {
      ClocksAdvance(b, samples[..|samples| - 1]);
    }
  }
}
