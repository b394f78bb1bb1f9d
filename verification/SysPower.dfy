/**
 The Linux_sys_power plugin: which metrics are asked for is kept as bits of a
 flag, and three functions walk the same positional table by that flag.
 */
module SysPower {
  import opened Unsigned

  // ---------- metrics and flags ----------

  const METRICS := 5

  /** Index of a metric in the plugin's table of names. */
  type Metric = m: nat | m < METRICS

  const CPU: Metric := 0
  const WIFI: Metric := 1
  const MEMORY: Metric := 2
  const DISK: Metric := 3
  const TOTAL: Metric := 4

  const HAS_CPU_STAT: bv8 := 0x01
  const HAS_NET_STAT: bv8 := 0x02
  const HAS_RAM_STAT: bv8 := 0x04
  const HAS_IO_STAT: bv8 := 0x08
  const HAS_ALL: bv8 := 0x10

  function MetricName(m: Metric): string
  {
    match m
    case 0 => "estimated_CPU_power"
    case 1 => "estimated_wifi_power"
    case 2 => "estimated_memory_power"
    case 3 => "estimated_disk_power"
    case _ => "estimated_total_power"
  }

  lemma {:induction false} NamesDiffer(a: Metric, b: Metric)
    ensures MetricName(a) == MetricName(b) <==> a == b
  {
    NameMark(a);
    NameMark(b);
  }

  lemma {:induction false} NameMark(m: Metric)
    ensures |MetricName(m)| > 10
    ensures MetricName(m)[10] == match m case 0 => 'C' case 1 => 'w' case 2 => 'm' case 3 => 'd' case _ => 't'
  {
  }

  function Bit(m: Metric): bv8
  {
    match m
    case 0 => HAS_CPU_STAT
    case 1 => HAS_NET_STAT
    case 2 => HAS_RAM_STAT
    case 3 => HAS_IO_STAT
    case _ => HAS_ALL
  }

  predicate Has(flag: bv8, m: Metric)
  {
    flag & Bit(m) != 0
  }

  /** The five bits and no other. */
  predicate FlagOnly(flag: bv8) {
    flag & 0xE0 == 0
  }

  lemma {:induction false} ShiftIsBit(m: Metric)
    ensures (1 as bv8) << m == Bit(m)
  {
  }

  lemma {:induction false} OrBit(flag: bv8, k: Metric, m: Metric)
    ensures Has(flag | Bit(k), m) <==> Has(flag, m) || m == k
    ensures FlagOnly(flag) ==> FlagOnly(flag | Bit(k))
  {
  }

  lemma {:induction false} NoBits(flag: bv8)
    requires FlagOnly(flag)
    ensures flag == 0 <==> forall m: Metric :: !Has(flag, m)
  {
    assert Bit(0) == HAS_CPU_STAT && Bit(1) == HAS_NET_STAT && Bit(2) == HAS_RAM_STAT && Bit(3) == HAS_IO_STAT && Bit(4) == HAS_ALL;
    if flag != 0 {
      assert Has(flag, 0) || Has(flag, 1) || Has(flag, 2) || Has(flag, 3) || Has(flag, 4);
    }
  }

  // ---------- readings and energies ----------

  const L2CACHE_LINE_SIZE := 256
  const L2CACHE_MISS_LATENCY := 2.09
  const MEMORY_POWER := 3.2
  const E_DISK_R_PER_KB := 0.02 * 2.78
  const E_DISK_W_PER_KB := 0.02 * 2.19
  const E_NET_SND_PER_KB := 1800.0 / (1024.0 * 12.330)
  const E_NET_RCV_PER_KB := 1400.0 / (1024.0 * 5.665)

  datatype Bytes = Bytes(input: nat, output: nat)

  /** The clock and all counters at one moment. */
  datatype Reading = Reading(time: real, cpu: real, memory: nat, net: Bytes, io: Bytes)

  /** Cache lines moved by disk traffic. */
  function Lines(before: Bytes, after: Bytes): nat {
    Wrap(after.input + after.output - before.input - before.output) / L2CACHE_LINE_SIZE
  }

  function MemoryEnergy(io0: Bytes, io1: Bytes, mem0: nat, mem1: nat): real {
    (Wrap(Lines(io0, io1) + Wrap(mem1 - mem0)) as real) * L2CACHE_MISS_LATENCY * MEMORY_POWER * 0.000001
  }

  /** Traffic in two directions at its price per kilobyte. */
  function Traffic(x: int, y: int, priceX: real, priceY: real): real {
    ((x as real) * priceX + (y as real) * priceY) / 1024.0
  }

  function NetEnergy(before: Bytes, after: Bytes): real {
    Traffic(Wrap(after.input - before.input), Wrap(after.output - before.output), E_NET_RCV_PER_KB, E_NET_SND_PER_KB)
  }

  function DiskEnergy(before: Bytes, after: Bytes): real {
    Traffic(Wrap(after.input - before.input), Wrap(after.output - before.output), E_DISK_R_PER_KB, E_DISK_W_PER_KB)
  }

  /** Energy of a metric between two readings; the total is the sum of the other four. */
  function Energy(m: Metric, a: Reading, b: Reading): real
  {
    match m
    case 0 => b.cpu - a.cpu
    case 1 => NetEnergy(a.net, b.net)
    case 2 => MemoryEnergy(a.io, b.io, a.memory, b.memory)
    case 3 => DiskEnergy(a.io, b.io)
    case _ => (b.cpu - a.cpu) + MemoryEnergy(a.io, b.io, a.memory, b.memory) + NetEnergy(a.net, b.net) + DiskEnergy(a.io, b.io)
  }

  function Power(m: Metric, a: Reading, b: Reading): real
    requires a.time != b.time
  {
    Energy(m, a, b) / (b.time - a.time)
  }

  /** The table, metric by metric, in the order both branches of the code use. */
  function AddTotal(flag: bv8, ms: seq<Metric>): seq<Metric> {
    if Has(flag, TOTAL) then ms + [TOTAL] else ms
  }

  function AddCpu(flag: bv8, ms: seq<Metric>): seq<Metric> {
    if Has(flag, CPU) then ms + [CPU] else ms
  }

  function AddWifi(flag: bv8, ms: seq<Metric>): seq<Metric> {
    if Has(flag, WIFI) then ms + [WIFI] else ms
  }

  /** Memory and disk are sampled together when either is asked for. */
  function AddIo(flag: bv8, ms: seq<Metric>): seq<Metric> {
    if Has(flag, MEMORY) || Has(flag, DISK) then ms + [MEMORY] + [DISK] else ms
  }

  function Layout(flag: bv8): (ms: seq<Metric>)
    ensures |ms| <= METRICS
  {
    AddIo(flag, AddWifi(flag, AddCpu(flag, AddTotal(flag, []))))
  }

  // ---------- the plugin ----------

  const MAX_EVENTS := 32

  class LinuxSysPower {
    var flag: bv8
    const events: array<string>
    const values: array<real>
    var numEvents: nat
    var beforeTime: real
    var afterTime: real
    var cpuBefore: real
    var memoryBefore: nat
    var netBefore: Bytes
    var ioBefore: Bytes

    constructor ()
      ensures flag == 0 && events.Length == values.Length == MAX_EVENTS && fresh(events) && fresh(values)
    {
      flag, numEvents, beforeTime, afterTime := 0, 0, 0.0, 0.0;
      cpuBefore, memoryBefore, netBefore, ioBefore := 0.0, 0, Bytes(0, 0), Bytes(0, 0);
      events := new string[MAX_EVENTS](_ => "");
      values := new real[MAX_EVENTS](_ => 0.0);
    }

    /** The table starts with the names of `ms`. */
    ghost predicate Named(ms: seq<Metric>)
      reads events
    {
      |ms| <= events.Length && forall k :: 0 <= k < |ms| ==> events[k] == MetricName(ms[k])
    }

    /** The table starts with the powers of `ms` between the two readings. */
    ghost predicate Valued(ms: seq<Metric>, a: Reading, b: Reading)
      reads values
      requires a.time != b.time
    {
      |ms| <= values.Length && forall k :: 0 <= k < |ms| ==> values[k] == Power(ms[k], a, b)
    }

    /** Every counter the flag needs has its baseline at `r`. */
    ghost predicate Tracks(r: Reading)
      reads this
    {
      && beforeTime == r.time
      && (Has(flag, TOTAL) || Has(flag, CPU) ==> cpuBefore == r.cpu)
      && (Has(flag, TOTAL) || Has(flag, WIFI) ==> netBefore == r.net)
      && (Has(flag, TOTAL) || Has(flag, MEMORY) || Has(flag, DISK) ==> memoryBefore == r.memory && ioBefore == r.io)
    }

    ghost predicate Ready(r: Reading)
      reads this, events
    {
      numEvents == |Layout(flag)| && events.Length == values.Length == MAX_EVENTS && Named(Layout(flag)) && Tracks(r)
    }

    /** Adds the bit of each known name; unknown names are ignored. */
    method FlagInit(names: seq<string>) returns (ok: bool)
      requires FlagOnly(flag)
      modifies this`flag
      ensures FlagOnly(flag) && forall m: Metric :: (Has(flag, m) <==> old(Has(flag, m)) || MetricName(m) in names)
      ensures ok <==> exists m: Metric :: Has(flag, m)
    {
      hide Has, Bit, FlagOnly, MetricName;
      var i := 0;
      while i < |names|
        invariant 0 <= i <= |names| && FlagOnly(flag)
        invariant forall m: Metric :: (Has(flag, m) <==> old(Has(flag, m)) || MetricName(m) in names[..i])
      {
        var ii := 0;
        while ii < METRICS
          invariant 0 <= ii <= METRICS && FlagOnly(flag)
          invariant forall m: Metric ::
                      (Has(flag, m) <==> old(Has(flag, m)) || MetricName(m) in names[..i] || (m < ii && names[i] == MetricName(m)))
        {
          if names[i] == MetricName(ii as Metric) {
            var current: bv8 := 1 << ii;
            ShiftIsBit(ii);
            forall m: Metric ensures Has(flag | current, m) <==> Has(flag, m) || m == ii {
              OrBit(flag, ii, m);
            }
            OrBit(flag, ii, ii);
            flag := flag | current;
          }
          ii := ii + 1;
        }
        i := i + 1;
      }
      assert names[..i] == names;
      NoBits(flag);
      ok := flag != 0;
    }

    method AddEvent(i: nat, m: Metric, ghost ms: seq<Metric>)
      requires i == |ms| < events.Length && Named(ms)
      modifies events
      ensures Named(ms + [m])
    {
      events[i] := MetricName(m);
    }

    /** `r` is what the counters and the clock read. On failure nothing is set up. */
    method Init(names: seq<string>, r: Reading) returns (ok: bool)
      requires FlagOnly(flag) && events.Length == values.Length == MAX_EVENTS
      modifies this, events
      ensures FlagOnly(flag) && forall m: Metric :: (Has(flag, m) <==> old(Has(flag, m)) || MetricName(m) in names)
      ensures ok <==> exists m: Metric :: Has(flag, m)
      ensures ok ==> Ready(r)
    {
      ok := FlagInit(names);
      if ok {
        SetUp(r);
      }
    }

    method SetUp(r: Reading)
      requires events.Length == values.Length == MAX_EVENTS
      modifies this, events
      ensures flag == old(flag) && Ready(r)
    {
      hide Has, MetricName, Named;
      TakeBaselines(r);
      beforeTime := r.time;
      var n := NameMetrics();
      numEvents := n;
    }

    /** Fills the table's names; the total comes first when it is asked for. */
    method NameMetrics() returns (n: nat)
      requires events.Length == MAX_EVENTS
      modifies events
      ensures n == |Layout(flag)| && Named(Layout(flag))
    {
      hide Has, MetricName, Named, AddCpu, AddWifi, AddIo;
      assert Named([]) by { NothingNamed(); }
      n := AddIf(Has(flag, TOTAL), 0, TOTAL, []);
      n := NameRest(n, AddTotal(flag, []));
    }

    /** The names both branches add after the total. */
    method NameRest(start: nat, ghost ms: seq<Metric>) returns (n: nat)
      requires events.Length == MAX_EVENTS && start == |ms| <= 1 && Named(ms)
      modifies events
      ensures var all := AddIo(flag, AddWifi(flag, AddCpu(flag, ms))); n == |all| && Named(all)
    {
      hide Has, MetricName, Named, AddIo;
      n := AddIf(Has(flag, CPU), start, CPU, ms);
      n := AddIf(Has(flag, WIFI), n, WIFI, AddCpu(flag, ms));
      n := AddIoIf(n, AddWifi(flag, AddCpu(flag, ms)));
    }

    method AddIoIf(i: nat, ghost ms: seq<Metric>) returns (next: nat)
      requires i == |ms| && i + 1 < events.Length && Named(ms)
      modifies events
      ensures next == |AddIo(flag, ms)| && Named(AddIo(flag, ms))
    {
      hide Named, MetricName, Has;
      next := i;
      if Has(flag, MEMORY) || Has(flag, DISK) {
        AddEvent(i, MEMORY, ms);
        AddEvent(i + 1, DISK, ms + [MEMORY]);
        next := i + 2;
      }
    }

    method AddIf(wanted: bool, i: nat, m: Metric, ghost ms: seq<Metric>) returns (next: nat)
      requires i == |ms| < events.Length && Named(ms)
      modifies events
      ensures next == (if wanted then i + 1 else i) && Named(if wanted then ms + [m] else ms)
    {
      hide Named, MetricName;
      next := i;
      if wanted {
        AddEvent(i, m, ms);
        next := i + 1;
      }
    }

    /** Reads the counters the flag needs. */
    method TakeBaselines(r: Reading)
      modifies this`cpuBefore, this`memoryBefore, this`netBefore, this`ioBefore
      ensures Has(flag, TOTAL) || Has(flag, CPU) ==> cpuBefore == r.cpu
      ensures Has(flag, TOTAL) || Has(flag, WIFI) ==> netBefore == r.net
      ensures Has(flag, TOTAL) || Has(flag, MEMORY) || Has(flag, DISK) ==> memoryBefore == r.memory && ioBefore == r.io
    {
      hide Has;
      if Has(flag, TOTAL) {
        cpuBefore := r.cpu;
        memoryBefore := r.memory;
        netBefore := r.net;
        ioBefore := r.io;
      } else {
        if Has(flag, CPU) {
          cpuBefore := r.cpu;
        }
        if Has(flag, WIFI) {
          netBefore := r.net;
        }
        if Has(flag, MEMORY) || Has(flag, DISK) {
          memoryBefore := r.memory;
          ioBefore := r.io;
        }
      }
    }

    lemma NothingNamed()
      ensures Named([])
    {
    }

    lemma NothingValued(a: Reading, b: Reading)
      requires a.time != b.time
      ensures Valued([], a, b)
    {
    }

    /** Network energy since the last call; moves the baseline. */
    method SysNetEnergy(after: Bytes) returns (e: real)
      modifies this`netBefore
      ensures e == NetEnergy(old(netBefore), after) && netBefore == after
    {
      var rcv, snd := Wrap(after.input - netBefore.input), Wrap(after.output - netBefore.output);
      e := ((rcv as real) * E_NET_RCV_PER_KB + (snd as real) * E_NET_SND_PER_KB) / 1024.0;
      netBefore := after;
    }

    /** Disk energy since the last call; moves the baseline. */
    method SysDiskEnergy(after: Bytes) returns (e: real)
      modifies this`ioBefore
      ensures e == DiskEnergy(old(ioBefore), after) && ioBefore == after
    {
      var read, write := Wrap(after.input - ioBefore.input), Wrap(after.output - ioBefore.output);
      e := ((read as real) * E_DISK_R_PER_KB + (write as real) * E_DISK_W_PER_KB) / 1024.0;
      ioBefore := after;
    }

    /** Memory energy since the baselines, which must not have moved yet. */
    method SysMemoryEnergy(io: Bytes, memory: nat) returns (e: real)
      modifies this`memoryBefore
      ensures e == MemoryEnergy(ioBefore, io, old(memoryBefore), memory) && memoryBefore == memory
    {
      var lines := Wrap(io.input + io.output - ioBefore.input - ioBefore.output) / L2CACHE_LINE_SIZE;
      e := (Wrap(lines + Wrap(memory - memoryBefore)) as real) * L2CACHE_MISS_LATENCY * MEMORY_POWER * 0.000001;
      memoryBefore := memory;
    }

    method PutValue(i: nat, m: Metric, v: real, ghost ms: seq<Metric>, ghost a: Reading, ghost b: Reading)
      requires a.time != b.time && i == |ms| < values.Length
      requires Valued(ms, a, b) && v == Power(m, a, b)
      modifies values
      ensures Valued(ms + [m], a, b)
    {
      hide Power;
      values[i] := v;
    }

    /** One sample: the table holds the power of each of its metrics since the
        last reading `a`, and `b` becomes the baseline. */
    method Sample(b: Reading, ghost a: Reading)
      requires Ready(a) && a.time != b.time
      modifies this, values
      ensures flag == old(flag) && Ready(b) && Valued(Layout(flag), a, b)
    {
      hide Has, MetricName, Named, Valued;
      afterTime := b.time;
      if Has(flag, TOTAL) {
        SampleAll(b, a);
      } else {
        SampleSome(b, a);
      }
      beforeTime := afterTime;
    }

    method SampleAll(b: Reading, ghost a: Reading)
      requires values.Length == MAX_EVENTS && a.time != b.time && Has(flag, TOTAL)
      requires beforeTime == a.time && afterTime == b.time
      requires cpuBefore == a.cpu && memoryBefore == a.memory && netBefore == a.net && ioBefore == a.io
      modifies this`cpuBefore, this`memoryBefore, this`netBefore, this`ioBefore, values
      ensures cpuBefore == b.cpu && memoryBefore == b.memory && netBefore == b.net && ioBefore == b.io
      ensures Valued(Layout(flag), a, b)
    {
      hide Has, Valued, NetEnergy, DiskEnergy, MemoryEnergy;
      var interval := afterTime - beforeTime;
      var ecpu := b.cpu - cpuBefore;
      cpuBefore := b.cpu;
      var emem := SysMemoryEnergy(b.io, b.memory);
      var enet := SysNetEnergy(b.net);
      var edisk := SysDiskEnergy(b.io);
      var i := 0;
      assert Valued([], a, b) by { NothingValued(a, b); }
      PutValue(i, TOTAL, (ecpu + emem + enet + edisk) / interval, [], a, b);
      i := i + 1;
      ghost var ms := AddTotal(flag, []);
      assert i == |ms| && Valued(ms, a, b);
      if Has(flag, CPU) {
        PutValue(i, CPU, ecpu / interval, ms, a, b);
        i := i + 1;
      }
      ghost var m1 := AddCpu(flag, ms);
      assert i == |m1| && Valued(m1, a, b);
      if Has(flag, WIFI) {
        PutValue(i, WIFI, enet / interval, m1, a, b);
        i := i + 1;
      }
      ghost var m2 := AddWifi(flag, m1);
      assert i == |m2| && Valued(m2, a, b);
      if Has(flag, MEMORY) || Has(flag, DISK) {
        PutValue(i, MEMORY, emem / interval, m2, a, b);
        i := i + 1;
        PutValue(i, DISK, edisk / interval, m2 + [MEMORY], a, b);
        i := i + 1;
      }
      assert Valued(AddIo(flag, m2), a, b);
    }

    method SampleSome(b: Reading, ghost a: Reading)
      requires values.Length == MAX_EVENTS && a.time != b.time && !Has(flag, TOTAL)
      requires Tracks(a) && afterTime == b.time
      modifies this`cpuBefore, this`memoryBefore, this`netBefore, this`ioBefore, values
      ensures Has(flag, CPU) ==> cpuBefore == b.cpu
      ensures Has(flag, WIFI) ==> netBefore == b.net
      ensures Has(flag, MEMORY) || Has(flag, DISK) ==> memoryBefore == b.memory && ioBefore == b.io
      ensures Valued(Layout(flag), a, b)
    {
      hide Has, Valued, NetEnergy, DiskEnergy, MemoryEnergy;
      var interval := afterTime - beforeTime;
      var i := 0;
      ghost var ms := AddTotal(flag, []);
      assert i == |ms| && Valued(ms, a, b) by { NothingValued(a, b); }
      if Has(flag, CPU) {
        var ecpu := b.cpu - cpuBefore;
        cpuBefore := b.cpu;
        PutValue(i, CPU, ecpu / interval, ms, a, b);
        i := i + 1;
      }
      ghost var m1 := AddCpu(flag, ms);
      assert i == |m1| && Valued(m1, a, b);
      if Has(flag, WIFI) {
        var enet := SysNetEnergy(b.net);
        PutValue(i, WIFI, enet / interval, m1, a, b);
        i := i + 1;
      }
      ghost var m2 := AddWifi(flag, m1);
      assert i == |m2| && Valued(m2, a, b);
      if Has(flag, MEMORY) || Has(flag, DISK) {
        SampleIo(b, a, i, m2);
      }
      assert Valued(AddIo(flag, m2), a, b);
    }

    /** Memory, then disk: the disk energy moves the baseline the memory energy reads. */
    method SampleIo(b: Reading, ghost a: Reading, i: nat, ghost ms: seq<Metric>)
      requires a.time != b.time && beforeTime == a.time && afterTime == b.time
      requires memoryBefore == a.memory && ioBefore == a.io
      requires i == |ms| && i + 1 < values.Length && Valued(ms, a, b)
      modifies this`memoryBefore, this`ioBefore, values
      ensures memoryBefore == b.memory && ioBefore == b.io && Valued(ms + [MEMORY] + [DISK], a, b)
    {
      hide Has, Valued, NetEnergy, DiskEnergy, MemoryEnergy;
      var interval := afterTime - beforeTime;
      var emem := SysMemoryEnergy(b.io, b.memory);
      PutValue(i, MEMORY, emem / interval, ms, a, b);
      var edisk := SysDiskEnergy(b.io);
      PutValue(i + 1, DISK, edisk / interval, ms + [MEMORY], a, b);
    }

    /** A run of samples, each slot's powers summed over their intervals: what a slot
        adds up to is the energy sum of its metric. */
    method SampleRun(rs: seq<Reading>) returns (energies: seq<real>)
      requires rs != [] && Ready(rs[0]) && forall i :: 0 <= i < |rs| - 1 ==> rs[i].time != rs[i + 1].time
      modifies this, values
      ensures flag == old(flag) && Ready(rs[|rs| - 1]) && |energies| == |Layout(flag)|
      ensures forall k :: 0 <= k < |energies| ==> energies[k] == EnergySum(Layout(flag)[k], rs)
    {
      hide Has, MetricName, Named, Layout, Power, Energy, Tracks;
      energies := seq(numEvents, _ => 0.0);
      var n := 1;
      while n < |rs|
        invariant 1 <= n <= |rs| && flag == old(flag) && Ready(rs[n - 1]) && |energies| == |Layout(flag)|
        invariant forall k :: 0 <= k < |energies| ==> energies[k] == EnergySum(Layout(flag)[k], rs[..n])
      {
        ghost var a, b := rs[n - 1], rs[n];
        Sample(rs[n], a);
        assert rs[..n + 1] == rs[..n] + [b];
        energies := AddUp(energies, rs[n].time - rs[n - 1].time, a, b, rs[..n]);
        n := n + 1;
      }
      assert rs[..n] == rs;
    }

    method AddUp(energies: seq<real>, interval: real, ghost a: Reading, ghost b: Reading, ghost rs: seq<Reading>)
      returns (more: seq<real>)
      requires interval == b.time - a.time != 0.0 && |energies| == |Layout(flag)| && Valued(Layout(flag), a, b)
      requires rs != [] && rs[|rs| - 1] == a
      requires forall k :: 0 <= k < |energies| ==> energies[k] == EnergySum(Layout(flag)[k], rs)
      ensures |more| == |energies|
      ensures forall k :: 0 <= k < |more| ==> more[k] == EnergySum(Layout(flag)[k], rs + [b])
    {
      hide Has, Layout, Power, Energy, EnergySum;
      more := [];
      var i := 0;
      while i < |energies|
        invariant 0 <= i <= |energies| && |more| == i
        invariant forall k :: 0 <= k < i ==> more[k] == EnergySum(Layout(flag)[k], rs + [b])
      {
        PowerOverInterval(Layout(flag)[i], a, b);
        EnergyOfNext(Layout(flag)[i], rs, b);
        more := more + [energies[i] + values[i] * interval];
        i := i + 1;
      }
    }

    /** The name and value pairs printed, in table order; `a` and `b` are the last
        two readings. The four decimals of the text are not modelled. */
    method ToJson(ghost a: Reading, ghost b: Reading) returns (printed: seq<(string, real)>)
      requires Ready(b) && a.time != b.time && Valued(Layout(flag), a, b)
      ensures printed == Report(flag, a, b)
    {
      hide Has, MetricName, Layout, Power;
      ghost var ms := Layout(flag);
      printed := [];
      var i := 0;
      while i < numEvents
        invariant 0 <= i <= numEvents && printed == ReportOf(flag, ms[..i], a, b)
      {
        assert ms[..i + 1][..i] == ms[..i];
        assert events[i] == MetricName(ms[i]) && values[i] == Power(ms[i], a, b);
        NamesDiffer(ms[i], MEMORY);
        NamesDiffer(ms[i], DISK);
        if (events[i] == MetricName(MEMORY) && !Has(flag, MEMORY)) || (events[i] == MetricName(DISK) && !Has(flag, DISK)) {
          i := i + 1;
          continue;
        }
        if values[i] >= 0.0 {
          printed := printed + [(events[i], values[i])];
        }
        i := i + 1;
      }
      assert ms[..i] == ms;
    }
  }

  // ---------- what is printed ----------

  /** Memory and disk stand in the table together, but only the one asked for shows. */
  predicate Shown(flag: bv8, m: Metric) {
    !(m == MEMORY && !Has(flag, MEMORY)) && !(m == DISK && !Has(flag, DISK))
  }

  function ReportOf(flag: bv8, ms: seq<Metric>, a: Reading, b: Reading): seq<(string, real)>
    requires a.time != b.time
  {
    if ms == [] then []
    else
      var m := ms[|ms| - 1];
      ReportOf(flag, ms[..|ms| - 1], a, b)
      + if Shown(flag, m) && Power(m, a, b) >= 0.0 then [(MetricName(m), Power(m, a, b))] else []
  }

  function Report(flag: bv8, a: Reading, b: Reading): seq<(string, real)>
    requires a.time != b.time
  {
    ReportOf(flag, Layout(flag), a, b)
  }

  lemma {:induction false} ReportMembers(flag: bv8, ms: seq<Metric>, a: Reading, b: Reading, x: (string, real))
    requires a.time != b.time
    ensures x in ReportOf(flag, ms, a, b) <==>
            exists m :: m in ms && Shown(flag, m) && x == (MetricName(m), Power(m, a, b)) && x.1 >= 0.0
  {
    hide Power, MetricName, Shown;
    if ms != [] {
      var init, last := ms[..|ms| - 1], ms[|ms| - 1];
      assert ms == init + [last];
      ReportMembers(flag, init, a, b, x);
    }
  }

  lemma {:induction false} LayoutMembers(flag: bv8, m: Metric)
    ensures m in Layout(flag) && Shown(flag, m) <==> Has(flag, m)
  {
    hide Has;
  }

  /** Printed are exactly the metrics asked for whose power is not negative. */
  lemma {:induction false} ReportIsExact(flag: bv8, a: Reading, b: Reading, x: (string, real))
    requires a.time != b.time
    ensures x in Report(flag, a, b) <==>
            exists m: Metric :: Has(flag, m) && x == (MetricName(m), Power(m, a, b)) && x.1 >= 0.0
  {
    hide Power, MetricName, Shown, Has, Layout;
    ReportMembers(flag, Layout(flag), a, b, x);
    forall m: Metric ensures m in Layout(flag) && Shown(flag, m) <==> Has(flag, m) {
      LayoutMembers(flag, m);
    }
  }

  predicate Distinct(ms: seq<Metric>) {
    forall i, j :: 0 <= i < j < |ms| ==> ms[i] != ms[j]
  }

  /** No name is printed twice. */
  predicate NamesOnce(printed: seq<(string, real)>) {
    forall i, j :: 0 <= i < j < |printed| ==> printed[i].0 != printed[j].0
  }

  lemma {:induction false} NamesOnceGrows(flag: bv8, ms: seq<Metric>, a: Reading, b: Reading)
    requires a.time != b.time && Distinct(ms)
    ensures NamesOnce(ReportOf(flag, ms, a, b))
  {
    hide Power, MetricName, Shown;
    if ms != [] {
      var init, last := ms[..|ms| - 1], ms[|ms| - 1];
      NamesOnceGrows(flag, init, a, b);
      var r := ReportOf(flag, init, a, b);
      forall i | 0 <= i < |r| ensures r[i].0 != MetricName(last) {
        ReportMembers(flag, init, a, b, r[i]);
        var m :| m in init && r[i] == (MetricName(m), Power(m, a, b));
        NamesDiffer(m, last);
      }
    }
  }

  lemma LayoutDistinct(flag: bv8)
    ensures Distinct(Layout(flag))
  {
    hide Has;
  }

  lemma {:induction false} EachNameOnce(flag: bv8, a: Reading, b: Reading)
    requires a.time != b.time
    ensures NamesOnce(Report(flag, a, b))
  {
    hide Layout;
    LayoutDistinct(flag);
    NamesOnceGrows(flag, Layout(flag), a, b);
  }

  /** What is reported for a metric does not depend on what else is asked for. */
  lemma {:induction false} MetricIndependence(f: bv8, g: bv8, m: Metric, a: Reading, b: Reading, v: real)
    requires a.time != b.time && Has(f, m) && Has(g, m)
    ensures (MetricName(m), v) in Report(f, a, b) <==> (MetricName(m), v) in Report(g, a, b)
    ensures (MetricName(m), v) in Report(f, a, b) <==> v == Power(m, a, b) && v >= 0.0
  {
    ReportIsExact(f, a, b, (MetricName(m), v));
    ReportIsExact(g, a, b, (MetricName(m), v));
    hide Power, MetricName, Has, Report;
    forall k: Metric ensures MetricName(k) == MetricName(m) <==> k == m { NamesDiffer(k, m); }
  }

  /** The total is the sum of the four component powers. */
  lemma {:induction false} TotalIsSum(a: Reading, b: Reading)
    requires a.time != b.time
    ensures Power(TOTAL, a, b) == Power(CPU, a, b) + Power(WIFI, a, b) + Power(MEMORY, a, b) + Power(DISK, a, b)
  {
    hide NetEnergy, DiskEnergy, MemoryEnergy;
  }

  /** So the total one configuration prints is the sum of what any configurations
      print for the components. */
  lemma {:induction false} ReportedTotalIsSum(f: bv8, g: bv8, a: Reading, b: Reading, total: real, cpu: real, wifi: real, memory: real, disk: real)
    requires a.time != b.time && Has(f, TOTAL) && Has(g, CPU) && Has(g, WIFI) && Has(g, MEMORY) && Has(g, DISK)
    requires (MetricName(TOTAL), total) in Report(f, a, b)
    requires (MetricName(CPU), cpu) in Report(g, a, b) && (MetricName(WIFI), wifi) in Report(g, a, b)
    requires (MetricName(MEMORY), memory) in Report(g, a, b) && (MetricName(DISK), disk) in Report(g, a, b)
    ensures total == cpu + wifi + memory + disk
  {
    hide Report, Power, MetricName, Has;
    MetricIndependence(f, f, TOTAL, a, b, total);
    MetricIndependence(g, g, CPU, a, b, cpu);
    MetricIndependence(g, g, WIFI, a, b, wifi);
    MetricIndependence(g, g, MEMORY, a, b, memory);
    MetricIndependence(g, g, DISK, a, b, disk);
    TotalIsSum(a, b);
  }

  // ---------- energy over a run ----------

  predicate Grows(a: Reading, b: Reading) {
    && a.memory <= b.memory && a.net.input <= b.net.input && a.net.output <= b.net.output
    && a.io.input <= b.io.input && a.io.output <= b.io.output
  }

  /** Counters never run backwards, and the run is short enough for 64 bits. */
  predicate Monotone(rs: seq<Reading>) {
    && rs != []
    && (forall i :: 0 <= i < |rs| - 1 ==> Grows(rs[i], rs[i + 1]))
    && Small(rs[0], rs[|rs| - 1])
  }

  predicate Small(a: Reading, b: Reading) {
    && b.memory < U64 && b.net.input < U64 && b.net.output < U64 && b.io.input < U64 && b.io.output < U64
    && b.io.input + b.io.output - a.io.input - a.io.output + b.memory - a.memory < U64
  }

  lemma {:induction false} MonotoneInit(rs: seq<Reading>)
    requires Monotone(rs) && |rs| > 1
    ensures Monotone(rs[..|rs| - 1]) && Grows(rs[0], rs[|rs| - 2]) && Grows(rs[|rs| - 2], rs[|rs| - 1])
  {
    GrowsFar(rs, |rs| - 2);
  }

  lemma {:induction false} GrowsFar(rs: seq<Reading>, k: nat)
    requires k < |rs| && forall i :: 0 <= i < |rs| - 1 ==> Grows(rs[i], rs[i + 1])
    ensures Grows(rs[0], rs[k])
  {
    if k > 0 { GrowsFar(rs, k - 1); }
  }

  /** What a metric's samples report over a run, as energy. */
  function EnergySum(m: Metric, rs: seq<Reading>): real {
    if |rs| < 2 then 0.0 else EnergySum(m, rs[..|rs| - 1]) + Energy(m, rs[|rs| - 2], rs[|rs| - 1])
  }

  lemma PowerOverInterval(m: Metric, a: Reading, b: Reading)
    requires a.time != b.time
    ensures Power(m, a, b) * (b.time - a.time) == Energy(m, a, b)
  {
    hide Energy;
  }

  lemma EnergyOfNext(m: Metric, rs: seq<Reading>, b: Reading)
    requires rs != []
    ensures EnergySum(m, rs + [b]) == EnergySum(m, rs) + Energy(m, rs[|rs| - 1], b)
  {
    hide Energy;
    assert (rs + [b])[..|rs|] == rs;
  }

  lemma {:induction false} TrafficAdds(x: int, y: int, x': int, y': int, c: real, d: real)
    ensures Traffic(x + x', y + y', c, d) == Traffic(x, y, c, d) + Traffic(x', y', c, d)
  {
    assert ((x + x') as real) * c == (x as real) * c + (x' as real) * c;
    assert ((y + y') as real) * d == (y as real) * d + (y' as real) * d;
  }

  lemma {:induction false} BytesSplit(a: Bytes, b: Bytes, c: Bytes)
    requires a.input <= b.input <= c.input < U64 && a.output <= b.output <= c.output < U64
    ensures DiskEnergy(a, c) == DiskEnergy(a, b) + DiskEnergy(b, c)
    ensures NetEnergy(a, c) == NetEnergy(a, b) + NetEnergy(b, c)
  {
    hide Traffic;
    InRange(b.input - a.input);
    InRange(b.output - a.output);
    InRange(c.input - b.input);
    InRange(c.output - b.output);
    InRange(c.input - a.input);
    InRange(c.output - a.output);
    TrafficAdds(b.input - a.input, b.output - a.output, c.input - b.input, c.output - b.output, E_DISK_R_PER_KB, E_DISK_W_PER_KB);
    TrafficAdds(b.input - a.input, b.output - a.output, c.input - b.input, c.output - b.output, E_NET_RCV_PER_KB, E_NET_SND_PER_KB);
  }

  /** Disk energies of the samples add up exactly to the energy of the whole run. */
  lemma {:induction false} DiskEnergyAddsUp(rs: seq<Reading>)
    requires Monotone(rs)
    ensures EnergySum(DISK, rs) == DiskEnergy(rs[0].io, rs[|rs| - 1].io)
    decreases |rs|
  {
    if |rs| > 1 {
      MonotoneInit(rs);
      DiskEnergyAddsUp(rs[..|rs| - 1]);
      hide DiskEnergy;
      BytesSplit(rs[0].io, rs[|rs| - 2].io, rs[|rs| - 1].io);
    } else {
      NoTraffic(rs[0].io);
    }
  }

  /** So do network energies. */
  lemma {:induction false} NetEnergyAddsUp(rs: seq<Reading>)
    requires Monotone(rs)
    ensures EnergySum(WIFI, rs) == NetEnergy(rs[0].net, rs[|rs| - 1].net)
    decreases |rs|
  {
    if |rs| > 1 {
      MonotoneInit(rs);
      NetEnergyAddsUp(rs[..|rs| - 1]);
      hide NetEnergy;
      BytesSplit(rs[0].net, rs[|rs| - 2].net, rs[|rs| - 1].net);
    } else {
      NoTraffic(rs[0].net);
    }
  }

  lemma NoTraffic(a: Bytes)
    ensures DiskEnergy(a, a) == 0.0 && NetEnergy(a, a) == 0.0
  {
  }

  /** Memory accesses charged for one sample: cache lines of the disk traffic, each
      sample rounding down, and counted misses. */
  function Accesses(a: Reading, b: Reading): nat {
    Wrap(Lines(a.io, b.io) + Wrap(b.memory - a.memory))
  }

  function TotalAccesses(rs: seq<Reading>): nat {
    if |rs| < 2 then 0 else TotalAccesses(rs[..|rs| - 1]) + Accesses(rs[|rs| - 2], rs[|rs| - 1])
  }

  lemma {:induction false} AccessesAre(a: Reading, b: Reading)
    requires Grows(a, b) && Small(a, b)
    ensures Accesses(a, b) == (b.io.input + b.io.output - a.io.input - a.io.output) / 256 + (b.memory - a.memory)
  {
    InRange(b.io.input + b.io.output - a.io.input - a.io.output);
    InRange(b.memory - a.memory);
    InRange(Lines(a.io, b.io) + (b.memory - a.memory));
  }

  lemma {:induction false} RoundingLoss(rs: seq<Reading>)
    requires Monotone(rs) && |rs| > 1
    ensures TotalAccesses(rs) <= Accesses(rs[0], rs[|rs| - 1]) <= TotalAccesses(rs) + (|rs| - 2)
    decreases |rs|
  {
    MonotoneInit(rs);
    var a, b, c := rs[0], rs[|rs| - 2], rs[|rs| - 1];
    AccessesAre(b, c);
    AccessesAre(a, c);
    if |rs| > 2 {
      RoundingLoss(rs[..|rs| - 1]);
      AccessesAre(a, b);
    } else {
      assert TotalAccesses(rs[..1]) == 0;
    }
  }

  /** Energy of n memory accesses. */
  function AccessEnergy(n: int): real {
    (n as real) * L2CACHE_MISS_LATENCY * MEMORY_POWER * 0.000001
  }

  lemma AccessEnergyAdds(x: int, y: int)
    ensures AccessEnergy(x + y) == AccessEnergy(x) + AccessEnergy(y)
    ensures x <= y ==> AccessEnergy(x) <= AccessEnergy(y)
  {
  }

  lemma NoAccesses()
    ensures AccessEnergy(0) == 0.0
  {
  }

  /** Over n samples the memory energies fall short of the whole run's by less than
      n accesses, never exceeding it; the disk baseline must not move before. */
  lemma {:induction false} MemoryEnergyLoss(rs: seq<Reading>)
    requires Monotone(rs) && |rs| > 1
    ensures var a, b := rs[0], rs[|rs| - 1];
            var whole := MemoryEnergy(a.io, b.io, a.memory, b.memory);
            EnergySum(MEMORY, rs) <= whole <= EnergySum(MEMORY, rs) + AccessEnergy(|rs| - 2)
  {
    hide MemoryEnergy, Accesses, EnergySum, TotalAccesses, AccessEnergy, Monotone;
    RoundingLoss(rs);
    MemoryIsAccesses(rs);
    var a, b, n := rs[0], rs[|rs| - 1], |rs| - 2;
    EnergyIs(a, b);
    AccessEnergyAdds(TotalAccesses(rs), Accesses(a, b));
    AccessEnergyAdds(TotalAccesses(rs), n);
    AccessEnergyAdds(Accesses(a, b), TotalAccesses(rs) + n);
  }

  lemma EnergyIs(a: Reading, b: Reading)
    ensures MemoryEnergy(a.io, b.io, a.memory, b.memory) == AccessEnergy(Accesses(a, b))
  {
  }

  lemma {:induction false} MemoryIsAccesses(rs: seq<Reading>)
    ensures EnergySum(MEMORY, rs) == AccessEnergy(TotalAccesses(rs))
    decreases |rs|
  {
    hide MemoryEnergy, Accesses, AccessEnergy;
    NoAccesses();
    if |rs| > 1 {
      MemoryIsAccesses(rs[..|rs| - 1]);
      EnergyIs(rs[|rs| - 2], rs[|rs| - 1]);
      AccessEnergyAdds(TotalAccesses(rs[..|rs| - 1]), Accesses(rs[|rs| - 2], rs[|rs| - 1]));
    }
  }

  lemma {:induction false} CpuEnergyAddsUp(rs: seq<Reading>)
    requires rs != []
    ensures EnergySum(CPU, rs) == rs[|rs| - 1].cpu - rs[0].cpu
    decreases |rs|
  {
    if |rs| > 1 { CpuEnergyAddsUp(rs[..|rs| - 1]); }
  }

  lemma {:induction false} TotalIsSumOverRun(rs: seq<Reading>)
    ensures EnergySum(TOTAL, rs)
         == EnergySum(CPU, rs) + EnergySum(WIFI, rs) + EnergySum(MEMORY, rs) + EnergySum(DISK, rs)
    decreases |rs|
  {
    hide NetEnergy, DiskEnergy, MemoryEnergy;
    if |rs| > 1 { TotalIsSumOverRun(rs[..|rs| - 1]); }
  }

  /** So the total of a run is the total between its ends, up to the accesses lost. */
  lemma {:induction false} TotalEnergyLoss(rs: seq<Reading>)
    requires Monotone(rs) && |rs| > 1
    ensures var whole := Energy(TOTAL, rs[0], rs[|rs| - 1]);
            EnergySum(TOTAL, rs) <= whole <= EnergySum(TOTAL, rs) + AccessEnergy(|rs| - 2)
  {
    TotalIsSumOverRun(rs);
    CpuEnergyAddsUp(rs);
    NetEnergyAddsUp(rs);
    DiskEnergyAddsUp(rs);
    MemoryEnergyLoss(rs);
    hide NetEnergy, DiskEnergy, MemoryEnergy, EnergySum, AccessEnergy, Monotone;
  }
}
