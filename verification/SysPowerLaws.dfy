/**
 The Linux_sys_power plugin's prices and names, in numbers and in letters: what a
 configuration prints, from the counters' own readings.
 */
module SysPowerLaws {
  import opened Wrappers
  import opened Unsigned
  import opened SysPower

  // ---------- prices over a run ----------

  /** Over a run each kilobyte read costs 0.0556 mJ and each written 0.0438 mJ. */
  lemma {:induction false} DiskPrice(rs: seq<Reading>)
    requires Monotone(rs)
    ensures var a, b := rs[0].io, rs[|rs| - 1].io;
            1024.0 * EnergySum(DISK, rs) == ((b.input - a.input) as real) * 0.0556 + ((b.output - a.output) as real) * 0.0438
  {
    DiskEnergyAddsUp(rs);
    GrowsFar(rs, |rs| - 1);
    DiskPriceOf(rs[0], rs[|rs| - 1]);
    hide EnergySum, DiskEnergy;
  }

  lemma {:induction false} DiskPriceOf(a: Reading, b: Reading)
    requires Grows(a, b) && Small(a, b)
    ensures 1024.0 * DiskEnergy(a.io, b.io)
         == ((b.io.input - a.io.input) as real) * 0.0556 + ((b.io.output - a.io.output) as real) * 0.0438
  {
    InRange(b.io.input - a.io.input);
    InRange(b.io.output - a.io.output);
    hide Wrap;
  }

  /** A kilobyte received costs 1400 / (1024 * 5.665) mJ, one sent 1800 / (1024 * 12.33) mJ. */
  lemma {:induction false} NetPrice(rs: seq<Reading>)
    requires Monotone(rs)
    ensures var a, b := rs[0].net, rs[|rs| - 1].net;
            1024.0 * EnergySum(WIFI, rs)
            == ((b.input - a.input) as real) * (1400.0 / 5800.96) + ((b.output - a.output) as real) * (1800.0 / 12625.92)
  {
    NetEnergyAddsUp(rs);
    GrowsFar(rs, |rs| - 1);
    NetPriceOf(rs[0], rs[|rs| - 1]);
    hide EnergySum, NetEnergy;
  }

  lemma {:induction false} NetPriceOf(a: Reading, b: Reading)
    requires Grows(a, b) && Small(a, b)
    ensures 1024.0 * NetEnergy(a.net, b.net)
         == ((b.net.input - a.net.input) as real) * (1400.0 / 5800.96) + ((b.net.output - a.net.output) as real) * (1800.0 / 12625.92)
  {
    InRange(b.net.input - a.net.input);
    InRange(b.net.output - a.net.output);
    hide Wrap;
  }

  /** A memory access costs 6.688 nJ: one for every 256 bytes of disk traffic, rounded
      down, and one for every counted miss. */
  lemma {:induction false} MemoryPriceOf(a: Reading, b: Reading)
    requires Grows(a, b) && Small(a, b)
    ensures 1000000.0 * Energy(MEMORY, a, b)
         == ((((b.io.input + b.io.output - a.io.input - a.io.output) / 256 + (b.memory - a.memory)) as real)) * 6.688
  {
    EnergyIs(a, b);
    AccessesAre(a, b);
    hide Accesses, MemoryEnergy;
  }

  // ---------- what is printed ----------

  /** The energy a name stands for, from the readings alone. */
  function Named(name: string, a: Reading, b: Reading): Option<real>
    requires Grows(a, b)
  {
    var cpu := b.cpu - a.cpu;
    var wifi := (((b.net.input - a.net.input) as real) * (1400.0 / 5800.96)
                 + ((b.net.output - a.net.output) as real) * (1800.0 / 12625.92)) / 1024.0;
    var memory := (((b.io.input + b.io.output - a.io.input - a.io.output) / 256 + (b.memory - a.memory)) as real) * 6.688 / 1000000.0;
    var disk := (((b.io.input - a.io.input) as real) * 0.0556 + ((b.io.output - a.io.output) as real) * 0.0438) / 1024.0;
    if name == "estimated_CPU_power" then Some(cpu)
    else if name == "estimated_wifi_power" then Some(wifi)
    else if name == "estimated_memory_power" then Some(memory)
    else if name == "estimated_disk_power" then Some(disk)
    else if name == "estimated_total_power" then Some(cpu + wifi + memory + disk)
    else None
  }

  lemma {:induction false} NamedIs(m: Metric, a: Reading, b: Reading)
    requires Grows(a, b) && Small(a, b)
    ensures Named(MetricName(m), a, b) == Some(Energy(m, a, b))
  {
    DiskPriceOf(a, b);
    NetPriceOf(a, b);
    MemoryPriceOf(a, b);
    hide DiskEnergy, NetEnergy, MemoryEnergy;
  }

  lemma {:induction false} NamedOnly(name: string, a: Reading, b: Reading)
    requires Grows(a, b) && Named(name, a, b).Some?
    ensures exists m: Metric :: MetricName(m) == name
  {
    if name == "estimated_CPU_power" { assert MetricName(CPU) == name; }
    else if name == "estimated_wifi_power" { assert MetricName(WIFI) == name; }
    else if name == "estimated_memory_power" { assert MetricName(MEMORY) == name; }
    else if name == "estimated_disk_power" { assert MetricName(DISK) == name; }
    else { assert MetricName(TOTAL) == name; }
  }

  /** The flag stands for these names, as a configuration leaves it. */
  ghost predicate AsksFor(flag: bv8, names: seq<string>) {
    forall m: Metric :: Has(flag, m) <==> MetricName(m) in names
  }

  /** A name is printed with a value if and only if it is asked for, it is one of the
      five, and the value is its energy over the interval and not negative. */
  lemma {:induction false} PrintedInFull(names: seq<string>, flag: bv8, a: Reading, b: Reading, name: string, v: real)
    requires a.time != b.time && Grows(a, b) && Small(a, b) && AsksFor(flag, names)
    ensures (name, v) in Report(flag, a, b)
       <==> name in names && Named(name, a, b).Some? && v == Named(name, a, b).value / (b.time - a.time) && v >= 0.0
  {
    hide Report, Named, MetricName, Has, Energy, Grows, Small;
    ReportIsExact(flag, a, b, (name, v));
    forall m: Metric ensures Named(MetricName(m), a, b) == Some(Energy(m, a, b)) {
      NamedIs(m, a, b);
    }
    if Named(name, a, b).Some? {
      NamedOnly(name, a, b);
    }
  }

  /** The plugin from its configuration to its first report. */
  method FirstReport(names: seq<string>, a: Reading, b: Reading) returns (printed: Option<seq<(string, real)>>)
    requires a.time != b.time && Grows(a, b) && Small(a, b)
    ensures printed.None? <==> forall name :: name in names ==> Named(name, a, b).None?
    ensures printed.Some? ==> forall name, v ::
              (name, v) in printed.value
              <==> name in names && Named(name, a, b).Some? && v == Named(name, a, b).value / (b.time - a.time) && v >= 0.0
  {
    hide Report, Named, MetricName, Has, Energy, Grows, Small;
    var plugin := new LinuxSysPower();
    NoFlag();
    var ok := plugin.Init(names, a);
    assert AsksFor(plugin.flag, names);
    KnownNames(plugin.flag, names, a, b);
    if !ok {
      return None;
    }
    plugin.Sample(b, a);
    var report := plugin.ToJson(a, b);
    forall name, v
      ensures (name, v) in report
              <==> name in names && Named(name, a, b).Some? && v == Named(name, a, b).value / (b.time - a.time) && v >= 0.0
    {
      PrintedInFull(names, plugin.flag, a, b, name, v);
    }
    return Some(report);
  }

  lemma NoFlag()
    ensures FlagOnly(0) && forall m: Metric :: !Has(0, m)
  {
  }

  lemma {:induction false} KnownNames(flag: bv8, names: seq<string>, a: Reading, b: Reading)
    requires Grows(a, b) && Small(a, b) && AsksFor(flag, names)
    ensures (exists m: Metric :: Has(flag, m)) <==> exists name :: name in names && Named(name, a, b).Some?
  {
    hide Named, MetricName, Has, Energy, Grows, Small;
    forall m: Metric ensures Named(MetricName(m), a, b) == Some(Energy(m, a, b)) {
      NamedIs(m, a, b);
    }
    forall name | Named(name, a, b).Some? ensures exists m: Metric :: MetricName(m) == name {
      NamedOnly(name, a, b);
    }
  }

  // ---------- the order of the table ----------

  function Rank(m: Metric): nat {
    if m == TOTAL then 0 else m + 1
  }

  /** The table lists the total, CPU, wireless, memory and disk, in this order. */
  lemma TableOrder(flag: bv8)
    ensures forall i, j :: 0 <= i < j < |Layout(flag)| ==> Rank(Layout(flag)[i]) < Rank(Layout(flag)[j])
  {
    hide Has;
  }
}
