/**
 The RAPL_power plugin: a table laid out in blocks, one slot for each socket, and
 a sampling walk that finds its way by the names it meets.
 */
module RaplPower {
  import opened Wrappers
  import opened Search

  datatype Domain = Package | Dram

  const MAX_EVENTS := 32
  const MAX_SOCKETS := 4

  /** The metric a configuration names for a domain. */
  function MetricOf(d: Domain): string {
    match d
    case Package => "total_power"
    case Dram => "dram_power"
  }

  function Digit(n: nat): char
    requires n < MAX_SOCKETS
  {
    match n
    case 0 => '0'
    case 1 => '1'
    case 2 => '2'
    case _ => '3'
  }

  function EventName(d: Domain, socket: nat): string
    requires socket < MAX_SOCKETS
  {
    "package" + [Digit(socket)] + ":" + MetricOf(d)
  }

  predicate Mentions(event: Option<string>, d: Domain) {
    event.Some? && StrStr(event.value, MetricOf(d), 0).Some?
  }

  /** A slot's name mentions its own metric and not the other one. */
  lemma {:induction false} NameTellsDomain(d: Domain, socket: nat)
    requires socket < MAX_SOCKETS
    ensures Mentions(Some(EventName(d, socket)), d)
    ensures forall e :: e != d ==> !Mentions(Some(EventName(d, socket)), e)
  {
    MentionsOwn(d, socket);
    var other := if d == Package then Dram else Package;
    OtherStartsNowhere(d, other, socket);
    hide StrStr, EventName;
    StrStrNone(EventName(d, socket), MetricOf(other), 0);
  }

  /** A slot's name spells its socket. */
  lemma NameSpellsSocket(d: Domain, socket: nat)
    requires socket < MAX_SOCKETS
    ensures |EventName(d, socket)| > 8 && EventName(d, socket)[..7] == "package"
    ensures EventName(d, socket)[7] as int == '0' as int + socket
    ensures EventName(d, socket)[8..] == if d == Package then ":total_power" else ":dram_power"
  {
    hide MetricOf;
    MetricsAre();
    var tail := ":" + MetricOf(d);
    assert EventName(d, socket) == "package" + ([Digit(socket)] + tail);
    assert EventName(d, socket)[8..] == tail;
  }

  lemma MetricsAre()
    ensures ":" + MetricOf(Package) == ":total_power" && ":" + MetricOf(Dram) == ":dram_power"
  {
  }

  /** Different slots have different names. */
  lemma {:induction false} NamesDiffer(d: Domain, i: nat, e: Domain, j: nat)
    requires i < MAX_SOCKETS && j < MAX_SOCKETS
    ensures EventName(d, i) == EventName(e, j) <==> d == e && i == j
  {
    NameSpellsSocket(d, i);
    NameSpellsSocket(e, j);
    hide EventName;
    assert ":total_power"[1] != ":dram_power"[1];
  }

  lemma {:induction false} MentionsOwn(d: Domain, socket: nat)
    requires socket < MAX_SOCKETS
    ensures Mentions(Some(EventName(d, socket)), d)
  {
    hide StrStr, Digit;
    var h := EventName(d, socket);
    assert h[9..9 + |MetricOf(d)|] == MetricOf(d);
    StrStrFinds(h, MetricOf(d), 0, 9);
  }

  lemma {:induction false} OtherStartsNowhere(d: Domain, other: Domain, socket: nat)
    requires socket < MAX_SOCKETS && d != other
    ensures forall p :: 0 <= p <= |EventName(d, socket)| ==> !Occurs(EventName(d, socket), MetricOf(other), p)
  {
    var h := EventName(d, socket);
    forall p | 0 <= p <= |h| ensures !Occurs(h, MetricOf(other), p) {
      if p < |h| { FirstCharDiffers(h, MetricOf(other), p); }
    }
  }

  // ---------- the layout ----------

  datatype Slot = Slot(domain: Domain, socket: nat)

  function Block(d: Domain, sockets: nat): seq<Slot> {
    seq(sockets, j requires 0 <= j < sockets => Slot(d, j))
  }

  /** One block for each metric, in the order given. */
  function Slots(ds: seq<Domain>, sockets: nat): seq<Slot> {
    if ds == [] then [] else Block(ds[0], sockets) + Slots(ds[1..], sockets)
  }

  /** The domains the configured metric names ask for; other names are ignored. */
  function DomainsOf(names: seq<string>): seq<Domain> {
    if names == [] then []
    else DomainsOf(names[..|names| - 1])
         + if names[|names| - 1] == MetricOf(Package) then [Package]
           else if names[|names| - 1] == MetricOf(Dram) then [Dram] else []
  }

  /** A name more asks for its domain's block, in letters; any other name for nothing. */
  lemma DomainsOfMore(names: seq<string>, name: string)
    ensures DomainsOf(names + [name])
         == DomainsOf(names) + (if name == "total_power" then [Package] else if name == "dram_power" then [Dram] else [])
    ensures DomainsOf([]) == []
  {
    assert (names + [name])[..|names|] == names;
  }

  lemma {:induction false} SlotsGrow(ds: seq<Domain>, d: Domain, sockets: nat)
    ensures Slots(ds + [d], sockets) == Slots(ds, sockets) + Block(d, sockets)
  {
    if ds == [] {
      assert ds + [d] == [d] && Slots([d][1..], sockets) == [];
      assert Block(d, sockets) + [] == Block(d, sockets);
    } else {
      SlotsGrow(ds[1..], d, sockets);
      assert (ds + [d])[1..] == ds[1..] + [d];
    }
  }

  /** Every slot names a real socket; there are `sockets` for each domain. */
  lemma {:induction false} SlotsAre(ds: seq<Domain>, sockets: nat)
    ensures |Slots(ds, sockets)| == |ds| * sockets
    ensures forall k :: 0 <= k < |Slots(ds, sockets)| ==> Slots(ds, sockets)[k].socket < sockets
  {
    if ds != [] {
      SlotsAre(ds[1..], sockets);
      assert |ds| * sockets == sockets + (|ds| - 1) * sockets;
    }
  }

  // ---------- the values a sample gives ----------

  /** Energies read at one moment, per socket. */
  datatype Reading = Reading(time: real, package: seq<real>, dram: seq<real>)

  predicate Fits(r: Reading, sockets: nat) {
    |r.package| >= sockets && |r.dram| >= sockets
  }

  function Energy(r: Reading, s: Slot): real
    requires s.socket < |r.package| && s.socket < |r.dram|
  {
    match s.domain
    case Package => r.package[s.socket]
    case Dram => r.dram[s.socket]
  }

  /** The baseline of a domain moves with its first block, so a second one reads nothing. */
  function Delta(a: Reading, b: Reading, s: Slot, moved: set<Domain>): real
    requires s.socket < |a.package| && s.socket < |a.dram| && s.socket < |b.package| && s.socket < |b.dram|
    requires a.time != b.time
  {
    if s.domain in moved then 0.0 / (b.time - a.time) else (Energy(b, s) - Energy(a, s)) / (b.time - a.time)
  }

  function BlockValues(a: Reading, b: Reading, d: Domain, sockets: nat, moved: set<Domain>): seq<real>
    requires Fits(a, sockets) && Fits(b, sockets) && a.time != b.time
  {
    seq(sockets, j requires 0 <= j < sockets => Delta(a, b, Slot(d, j), moved))
  }

  function Values(a: Reading, b: Reading, ds: seq<Domain>, sockets: nat, moved: set<Domain>): seq<real>
    requires Fits(a, sockets) && Fits(b, sockets) && a.time != b.time
  {
    if ds == [] then []
    else BlockValues(a, b, ds[0], sockets, moved) + Values(a, b, ds[1..], sockets, moved + {ds[0]})
  }

  /** With each metric asked for once, every slot holds the average power of the
      socket and domain its name gives. */
  lemma {:induction false} ValuesAreAligned(a: Reading, b: Reading, ds: seq<Domain>, sockets: nat, moved: set<Domain>)
    requires Fits(a, sockets) && Fits(b, sockets) && a.time != b.time
    requires (forall i, j :: 0 <= i < j < |ds| ==> ds[i] != ds[j]) && forall d :: d in ds ==> d !in moved
    ensures |Values(a, b, ds, sockets, moved)| == |Slots(ds, sockets)|
    ensures forall k :: 0 <= k < |Slots(ds, sockets)| ==>
              var s := Slots(ds, sockets)[k];
              s.socket < sockets && Values(a, b, ds, sockets, moved)[k]
              == (if s.domain == Package then b.package[s.socket] - a.package[s.socket] else b.dram[s.socket] - a.dram[s.socket])
                 / (b.time - a.time)
  {
    if ds != [] {
      assert forall d :: d in ds[1..] ==> exists j :: 0 < j < |ds| && ds[j] == d;
      ValuesAreAligned(a, b, ds[1..], sockets, moved + {ds[0]});
    }
  }

  /** Slot j of block g, whatever metrics repeat. */
  lemma {:induction false} ValueAt(a: Reading, b: Reading, ds: seq<Domain>, sockets: nat, moved: set<Domain>, g: nat, j: nat)
    requires Fits(a, sockets) && Fits(b, sockets) && a.time != b.time && g < |ds| && j < sockets
    ensures g * sockets + j < |Values(a, b, ds, sockets, moved)|
    ensures Values(a, b, ds, sockets, moved)[g * sockets + j]
         == Delta(a, b, Slot(ds[g], j), moved + set d | d in ds[..g])
  {
    hide Delta;
    if g == 0 {
      assert moved + (set d | d in ds[..0]) == moved;
    } else {
      ValueAt(a, b, ds[1..], sockets, moved + {ds[0]}, g - 1, j);
      assert g * sockets + j == sockets + ((g - 1) * sockets + j);
      var rest := ds[1..][..g - 1];
      assert ds[..g] == [ds[0]] + rest;
      assert moved + {ds[0]} + (set d | d in rest) == moved + set d | d in ds[..g];
    }
  }

  /** A slot holds the average power its name promises if and only if its metric
      is asked for the first time there, or its energy did not move. */
  lemma {:induction false} AlignedIff(a: Reading, b: Reading, ds: seq<Domain>, sockets: nat, g: nat, j: nat)
    requires Fits(a, sockets) && Fits(b, sockets) && a.time != b.time && g < |ds| && j < sockets
    ensures var s, k := Slot(ds[g], j), g * sockets + j;
            k < |Values(a, b, ds, sockets, {})|
            && (Values(a, b, ds, sockets, {})[k] == (Energy(b, s) - Energy(a, s)) / (b.time - a.time)
                <==> ds[g] !in ds[..g] || Energy(a, s) == Energy(b, s))
  {
    hide Energy, Values;
    ValueAt(a, b, ds, sockets, {}, g, j);
  }

  /** A metric asked for twice: its second block shows no power, whatever was used. */
  lemma {:induction false} RepeatedMetricShowsNothing(a: Reading, b: Reading, d: Domain, sockets: nat, j: nat)
    requires Fits(a, sockets) && Fits(b, sockets) && a.time != b.time && j < sockets
    requires Energy(a, Slot(d, j)) != Energy(b, Slot(d, j))
    ensures var k := 1 * sockets + j; var values := Values(a, b, [d, d], sockets, {});
            k < |values| && values[k] == 0.0
            && values[k] != (Energy(b, Slot(d, j)) - Energy(a, Slot(d, j))) / (b.time - a.time)
  {
    hide Energy, Values;
    assert [d, d][..1] == [d];
    AlignedIff(a, b, [d, d], sockets, 1, j);
    ValueAt(a, b, [d, d], sockets, {}, 1, j);
  }

  // ---------- the plugin ----------

  class RaplPlugin {
    const events: array<Option<string>>
    const values: array<real>
    const packageBefore: array<real>
    const dramBefore: array<real>
    var numEvents: nat
    var numSockets: nat
    var beforeTime: real

    ghost predicate Valid() {
      && events.Length == values.Length == MAX_EVENTS && packageBefore.Length == dramBefore.Length == MAX_SOCKETS
      && values != packageBefore && values != dramBefore && packageBefore != dramBefore
    }

    /** The table names the slots of `ds`; what lies behind it is whatever was there. */
    ghost predicate Names(ds: seq<Domain>)
      requires Valid()
      reads this`numSockets, this`numEvents, events
    {
      && 1 <= numSockets <= MAX_SOCKETS && |Slots(ds, numSockets)| == numEvents <= MAX_EVENTS
      && forall k :: 0 <= k < numEvents ==> SlotIs(k, Slots(ds, numSockets)[k])
    }

    /** The slot behind the table. */
    function Behind(): Option<string>
      requires Valid()
      reads this`numEvents, events
    {
      if numEvents < MAX_EVENTS then events[numEvents] else None
    }

    /** The walk stays inside the array: it looks behind a table that ends in a package
        block, and may take one more block there. */
    ghost predicate Inside(ds: seq<Domain>)
      requires Valid()
      reads this`numSockets, this`numEvents, events
    {
      && (EndsInPackage(ds) ==> numEvents < MAX_EVENTS)
      && (!Stops(ds, Behind()) ==> numEvents + numSockets <= MAX_EVENTS)
    }

    ghost predicate SlotIs(k: nat, s: Slot)
      requires Valid() && k < MAX_EVENTS
      reads events
    {
      s.socket < MAX_SOCKETS && events[k] == Some(EventName(s.domain, s.socket))
    }

    /** The baselines stand at `a`, except where a domain has moved to `b`. */
    ghost predicate Baselines(a: Reading, b: Reading, moved: set<Domain>)
      requires Valid() && numSockets <= MAX_SOCKETS && Fits(a, numSockets) && Fits(b, numSockets)
      reads this`numSockets, packageBefore, dramBefore
    {
      forall j :: 0 <= j < numSockets ==>
        packageBefore[j] == (if Package in moved then b else a).package[j] && dramBefore[j] == (if Dram in moved then b else a).dram[j]
    }

    /** The table as it is allocated, with stale contents. */
    constructor (stale: seq<Option<string>>)
      requires |stale| == MAX_EVENTS
      ensures Valid() && numEvents == 0 && events[..] == stale
      ensures fresh(events) && fresh(values) && fresh(packageBefore) && fresh(dramBefore)
    {
      events := new Option<string>[MAX_EVENTS](k requires 0 <= k < MAX_EVENTS => stale[k]);
      values := new real[MAX_EVENTS](_ => 0.0);
      packageBefore, dramBefore := new real[MAX_SOCKETS](_ => 0.0), new real[MAX_SOCKETS](_ => 0.0);
      numEvents, numSockets, beforeTime := 0, 0, 0.0;
    }

    /** Sets the plugin up: `counters` says whether PAPI could be started, `r` is the
        first reading. A configuration that names no known metric is a failure. */
    method Init(names: seq<string>, sockets: nat, counters: bool, r: Reading) returns (ok: bool)
      requires Valid() && sockets <= MAX_SOCKETS && |DomainsOf(names)| * sockets <= MAX_EVENTS && Fits(r, sockets)
      modifies this, events, packageBefore, dramBefore
      ensures ok <==> counters && sockets > 0 && DomainsOf(names) != []
      ensures ok ==> numSockets == sockets && Names(DomainsOf(names)) && Baselines(r, r, {}) && beforeTime == r.time
      ensures ok ==> forall k :: numEvents <= k < MAX_EVENTS ==> events[k] == old(events[k])
    {
      if !counters || sockets == 0 {
        return false;
      }
      hide EventName, Slots;
      RaplInit(names, sockets);
      SlotsAre(DomainsOf(names), sockets);
      NoSlots(|DomainsOf(names)|, sockets);
      if numEvents == 0 {
        return false;
      }
      TakeBaselines(r);
      beforeTime := r.time;
      return true;
    }

    method TakeBaselines(r: Reading)
      requires Valid() && numSockets <= MAX_SOCKETS && Fits(r, numSockets)
      modifies packageBefore, dramBefore
      ensures Baselines(r, r, {})
    {
      for j := 0 to numSockets
        invariant forall k :: 0 <= k < j ==> packageBefore[k] == r.package[k] && dramBefore[k] == r.dram[k]
      {
        packageBefore[j] := r.package[j];
        dramBefore[j] := r.dram[j];
      }
    }

    /** Lays the table out and leaves the slots behind it alone. */
    method RaplInit(names: seq<string>, sockets: nat)
      requires Valid() && 1 <= sockets <= MAX_SOCKETS && |DomainsOf(names)| * sockets <= MAX_EVENTS
      modifies this, events
      ensures numSockets == sockets && Names(DomainsOf(names)) && beforeTime == old(beforeTime)
      ensures forall k :: numEvents <= k < MAX_EVENTS ==> events[k] == old(events[k])
    {
      hide EventName, Slots;
      numSockets := sockets;
      var ii, i := 0, 0;
      SlotsAre([], sockets);
      while i < |names|
        invariant 0 <= i <= |names| && numSockets == sockets && beforeTime == old(beforeTime)
        invariant ii == |Slots(DomainsOf(names[..i]), sockets)|
        invariant forall k :: 0 <= k < ii ==> k < MAX_EVENTS && SlotIs(k, Slots(DomainsOf(names[..i]), sockets)[k])
        invariant forall k :: ii <= k < MAX_EVENTS ==> events[k] == old(events[k])
      {
        ghost var ds := DomainsOf(names[..i]);
        assert names[..i + 1][..i] == names[..i];
        RoomForBlock(names, i, sockets);
        if names[i] == MetricOf(Package) {
          SlotsGrow(ds, Package, sockets);
          ii := NameBlock(Package, ii, Slots(ds, sockets));
        }
        if names[i] == MetricOf(Dram) {
          SlotsGrow(ds, Dram, sockets);
          ii := NameBlock(Dram, ii, Slots(ds, sockets));
        } else if names[i] != MetricOf(Package) {
          assert ds + [] == ds;
        }
        i := i + 1;
      }
      assert names[..i] == names;
      SlotsAre(DomainsOf(names), sockets);
      numEvents := ii;
    }

    method NameBlock(d: Domain, start: nat, ghost slots: seq<Slot>) returns (ii: nat)
      requires Valid() && 1 <= numSockets <= MAX_SOCKETS && start == |slots| && start + numSockets <= MAX_EVENTS
      requires forall k :: 0 <= k < start ==> SlotIs(k, slots[k])
      modifies events
      ensures ii == start + numSockets
      ensures forall k :: 0 <= k < ii ==> SlotIs(k, (slots + Block(d, numSockets))[k])
      ensures forall k :: ii <= k < MAX_EVENTS ==> events[k] == old(events[k])
    {
      hide EventName;
      ii := start;
      var j := 0;
      while j < numSockets
        invariant 0 <= j <= numSockets && ii == start + j
        invariant forall k :: 0 <= k < ii ==> SlotIs(k, (slots + Block(d, numSockets))[k])
        invariant forall k :: ii <= k < MAX_EVENTS ==> events[k] == old(events[k])
      {
        events[ii] := Some(EventName(d, j));
        ii := ii + 1;
        j := j + 1;
      }
    }

    /** One inner loop: fills a block and moves that domain's baseline. */
    method FillBlock(start: nat, before: array<real>, after: seq<real>, interval: real) returns (i: nat)
      requires Valid() && numSockets <= MAX_SOCKETS && start + numSockets <= MAX_EVENTS && interval != 0.0
      requires before == packageBefore || before == dramBefore
      requires |after| >= numSockets
      modifies values, before
      ensures i == start + numSockets
      ensures forall k :: 0 <= k < start ==> values[k] == old(values[k])
      ensures forall j :: 0 <= j < numSockets ==> values[start + j] == (after[j] - old(before[j])) / interval
      ensures forall j :: 0 <= j < numSockets ==> before[j] == after[j]
    {
      i := start;
      var j := 0;
      while j < numSockets
        invariant 0 <= j <= numSockets && i == start + j
        invariant forall k :: 0 <= k < start ==> values[k] == old(values[k])
        invariant forall k :: start <= k < start + j ==> values[k] == (after[k - start] - old(before[k - start])) / interval
        invariant forall k :: 0 <= k < j ==> before[k] == after[k]
        invariant forall k :: j <= k < numSockets ==> before[k] == old(before[k])
      {
        values[i] := (after[j] - before[j]) / interval;
        i := i + 1;
        before[j] := after[j];
        j := j + 1;
      }
    }

    /** The walk stands where block g of `w` begins: the blocks in front of it are
        filled and their domains' baselines have moved. */
    ghost predicate At(i: nat, g: nat, w: seq<Domain>, a: Reading, b: Reading)
      requires Valid() && numSockets <= MAX_SOCKETS && Fits(a, numSockets) && Fits(b, numSockets) && a.time != b.time
      reads this`numSockets, values, packageBefore, dramBefore
    {
      && g <= |w| && i == g * numSockets <= MAX_EVENTS && Baselines(a, b, DomainSet(w[..g]))
      && values[..i] == Values(a, b, w[..g], numSockets, {})
    }

    /** What the walk meets where block g begins, behind the table included. */
    lemma {:induction false} BlockMet(i: nat, g: nat, ds: seq<Domain>, w: seq<Domain>, a: Reading, b: Reading)
      requires Valid() && Names(ds) && Fits(a, numSockets) && Fits(b, numSockets) && a.time != b.time
      requires At(i, g, w, a, b) && ds <= w
      ensures g < |ds| <==> i < numEvents
      ensures g < |ds| ==> i + numSockets <= numEvents && w[g] == ds[g] && Mentions(events[i], ds[g])
                           && forall e :: e != ds[g] ==> !Mentions(events[i], e)
      ensures g == |ds| ==> i == numEvents
    {
      hide EventName, Mentions, Slots, Values, Baselines;
      SlotsAre(ds, numSockets);
      if g < |ds| {
        BlockPosition(g, |ds|, numSockets);
        BlockStart(ds, numSockets, g);
        assert SlotIs(i, Slots(ds, numSockets)[i]);
        NameTellsDomain(ds[g], 0);
      } else {
        BlockPosition(|ds|, g, numSockets);
      }
    }

    /** One inner loop: a block of the domain's powers, and its baseline moved. */
    method FillDomain(start: nat, b: Reading, interval: real, d: Domain, ghost a: Reading, ghost moved: set<Domain>)
      returns (i: nat)
      requires Valid() && numSockets <= MAX_SOCKETS && Fits(a, numSockets) && Fits(b, numSockets)
      requires interval == b.time - a.time != 0.0 && Baselines(a, b, moved) && start + numSockets <= MAX_EVENTS
      modifies values, if d == Package then packageBefore else dramBefore
      ensures i == start + numSockets && Baselines(a, b, moved + {d})
      ensures values[..i] == old(values[..start]) + BlockValues(a, b, d, numSockets, moved)
    {
      ghost var before := if d == Package then packageBefore[..] else dramBefore[..];
      if d == Package {
        i := FillBlock(start, packageBefore, b.package, interval);
      } else {
        i := FillBlock(start, dramBefore, b.dram, interval);
      }
      forall j | 0 <= j < numSockets ensures values[start + j] == BlockValues(a, b, d, numSockets, moved)[j] {
        var s := Slot(d, j);
        assert before[j] == Energy(if d in moved then b else a, s);
      }
    }

    /** Block g of `w` is taken. */
    method WalkBlock(start: nat, b: Reading, interval: real, ghost a: Reading, ghost w: seq<Domain>, ghost g: nat, d: Domain)
      returns (i: nat)
      requires Valid() && numSockets <= MAX_SOCKETS && Fits(a, numSockets) && Fits(b, numSockets)
      requires interval == b.time - a.time != 0.0
      requires At(start, g, w, a, b) && g < |w| && w[g] == d && start + numSockets <= MAX_EVENTS
      modifies values, if d == Package then packageBefore else dramBefore
      ensures i == start + numSockets && At(i, g + 1, w, a, b)
    {
      hide Values, BlockValues, Baselines;
      i := FillDomain(start, b, interval, d, a, DomainSet(w[..g]));
      PrefixGrows(w, g);
      ValuesGrow(a, b, w[..g], d, numSockets, {});
      assert {} + DomainSet(w[..g]) == DomainSet(w[..g]);
      BlockPosition(g, g + 1, numSockets);
    }

    /** One `if` of the walk: takes block g of `w` when its domain is `d`. */
    method WalkIf(d: Domain, start: nat, b: Reading, interval: real, ghost a: Reading, ghost w: seq<Domain>, ghost g: nat)
      returns (i: nat, ghost next: nat)
      requires Valid() && numSockets <= MAX_SOCKETS && Fits(a, numSockets) && Fits(b, numSockets)
      requires interval == b.time - a.time != 0.0 && start < MAX_EVENTS && At(start, g, w, a, b)
      requires Mentions(events[start], d) ==> g < |w| && w[g] == d && start + numSockets <= MAX_EVENTS
      modifies values, packageBefore, dramBefore
      ensures At(i, next, w, a, b)
      ensures if Mentions(events[start], d) then i == start + numSockets && next == g + 1 else i == start && next == g
    {
      hide Mentions, At;
      i, next := start, g;
      if Mentions(events[start], d) {
        i := WalkBlock(start, b, interval, a, w, g, d);
        next := g + 1;
      }
    }

    lemma AtStart(w: seq<Domain>, a: Reading, b: Reading)
      requires Valid() && numSockets <= MAX_SOCKETS && Fits(a, numSockets) && Fits(b, numSockets) && a.time != b.time
      requires Baselines(a, b, {})
      ensures At(0, 0, w, a, b)
    {
      assert w[..0] == [] && DomainSet([]) == {};
    }

    /** Where the walk has passed the last block. */
    lemma {:induction false} WalkOver(i: nat, g: nat, ds: seq<Domain>, a: Reading, b: Reading)
      requires Valid() && Names(ds) && Fits(a, numSockets) && Fits(b, numSockets) && a.time != b.time
      requires numEvents <= i && g == |Walked(ds, Behind())| && At(i, g, Walked(ds, Behind()), a, b)
      ensures i == if Stops(ds, Behind()) then numEvents else numEvents + numSockets
      ensures i <= MAX_EVENTS && values[..i] == Values(a, b, Walked(ds, Behind()), numSockets, {})
      ensures values[..numEvents] == Values(a, b, ds, numSockets, {})
      ensures Baselines(a, b, DomainSet(Walked(ds, Behind())))
    {
      hide Slots, Values, Stops, Baselines;
      var w := Walked(ds, Behind());
      assert w[..g] == w;
      SlotsAre(ds, numSockets);
      BlockPosition(|ds|, |ds| + 1, numSockets);
      if !Stops(ds, Behind()) {
        ValuesGrow(a, b, ds, Dram, numSockets, {});
        ValuesFill(a, b, ds, numSockets, {});
        assert values[..numEvents] == values[..i][..numEvents];
      }
    }

    /** The walk, whatever the slot behind the table holds: it ends at the end of the
        table if and only if `Stops` holds, otherwise one dram block behind it. It
        always stands where a block begins, and every slot gets its value. */
    method Sample(b: Reading, ghost a: Reading, ghost ds: seq<Domain>) returns (end: nat)
      requires Valid() && Names(ds) && Inside(ds) && Fits(a, numSockets) && Fits(b, numSockets)
      requires beforeTime == a.time != b.time && Baselines(a, b, {})
      modifies this`beforeTime, values, packageBefore, dramBefore
      ensures end == numEvents <==> Stops(ds, Behind())
      ensures end == numEvents || end == numEvents + numSockets
      ensures end <= MAX_EVENTS && values[..end] == Values(a, b, Walked(ds, Behind()), numSockets, {})
      ensures values[..numEvents] == Values(a, b, ds, numSockets, {})
      ensures beforeTime == b.time && Names(ds) && Baselines(a, b, DomainSet(Walked(ds, Behind())))
    {
      hide Mentions, Slots, Values, Baselines, At, Stops, Walked, Names, Inside;
      var interval := b.time - beforeTime;
      var i := 0;
      ghost var g, w := 0, Walked(ds, Behind());
      NoBlocks(ds);
      AtStart(w, a, b);
      while i < numEvents
        invariant Names(ds) && Inside(ds) && w == Walked(ds, Behind()) && At(i, g, w, a, b)
        invariant i >= numEvents ==> g == |w|
        decreases numEvents - i
      {
        i, g := Turn(i, b, interval, a, ds, w, g);
      }
      WalkOver(i, g, ds, a, b);
      end := i;
      beforeTime := b.time;
    }

    /** The loop body: a package block, a dram block, or one after the other. */
    method Turn(start: nat, b: Reading, interval: real, ghost a: Reading, ghost ds: seq<Domain>, ghost w: seq<Domain>, ghost g: nat)
      returns (i: nat, ghost next: nat)
      requires Valid() && Names(ds) && Inside(ds) && Fits(a, numSockets) && Fits(b, numSockets)
      requires interval == b.time - a.time != 0.0 && w == Walked(ds, Behind())
      requires start < numEvents && At(start, g, w, a, b)
      modifies values, packageBefore, dramBefore
      ensures At(i, next, w, a, b) && i > start
      ensures i >= numEvents ==> next == |w|
    {
      hide Mentions, Slots, Values, Baselines, At, Stops, Walked;
      ghost var behind := Behind();
      WalkedIs(ds, behind);
      StopsIs(ds, behind);
      BlockMet(start, g, ds, w, a, b);
      i, next := WalkIf(Package, start, b, interval, a, w, g);
      BlockMet(i, next, ds, w, a, b);
      ghost var mid := next;
      i, next := WalkIf(Dram, i, b, interval, a, w, next);
      if mid < |ds| {
        BlockMet(i, next, ds, w, a, b);
      }
    }

    lemma NoBlocks(ds: seq<Domain>)
      requires Valid() && Names(ds)
      ensures 1 <= numSockets <= MAX_SOCKETS && (numEvents == 0 ==> Walked(ds, Behind()) == [])
    {
      hide Slots;
      SlotsAre(ds, numSockets);
      NoSlots(|ds|, numSockets);
    }
  }

  // ---------- what lies behind the table ----------

  predicate EndsInPackage(ds: seq<Domain>) {
    ds != [] && ds[|ds| - 1] == Package
  }

  /** The walk looks at the slot behind the table only after a package block. */
  predicate Stops(ds: seq<Domain>, behind: Option<string>) {
    EndsInPackage(ds) ==> !Mentions(behind, Dram)
  }

  /** The blocks the walk takes. */
  function Walked(ds: seq<Domain>, behind: Option<string>): seq<Domain> {
    if Stops(ds, behind) then ds else ds + [Dram]
  }

  lemma WalkedIs(ds: seq<Domain>, behind: Option<string>)
    ensures Walked(ds, behind) == if Stops(ds, behind) then ds else ds + [Dram]
  {
  }

  lemma StopsIs(ds: seq<Domain>, behind: Option<string>)
    ensures Stops(ds, behind) <==> !EndsInPackage(ds) || !Mentions(behind, Dram)
  {
  }

  lemma {:induction false} ValuesFill(a: Reading, b: Reading, ds: seq<Domain>, sockets: nat, moved: set<Domain>)
    requires Fits(a, sockets) && Fits(b, sockets) && a.time != b.time
    ensures |Values(a, b, ds, sockets, moved)| == |ds| * sockets
  {
    if ds != [] {
      ValuesFill(a, b, ds[1..], sockets, moved + {ds[0]});
      assert |ds| * sockets == sockets + (|ds| - 1) * sockets;
    }
  }

  /** A configuration keeps the walk inside its table, whatever the slot behind holds,
      if and only if it names no known metric or "dram_power" comes last. */
  lemma {:induction false} AlwaysStopsIff(names: seq<string>)
    ensures (forall behind :: Stops(DomainsOf(names), behind)) <==> !EndsInPackage(DomainsOf(names))
  {
    hide DomainsOf, EndsInPackage, Mentions;
    var stale := Some(EventName(Dram, 0));
    MentionsOwn(Dram, 0);
    assert Stops(DomainsOf(names), stale) ==> !EndsInPackage(DomainsOf(names));
  }

  /** "total_power" alone with a stale name behind its table is such a configuration. */
  lemma {:induction false} StaleNameOverruns()
    ensures DomainsOf(["total_power"]) == [Package] && !Stops([Package], Some("package0:dram_power"))
  {
    assert ["total_power"][..0] == [];
    assert DomainsOf([]) == [];
    assert EventName(Dram, 0) == "package0:dram_power";
    MentionsOwn(Dram, 0);
  }

  /** Such a run on the objects, the table allocated with that name in every slot. */
  method OverrunsTable(sockets: nat, r: Reading, b: Reading) returns (p: RaplPlugin, end: nat)
    requires 1 <= sockets <= MAX_SOCKETS && Fits(r, sockets) && Fits(b, sockets) && r.time != b.time
    ensures p.numEvents == sockets && end == 2 * sockets
  {
    hide Mentions, EventName;
    StaleNameOverruns();
    SlotsAre([Package], sockets);
    p := new RaplPlugin(seq(MAX_EVENTS, _ => Some("package0:dram_power")));
    var ok := p.Init(["total_power"], sockets, true, r);
    end := p.Sample(b, r, [Package]);
  }

  function DomainSet(ds: seq<Domain>): set<Domain> {
    set d | d in ds
  }

  lemma PrefixGrows(w: seq<Domain>, g: nat)
    requires g < |w|
    ensures w[..g + 1] == w[..g] + [w[g]] && DomainSet(w[..g + 1]) == DomainSet(w[..g]) + {w[g]}
  {
  }

  lemma BlockPosition(g: nat, n: nat, sockets: nat)
    requires g <= n
    ensures g < n ==> (g + 1) * sockets == g * sockets + sockets <= n * sockets
    ensures g * sockets <= n * sockets
  {
  }

  /** Block g begins with the slot of its first socket. */
  lemma {:induction false} BlockStart(ds: seq<Domain>, sockets: nat, g: nat)
    requires g < |ds| && sockets > 0
    ensures g * sockets < |Slots(ds, sockets)| && Slots(ds, sockets)[g * sockets] == Slot(ds[g], 0)
  {
    if g > 0 {
      BlockStart(ds[1..], sockets, g - 1);
      assert g * sockets == sockets + (g - 1) * sockets;
    }
  }

  lemma {:induction false} ValuesGrow(a: Reading, b: Reading, ds: seq<Domain>, d: Domain, sockets: nat, moved: set<Domain>)
    requires Fits(a, sockets) && Fits(b, sockets) && a.time != b.time
    ensures Values(a, b, ds + [d], sockets, moved)
         == Values(a, b, ds, sockets, moved) + BlockValues(a, b, d, sockets, moved + DomainSet(ds))
  {
    hide BlockValues;
    if ds == [] {
      assert ds + [d] == [d] && [d][1..] == [] && moved + DomainSet([]) == moved;
      assert Values(a, b, [], sockets, moved + {d}) == [];
    } else {
      ValuesGrow(a, b, ds[1..], d, sockets, moved + {ds[0]});
      assert (ds + [d])[1..] == ds[1..] + [d];
      assert moved + {ds[0]} + DomainSet(ds[1..]) == moved + DomainSet(ds);
    }
  }

  lemma NoSlots(metrics: nat, sockets: nat)
    requires sockets > 0
    ensures metrics * sockets == 0 <==> metrics == 0
  {
  }

  lemma {:induction false} RoomForBlock(names: seq<string>, i: nat, sockets: nat)
    requires i < |names| && |DomainsOf(names)| * sockets <= MAX_EVENTS
    ensures |Slots(DomainsOf(names[..i + 1]), sockets)| <= MAX_EVENTS
  {
    SlotsAre(DomainsOf(names[..i + 1]), sockets);
    MoreDomains(names, i + 1);
    Fewer(|DomainsOf(names[..i + 1])|, |DomainsOf(names)|, sockets);
  }

  lemma {:induction false} MoreDomains(names: seq<string>, i: nat)
    requires i <= |names|
    ensures |DomainsOf(names[..i])| <= |DomainsOf(names)|
    decreases |names|
  {
    if i < |names| {
      MoreDomains(names[..|names| - 1], i);
      assert names[..|names| - 1][..i] == names[..i];
    } else {
      assert names[..i] == names;
    }
  }

  lemma Fewer(x: nat, y: nat, z: nat)
    requires x <= y
    ensures x * z <= y * z
  {
  }
}
