/**
 The two-level configuration store the agent fills from its INI file.
 */
module ConfigStore {
  import opened Wrappers
  import Ini
  import opened IniLines
  import opened IniTheorems

  type Table = map<string, map<string, string>>

  function Put(t: Table, section: string, key: string, value: string): Table {
    t[section := (if section in t then t[section] else map[])[key := value]]
  }

  function Lookup(t: Table, section: string, key: string): Option<string> {
    if section in t && key in t[section] then Some(t[section][key]) else None
  }

  /** The table the reader's events leave, each event overwriting older ones. */
  function TableOf(events: seq<Ini.Event>): Table {
    if events == [] then map[]
    else
      var e := events[|events| - 1];
      Put(TableOf(events[..|events| - 1]), e.section, e.name, e.value)
  }

  const ACCEPT: Ini.Handler := (_: seq<Ini.Event>) => true

  function TableOfText(content: string): Table {
    TableOf(Ini.Parse(content, ACCEPT).events)
  }

  // ---------- the store ----------

  class Store {
    var initialized: bool
    var config: Table

    /** A fresh process: the hash tables do not exist yet. */
    constructor ()
      ensures !initialized && config == map[]
    {
      initialized, config := false, map[];
    }

    /** Replaces the whole store by what `file` says; `None` is a file that cannot be opened. */
    method Parse(file: Option<string>) returns (ok: bool)
      modifies this
      ensures initialized && (ok <==> file.Some?)
      ensures config == if file.Some? then TableOfText(file.value) else map[]
    {
      initialized, config := true, map[];
      if file.None? {
        return false;
      }
      var error, events := Ini.ParseFile(file.value, ACCEPT);
      var i := 0;
      while i < |events|
        invariant 0 <= i <= |events| && initialized
        invariant config == TableOf(events[..i])
      {
        SetValue(events[i].section, events[i].name, events[i].value);
        i := i + 1;
        assert events[..i][..i - 1] == events[..i - 1];
      }
      assert events[..i] == events;
      return true;
    }

    method SetValue(section: string, key: string, value: string)
      modifies this
      ensures initialized == old(initialized)
      ensures config == if initialized then Put(old(config), section, key, value) else old(config)
    {
      if !initialized {
        return;
      }
      var values := map[];
      if section in config {
        values := config[section];
      }
      values := values[key := value];
      config := config[section := values];
    }

    /** The caller's buffer keeps its contents when there is no such key. */
    method GetValue(section: string, key: string, buffer: string) returns (r: string)
      ensures r == if initialized && Lookup(config, section, key).Some?
                   then Lookup(config, section, key).value else buffer
    {
      if !initialized || section !in config || key !in config[section] {
        return buffer;
      }
      return config[section][key];
    }

    /** All keys of the section whose value passes the filter, each once, in no
        particular order. `before` is what the caller's structure held. */
    method GetDataFiltered(section: string, filter: Option<string>, before: seq<(string, string)>)
      returns (data: seq<(string, string)>)
      ensures !initialized ==> data == before
      ensures initialized ==> forall i, j :: 0 <= i < j < |data| ==> data[i].0 != data[j].0
      ensures initialized ==> forall k, v ::
                (k, v) in data <==> Lookup(config, section, k) == Some(v) && (filter.None? || filter.value == v)
    {
      if !initialized {
        return before;
      }
      data := [];
      if section !in config {
        return;
      }
      var table := config[section];
      var rest := table.Keys;
      while rest != {}
        invariant rest <= table.Keys
        invariant forall k :: k in rest ==> forall i :: 0 <= i < |data| ==> data[i].0 != k
        invariant forall i, j :: 0 <= i < j < |data| ==> data[i].0 != data[j].0
        invariant forall k, v :: (k, v) in data <==>
                    k in table.Keys - rest && table[k] == v && (filter.None? || filter.value == v)
        decreases rest
      {
        var key :| key in rest;
        var value := table[key];
        rest := rest - {key};
        if filter.Some? && value != filter.value {
          continue;
        }
        data := data + [(key, value)];
      }
    }
  }

  // ---------- what a lookup finds ----------

  /** The value of the last event for this section and key. */
  function LastValue(events: seq<Ini.Event>, section: string, key: string): Option<string> {
    if events == [] then None
    else
      var e := events[|events| - 1];
      if e.section == section && e.name == key then Some(e.value)
      else LastValue(events[..|events| - 1], section, key)
  }

  /** Last write wins, and sections never leak into one another. */
  lemma {:induction false} LookupFindsLast(events: seq<Ini.Event>, section: string, key: string)
    ensures Lookup(TableOf(events), section, key) == LastValue(events, section, key)
  {
    if events != [] {
      LookupFindsLast(events[..|events| - 1], section, key);
    }
  }

  lemma {:induction false} LastValueIs(events: seq<Ini.Event>, section: string, key: string)
    ensures LastValue(events, section, key).None? <==>
            forall e :: e in events ==> !(e.section == section && e.name == key)
    ensures LastValue(events, section, key).Some? ==>
            Ini.Event(section, key, LastValue(events, section, key).value) in events
  {
    if events != [] {
      var init, e := events[..|events| - 1], events[|events| - 1];
      assert events == init + [e];
      LastValueIs(init, section, key);
    }
  }

  /** Event i sets this key and no later one does. */
  predicate IsLast(events: seq<Ini.Event>, section: string, key: string, value: string, i: nat) {
    && i < |events| && events[i] == Ini.Event(section, key, value)
    && forall j :: i < j < |events| ==> !(events[j].section == section && events[j].name == key)
  }

  /** So a lookup finds a value if and only if the last event for its section and key
      has it. */
  lemma {:induction false} LookupIsLast(events: seq<Ini.Event>, section: string, key: string, value: string)
    ensures Lookup(TableOf(events), section, key) == Some(value) <==> exists i: nat :: IsLast(events, section, key, value, i)
  {
    LookupFindsLast(events, section, key);
    hide TableOf;
    LastIsLast(events, section, key, value);
  }

  lemma {:induction false} LastIsLast(events: seq<Ini.Event>, section: string, key: string, value: string)
    ensures LastValue(events, section, key) == Some(value) <==> exists i: nat :: IsLast(events, section, key, value, i)
  {
    if events != [] {
      var init, n := events[..|events| - 1], |events| - 1;
      LastIsLast(init, section, key, value);
      if events[n].section == section && events[n].name == key {
        assert events[n].value == value ==> IsLast(events, section, key, value, n);
        forall i: nat | IsLast(events, section, key, value, i) ensures i == n {
        }
      } else {
        forall i: nat ensures IsLast(events, section, key, value, i) <==> IsLast(init, section, key, value, i) {
          assert forall j :: 0 <= j < n ==> events[j] == init[j];
        }
      }
    }
  }

  lemma {:induction false} SectionsAreFilled(events: seq<Ini.Event>)
    ensures forall s :: s in TableOf(events) ==> TableOf(events)[s] != map[]
  {
    if events != [] {
      SectionsAreFilled(events[..|events| - 1]);
      var e := events[|events| - 1];
      assert e.name in TableOf(events)[e.section];
    }
  }

  // ---------- printing a table and reading it back ----------

  /** `cfg` writes down exactly the entries of `t`, in any order. */
  ghost predicate Lists(cfg: seq<Section>, t: Table) {
    forall s, k, v :: Ini.Event(s, k, v) in EventsOf(cfg) <==> Lookup(t, s, k) == Some(v)
  }

  ghost predicate NoEmptySection(t: Table) {
    forall s :: s in t ==> t[s] != map[]
  }

  lemma {:induction false} SameLookups(a: Table, b: Table)
    requires NoEmptySection(a) && NoEmptySection(b)
    requires forall s, k :: Lookup(a, s, k) == Lookup(b, s, k)
    ensures a == b
  {
    SubTable(a, b);
    SubTable(b, a);
    forall s | s in a ensures a[s] == b[s] {
      forall k ensures (k in a[s] <==> k in b[s]) && (k in a[s] ==> a[s][k] == b[s][k]) {
        assert Lookup(a, s, k) == Lookup(b, s, k);
      }
      assert a[s].Keys == b[s].Keys;
    }
  }

  lemma SubTable(a: Table, b: Table)
    requires NoEmptySection(a)
    requires forall s, k :: Lookup(a, s, k) == Lookup(b, s, k)
    ensures a.Keys <= b.Keys
  {
    forall s | s in a ensures s in b {
      assert a[s].Keys != {};
      var k :| k in a[s];
      assert Lookup(a, s, k) == Lookup(b, s, k);
    }
  }

  /** Any well-formed table, printed in any order and parsed, is rebuilt exactly. */
  lemma {:induction false} TableRoundTrip(cfg: seq<Section>, t: Table)
    requires WellFormed(cfg) && NoEmptySection(t) && Lists(cfg, t)
    ensures TableOfText(Print(cfg)) == t && Ini.Parse(Print(cfg), ACCEPT).error == 0
  {
    hide WellFormed;
    RoundTrip(cfg, ACCEPT);
    var events := EventsOf(cfg);
    SectionsAreFilled(events);
    forall s, k ensures Lookup(TableOf(events), s, k) == Lookup(t, s, k) {
      LookupFindsLast(events, s, k);
      LastValueIs(events, s, k);
    }
    SameLookups(TableOf(events), t);
  }

  /** Every table of well-formed entries can be printed. */
  lemma {:induction false} Printable(t: Table)
    requires forall s :: s in t ==> WellFormedHeader(s, "")
    requires forall s, k :: s in t && k in t[s] ==> WellFormedEntry(Entry(k, t[s][k], SIMPLE))
    ensures exists cfg :: WellFormed(cfg) && Lists(cfg, t)
    decreases |t|
  {
    hide WellFormedHeader, WellFormedEntry;
    if t == map[] {
      assert WellFormed([]) && Lists([], t);
    } else {
      var s :| s in t;
      var rest := t - {s};
      Printable(rest);
      var cfg :| WellFormed(cfg) && Lists(cfg, rest);
      var es := Entries(s, t[s]);
      var all := [Section(s, "", es)] + cfg;
      assert all[1..] == cfg;
      forall s', k, v ensures Ini.Event(s', k, v) in EventsOf(all) <==> Lookup(t, s', k) == Some(v) {
        assert Ini.Event(s', k, v) in EventsOf(cfg) <==> Lookup(rest, s', k) == Some(v);
      }
      assert Lists(all, t);
      assert WellFormed(all);
    }
  }

  lemma {:induction false} Entries(title: string, m: map<string, string>) returns (es: seq<Entry>)
    ensures forall e :: e in es ==> e.name in m && m[e.name] == e.value && e.layout == SIMPLE
    ensures forall s, k, v :: Ini.Event(s, k, v) in SectionEvents(title, es) <==> s == title && k in m && m[k] == v
    decreases |m|
  {
    if m == map[] {
      es := [];
    } else {
      var key :| key in m;
      var more := Entries(title, m - {key});
      es := [Entry(key, m[key], SIMPLE)] + more;
      assert es[1..] == more;
    }
  }
}
