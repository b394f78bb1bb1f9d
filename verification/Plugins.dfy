/**
 Plugin discovery: the directory scan that loads plugins and fills the name
 table, the handle list and the hook queue, and the loop that empties the queue
 into the hook table the threads index.
 */
module Plugins {
  import opened Wrappers
  import ConfigStore
  import Ini

  type Hook = nat

  /** What loading the library of a directory entry leads to. */
  datatype Load =
    | NoLibrary
    | NoSymbol
    | Returned(rc: int, registered: seq<Hook>)

  /** One outcome for each entry of the directory listing. */
  type Outcome = nat -> Load

  // ---------- names ----------

  function LastIndex(s: string, c: char): (i: int)
    ensures -1 <= i < |s|
    ensures i >= 0 ==> s[i] == c
    ensures forall k :: i < k < |s| ==> s[k] != c
  {
    if s == "" then -1
    else if s[|s| - 1] == c then |s| - 1
    else LastIndex(s[..|s| - 1], c)
  }

  predicate IsLibrary(entry: string) {
    var dot := LastIndex(entry, '.');
    dot >= 0 && entry[dot..] == ".so"
  }

  /** The file name without directory and suffix. */
  function PluginName(entry: string): string {
    var slash, dot := LastIndex(entry, '/'), LastIndex(entry, '.');
    if 0 <= slash + 1 <= dot then entry[slash + 1..dot] else ""
  }

  /** The suffix rule in one line: what is in front of ".so", after the last '/'. */
  lemma {:induction false} LibraryNames(path: string, name: string)
    requires path == "" || path[|path| - 1] == '/'
    requires forall k :: 0 <= k < |name| ==> name[k] != '/'
    ensures IsLibrary(path + name + ".so") && PluginName(path + name + ".so") == name
  {
    var entry := path + name + ".so";
    var dot, slash := LastIndex(entry, '.'), LastIndex(entry, '/');
    assert entry[|path| + |name|] == '.';
    assert dot == |path| + |name|;
    assert path != "" ==> entry[|path| - 1] == '/';
    assert slash == |path| - 1;
  }

  // ---------- the specification ----------

  datatype Loaded = Loaded(name: string, entry: nat, registered: seq<Hook>)

  predicate Off(t: ConfigStore.Table, name: string) {
    ConfigStore.Lookup(t, "plugins", name) == Some("off")
  }

  predicate Tried(t: ConfigStore.Table, entry: string) {
    IsLibrary(entry) && !Off(t, PluginName(entry))
  }

  predicate Succeeds(load: Load) {
    load.Returned? && load.rc > 0
  }

  /** What the scan has produced: plugins loaded, hooks any init function
      registered (whether it then failed or not), and every library opened and
      every library closed again at once, by entry number. */
  datatype Tables = Tables(loaded: seq<Loaded>, queue: seq<Hook>, opens: seq<nat>, closes: seq<nat>)

  function Visit(d: Tables, t: ConfigStore.Table, entry: string, load: Load, n: nat): Tables {
    if !Tried(t, entry) || load.NoLibrary? then d
    else if load.NoSymbol? then d.(opens := d.opens + [n])
    else if load.rc <= 0 then d.(queue := d.queue + load.registered, opens := d.opens + [n], closes := d.closes + [n])
    else d.(queue := d.queue + load.registered, opens := d.opens + [n],
            loaded := d.loaded + [Loaded(PluginName(entry), n, load.registered)])
  }

  /** After the first n entries of the listing. */
  function Scan(t: ConfigStore.Table, entries: seq<string>, outcome: Outcome, n: nat): Tables
    requires n <= |entries|
  {
    if n == 0 then Tables([], [], [], [])
    else Visit(Scan(t, entries, outcome, n - 1), t, entries[n - 1], outcome(n - 1), n - 1)
  }

  lemma FirstScan(t: ConfigStore.Table, entries: seq<string>, outcome: Outcome)
    ensures Scan(t, entries, outcome, 0) == Tables([], [], [], [])
  {
  }

  /** A plugin registers its one hook exactly when its init function succeeds. */
  predicate WellBehaved(load: Load) {
    load.Returned? ==> if load.rc > 0 then |load.registered| == 1 else load.registered == []
  }

  /** The loaded plugins are exactly the entries tried with success, in order. */
  ghost predicate Covers(l: seq<Loaded>, t: ConfigStore.Table, entries: seq<string>, outcome: Outcome, n: nat)
    requires n <= |entries|
  {
    && (forall i, j :: 0 <= i < j < |l| ==> l[i].entry < l[j].entry)
    && (forall x :: x in l ==> x.entry < n && IsLoaded(x, t, entries, outcome))
    && (forall e :: 0 <= e < n && Tried(t, entries[e]) && Succeeds(outcome(e)) ==> HasEntry(l, e))
  }

  lemma {:induction false} LoadedEntries(t: ConfigStore.Table, entries: seq<string>, outcome: Outcome, n: nat)
    requires n <= |entries|
    ensures Covers(Scan(t, entries, outcome, n).loaded, t, entries, outcome, n)
  {
    hide Tried, PluginName, LastIndex, Covers;
    if n == 0 {
      assert Covers([], t, entries, outcome, 0) by { NothingMissed([], t, entries, outcome, 0); }
    } else {
      LoadedEntries(t, entries, outcome, n - 1);
      NothingMissed(Scan(t, entries, outcome, n - 1).loaded, t, entries, outcome, n);
      if Tried(t, entries[n - 1]) && Succeeds(outcome(n - 1)) {
        OneMoreLoaded(Scan(t, entries, outcome, n - 1).loaded, t, entries, outcome, n);
      }
    }
  }

  lemma {:induction false} NothingMissed(l: seq<Loaded>, t: ConfigStore.Table, entries: seq<string>, outcome: Outcome, n: nat)
    requires n <= |entries| && (if n == 0 then l == [] else Covers(l, t, entries, outcome, n - 1))
    ensures n == 0 || !Tried(t, entries[n - 1]) || !Succeeds(outcome(n - 1)) ==> Covers(l, t, entries, outcome, n)
  {
    hide Tried, PluginName, LastIndex, Succeeds;
  }

  lemma {:induction false} OneMoreLoaded(l: seq<Loaded>, t: ConfigStore.Table, entries: seq<string>, outcome: Outcome, n: nat)
    requires 0 < n <= |entries| && Covers(l, t, entries, outcome, n - 1)
    requires Tried(t, entries[n - 1]) && Succeeds(outcome(n - 1))
    ensures Covers(l + [Loaded(PluginName(entries[n - 1]), n - 1, outcome(n - 1).registered)], t, entries, outcome, n)
  {
    hide Tried, PluginName, LastIndex;
    var x := Loaded(PluginName(entries[n - 1]), n - 1, outcome(n - 1).registered);
    var m := l + [x];
    assert m[|l|] == x && HasEntry(m, n - 1);
    assert forall i :: 0 <= i < |l| ==> l[i] in l;
    forall e | HasEntry(l, e) ensures HasEntry(m, e) {
      var i :| 0 <= i < |l| && l[i].entry == e;
      assert m[i] == l[i];
    }
  }

  ghost predicate HasEntry(l: seq<Loaded>, e: nat) {
    exists i :: 0 <= i < |l| && l[i].entry == e
  }

  /** `x` describes a directory entry that was tried and loaded. */
  predicate IsLoaded(x: Loaded, t: ConfigStore.Table, entries: seq<string>, outcome: Outcome) {
    && x.entry < |entries| && Tried(t, entries[x.entry]) && Succeeds(outcome(x.entry))
    && x.name == PluginName(entries[x.entry]) && x.registered == outcome(x.entry).registered
  }

  /** The queue holds the loaded plugins' hooks, one each and in order, and no other. */
  predicate HooksAligned(d: Tables) {
    |d.queue| == |d.loaded| && forall i :: 0 <= i < |d.loaded| ==> d.loaded[i].registered == [d.queue[i]]
  }

  /** Every library that is tried behaves; the others do not matter. */
  predicate AllBehave(t: ConfigStore.Table, entries: seq<string>, outcome: Outcome, n: nat)
    requires n <= |entries|
  {
    forall e :: 0 <= e < n && Tried(t, entries[e]) ==> WellBehaved(outcome(e))
  }

  predicate OneHookEach(loaded: seq<Loaded>) {
    forall i :: 0 <= i < |loaded| ==> |loaded[i].registered| == 1
  }

  /** A hook that is registered stays in the queue. */
  lemma {:induction false} QueueCoversLoaded(t: ConfigStore.Table, entries: seq<string>, outcome: Outcome, n: nat)
    requires n <= |entries| && OneHookEach(Scan(t, entries, outcome, n).loaded)
    ensures |Scan(t, entries, outcome, n).queue| >= |Scan(t, entries, outcome, n).loaded|
  {
    hide Tried, PluginName;
    if n > 0 {
      var d, r := Scan(t, entries, outcome, n - 1), Scan(t, entries, outcome, n);
      assert forall i :: 0 <= i < |d.loaded| ==> r.loaded[i] == d.loaded[i];
      assert |r.loaded| > |d.loaded| ==> r.loaded[|d.loaded|].registered == outcome(n - 1).registered;
      QueueCoversLoaded(t, entries, outcome, n - 1);
    }
  }

  /** One entry keeps the alignment if and only if it is not tried or behaves. */
  lemma {:induction false} VisitAligned(d: Tables, t: ConfigStore.Table, entry: string, load: Load, n: nat)
    requires OneHookEach(d.loaded) ==> |d.queue| >= |d.loaded|
    ensures HooksAligned(Visit(d, t, entry, load, n)) <==> HooksAligned(d) && (Tried(t, entry) ==> WellBehaved(load))
  {
    hide Tried, PluginName;
    var r := Visit(d, t, entry, load, n);
    assert forall i :: 0 <= i < |d.loaded| ==> r.loaded[i] == d.loaded[i];
    if Tried(t, entry) && load.Returned? {
      assert load.registered == [] ==> r.queue == d.queue;
      assert |load.registered| == 1 ==> r.queue == d.queue + [load.registered[0]];
      assert load.rc > 0 ==> r.loaded[|d.loaded|].registered == load.registered;
    }
  }

  /** The hook queue matches the loaded plugins if and only if every library tried
      registers one hook when its init function succeeds and none when it fails. */
  lemma {:induction false} QueueIsAligned(t: ConfigStore.Table, entries: seq<string>, outcome: Outcome, n: nat)
    requires n <= |entries|
    ensures HooksAligned(Scan(t, entries, outcome, n)) <==> AllBehave(t, entries, outcome, n)
  {
    hide Tried, Visit, WellBehaved, HooksAligned, OneHookEach;
    if n == 0 {
      assert HooksAligned(Tables([], [], [], [])) by { NothingAligned(); }
    } else {
      QueueIsAligned(t, entries, outcome, n - 1);
      var d := Scan(t, entries, outcome, n - 1);
      if OneHookEach(d.loaded) {
        QueueCoversLoaded(t, entries, outcome, n - 1);
      }
      VisitAligned(d, t, entries[n - 1], outcome(n - 1), n - 1);
    }
  }

  lemma NothingAligned()
    ensures HooksAligned(Tables([], [], [], []))
  {
  }

  /** So a plugin that registers and then fails leaves its hook in front of the next
      plugin's, and the hook table shifts. */
  lemma {:induction false} FailingPluginShifts(t: ConfigStore.Table, a: string, b: string, bad: Hook, good: Hook)
    requires Tried(t, a) && Tried(t, b)
    ensures var outcome := (e: nat) => if e == 0 then Returned(0, [bad]) else Returned(1, [good]);
            var d := Scan(t, [a, b], outcome, 2);
            |d.loaded| == 1 && d.loaded[0].name == PluginName(b) && d.queue[0] == bad && !HooksAligned(d)
  {
    hide Tried, PluginName;
    var outcome := (e: nat) => if e == 0 then Returned(0, [bad]) else Returned(1, [good]);
    assert Scan(t, [a, b], outcome, 1) == Visit(Scan(t, [a, b], outcome, 0), t, a, outcome(0), 0);
  }

  // ---------- the tables ----------

  /** Count, name table and handle list describe the same plugins. Names past the
      count are leftovers of failed loads. */
  predicate Aligned(count: nat, names: map<nat, string>, handles: seq<nat>, loaded: seq<Loaded>) {
    && count == |loaded| == |handles|
    && (forall i :: 0 <= i < |loaded| ==> i in names && names[i] == loaded[i].name)
    && (forall i :: 0 <= i < |loaded| ==> handles[|loaded| - 1 - i] == loaded[i].entry)
  }

  /** A name is written before the load is tried; the slot counts only afterwards. */
  lemma {:induction false} OneMoreAligned(count: nat, names: map<nat, string>, handles: seq<nat>, loaded: seq<Loaded>,
                                            name: string, entry: nat, hooks: seq<Hook>)
    requires Aligned(count, names, handles, loaded)
    ensures Aligned(count, names[count := name], handles, loaded)
    ensures Aligned(count + 1, names[count := name], [entry] + handles, loaded + [Loaded(name, entry, hooks)])
  {
  }

  // ---------- the plugin manager ----------

  class PluginManager {
    var queue: seq<Hook>

    constructor ()
      ensures queue == []
    {
      queue := [];
    }

    method RegisterHook(hook: Hook)
      modifies this
      ensures queue == old(queue) + [hook]
    {
      queue := queue + [hook];
    }

    /** `None` is the NULL hook of an empty queue. */
    method GetHook() returns (hook: Option<Hook>)
      modifies this
      ensures old(queue) == [] ==> hook.None? && queue == []
      ensures old(queue) != [] ==> hook == Some(old(queue)[0]) && queue == old(queue)[1..]
    {
      hook := None;
      if queue != [] {
        hook, queue := Some(queue[0]), queue[1..];
      }
    }
  }

  // ---------- discovery ----------

  class Discovery {
    const pm: PluginManager
    var pluginCount: nat
    var pluginsName: map<nat, string>
    /** Library handles, most recently loaded first. A handle is its entry's number. */
    var handles: seq<nat>
    /** Every `dlopen` that succeeded and every `dlclose`, in order. */
    ghost var opens: seq<nat>
    ghost var closes: seq<nat>

    constructor (pm: PluginManager)
      ensures this.pm == pm && pluginCount == 0 && pluginsName == map[] && handles == [] && opens == [] && closes == []
    {
      this.pm, pluginCount, pluginsName, handles, opens, closes := pm, 0, map[], [], [], [];
    }

    ghost predicate Holds(d: Tables)
      reads this, pm
    {
      Aligned(pluginCount, pluginsName, handles, d.loaded) && pm.queue == d.queue && opens == d.opens && closes == d.closes
    }

    method LoadPlugin(entry: nat, load: Load) returns (ok: bool)
      modifies pm, this`opens, this`closes
      ensures ok == Succeeds(load)
      ensures pm.queue == old(pm.queue) + if load.Returned? then load.registered else []
      ensures opens == old(opens) + if load.NoLibrary? then [] else [entry]
      ensures closes == old(closes) + if load.Returned? && load.rc <= 0 then [entry] else []
    {
      if load.NoLibrary? {
        return false;
      }
      opens := opens + [entry];
      if load.NoSymbol? {
        return false;
      }
      var i := 0;
      while i < |load.registered|
        invariant 0 <= i <= |load.registered|
        invariant pm.queue == old(pm.queue) + load.registered[..i]
        invariant opens == old(opens) + [entry] && closes == old(closes)
      {
        pm.RegisterHook(load.registered[i]);
        i := i + 1;
      }
      if load.rc <= 0 {
        closes := closes + [entry];
        return false;
      }
      return true;
    }

    /** A library file whose plugin is not switched off. */
    method Wanted(entry: string, store: ConfigStore.Store) returns (wanted: bool)
      requires store.initialized
      ensures wanted == Tried(store.config, entry)
    {
      if !IsLibrary(entry) {
        return false;
      }
      var value := store.GetValue("plugins", PluginName(entry), "");
      return value != "off";
    }

    /** One turn of the directory loop. */
    method VisitEntry(n: nat, entry: string, load: Load, store: ConfigStore.Store, ghost d: Tables)
      requires store.initialized && Holds(d)
      modifies this, pm
      ensures Holds(Visit(d, store.config, entry, load, n))
    {
      hide Tried, PluginName, Aligned;
      var name := PluginName(entry);
      OneMoreAligned(pluginCount, pluginsName, handles, d.loaded, name, n, if load.Returned? then load.registered else []);
      var wanted := Wanted(entry, store);
      if !wanted {
        return;
      }
      pluginsName := pluginsName[pluginCount := name];
      var ok := LoadPlugin(n, load);
      if ok {
        handles := [n] + handles;
        pluginCount := pluginCount + 1;
      }
    }

    /** `dir` is the listing when the directory can be opened. */
    method DiscoverPlugins(dir: Option<seq<string>>, store: ConfigStore.Store, outcome: Outcome)
      requires Holds(Tables([], [], [], [])) && store.initialized
      modifies this, pm
      ensures dir.None? ==> Holds(Tables([], [], [], []))
      ensures dir.Some? ==> Holds(Scan(store.config, dir.value, outcome, |dir.value|))
    {
      if dir.None? {
        return;
      }
      hide Visit, Holds, Scan;
      FirstScan(store.config, dir.value, outcome);
      var entries := dir.value;
      ghost var t := store.config;
      var n := 0;
      while n < |entries|
        invariant 0 <= n <= |entries| && store.config == t && store.initialized
        invariant Holds(Scan(t, entries, outcome, n))
      {
        VisitEntry(n, entries[n], outcome(n), store, Scan(t, entries, outcome, n));
        n := n + 1;
      }
    }

    /** The start of the agent: `hooks[t]` is taken from the queue for each plugin,
        and is NULL once the queue is empty. */
    method TakeHooks() returns (hooks: seq<Option<Hook>>)
      modifies pm
      ensures hooks == Taken(old(pm.queue), pluginCount) && pm.queue == Remaining(old(pm.queue), pluginCount)
    {
      hooks := [];
      ghost var q := pm.queue;
      var t := 0;
      while t < pluginCount
        invariant 0 <= t <= pluginCount && |hooks| == t && pm.queue == Remaining(q, t)
        invariant forall k :: 0 <= k < t ==> hooks[k] == if k < |q| then Some(q[k]) else None
      {
        var hook := pm.GetHook();
        hooks := hooks + [hook];
        t := t + 1;
      }
    }

    /** Closes every loaded library once, the latest first. */
    method CleanupPlugins()
      modifies this
      ensures handles == [] && closes == old(closes) + old(handles)
      ensures opens == old(opens) && pluginCount == old(pluginCount) && pluginsName == old(pluginsName)
    {
      while handles != []
        invariant closes + handles == old(closes) + old(handles)
        invariant opens == old(opens) && pluginCount == old(pluginCount) && pluginsName == old(pluginsName)
        decreases |handles|
      {
        closes, handles := closes + [handles[0]], handles[1..];
      }
    }

    /** Discovery and the dequeue loop, whatever the listing, the settings and the
        failures: the tables describe the same plugins, and `hooks[t]` is the hook
        of plugin t with none left over exactly when the plugins behave. */
    method StartPlugins(dir: Option<seq<string>>, store: ConfigStore.Store, outcome: Outcome)
      returns (hooks: seq<Option<Hook>>)
      requires Holds(Tables([], [], [], [])) && store.initialized
      modifies this, pm
      ensures |hooks| == pluginCount == |handles|
      ensures dir.None? ==> hooks == [] && pm.queue == [] && opens == [] && closes == [] && Aligned(pluginCount, pluginsName, handles, [])
      ensures dir.Some? ==>
                var entries := dir.value;
                var loaded := Scan(store.config, entries, outcome, |entries|).loaded;
                Aligned(pluginCount, pluginsName, handles, loaded)
                && opens == Scan(store.config, entries, outcome, |entries|).opens
                && closes == Scan(store.config, entries, outcome, |entries|).closes
                && (HooksFit(hooks, pm.queue, loaded) <==> AllBehave(store.config, entries, outcome, |entries|))
    {
      hide AllBehave, HooksFit, HooksAligned, Scan;
      DiscoverPlugins(dir, store, outcome);
      hooks := TakeHooks();
      if dir.Some? {
        var n := |dir.value|;
        QueueIsAligned(store.config, dir.value, outcome, n);
        TakenFit(Scan(store.config, dir.value, outcome, n));
      }
    }

    /** The agent from its start to its end. Every library opened is closed exactly
        once if and only if it has its init function, and no other is closed. */
    method RunPlugins(dir: Option<seq<string>>, store: ConfigStore.Store, outcome: Outcome)
      requires Holds(Tables([], [], [], [])) && store.initialized
      modifies this, pm
      ensures handles == []
      ensures forall e :: Count(opens, e) == if IsOpened(store.config, Listing(dir), outcome, e) then 1 else 0
      ensures forall e :: Count(closes, e) == if IsClosed(store.config, Listing(dir), outcome, e) then 1 else 0
    {
      hide Scan, Count, IsOpened, IsClosed, AllBehave, HooksFit;
      ghost var t, entries := store.config, Listing(dir);
      ghost var d := Scan(t, entries, outcome, |entries|);
      if dir.None? {
        FirstScan(t, entries, outcome);
      }
      var hooks := StartPlugins(dir, store, outcome);
      ghost var loaded := handles;
      assert Aligned(pluginCount, pluginsName, handles, d.loaded);
      CleanupPlugins();
      forall e
        ensures Count(opens, e) == if IsOpened(t, entries, outcome, e) then 1 else 0
        ensures Count(closes, e) == if IsClosed(t, entries, outcome, e) then 1 else 0
      {
        OpenedAndClosed(t, entries, outcome, |entries|, e);
        HandlesCounted(d, loaded, e);
        WholeListing(t, entries, outcome, e);
      }
    }
  }

  // ---------- which libraries are tried ----------

  predicate EndsInSo(entry: string) {
    |entry| >= 3 && entry[|entry| - 3] == '.' && entry[|entry| - 2] == 's' && entry[|entry| - 1] == 'o'
  }

  /** The last setting of this plugin in the configuration file says "off". */
  ghost predicate SwitchedOff(events: seq<Ini.Event>, name: string) {
    exists i: nat :: ConfigStore.IsLast(events, "plugins", name, "off", i)
  }

  /** The entry ends in ".so" and the last setting for the name in front of that, if
      there is one, is not "off". */
  ghost predicate IsWanted(events: seq<Ini.Event>, entry: string) {
    EndsInSo(entry) && !SwitchedOff(events, entry[..|entry| - 3])
  }

  /** Such directory entries are tried and no others. */
  lemma {:induction false} TriedIff(events: seq<Ini.Event>, entry: string)
    requires forall k :: 0 <= k < |entry| ==> entry[k] != '/'
    ensures Tried(ConfigStore.TableOf(events), entry) <==> IsWanted(events, entry)
  {
    if EndsInSo(entry) {
      var name := entry[..|entry| - 3];
      assert entry == "" + name + ".so";
      LibraryNames("", name);
      hide IsLibrary, PluginName;
      ConfigStore.LookupIsLast(events, "plugins", name, "off");
    }
  }

  /** The agent from its configuration file to its end: which libraries are opened. */
  method RunAgent(file: string, dir: seq<string>, outcome: Outcome) returns (agent: Discovery)
    requires forall e :: 0 <= e < |dir| ==> forall k :: 0 <= k < |dir[e]| ==> dir[e][k] != '/'
    ensures var events := Ini.Parse(file, ConfigStore.ACCEPT).events;
            forall e: nat :: Count(agent.opens, e)
                             == if e < |dir| && IsWanted(events, dir[e]) && !outcome(e).NoLibrary? then 1 else 0
  {
    hide Tried, IsWanted, Count, Ini.Parse, ConfigStore.TableOf;
    var store := new ConfigStore.Store();
    var parsed := store.Parse(Some(file));
    ghost var events := Ini.Parse(file, ConfigStore.ACCEPT).events;
    var pm := new PluginManager();
    agent := new Discovery(pm);
    agent.RunPlugins(Some(dir), store, outcome);
    forall e: nat
      ensures Count(agent.opens, e)
              == if e < |dir| && IsWanted(events, dir[e]) && !outcome(e).NoLibrary? then 1 else 0
    {
      if e < |dir| {
        TriedIff(events, dir[e]);
      }
    }
  }

  // ---------- the hook table ----------

  /** What n dequeues give, and what they leave. */
  function Taken(queue: seq<Hook>, n: nat): seq<Option<Hook>> {
    seq(n, k requires 0 <= k < n => if k < |queue| then Some(queue[k]) else None)
  }

  function Remaining(queue: seq<Hook>, n: nat): seq<Hook> {
    if n <= |queue| then queue[n..] else []
  }

  /** Each hook is its plugin's only one, and the queue is empty. */
  predicate HooksFit(hooks: seq<Option<Hook>>, rest: seq<Hook>, loaded: seq<Loaded>) {
    && rest == [] && |hooks| == |loaded|
    && forall i :: 0 <= i < |loaded| ==> hooks[i].Some? && loaded[i].registered == [hooks[i].value]
  }

  lemma {:induction false} TakenFit(d: Tables)
    ensures var n := |d.loaded|; HooksFit(Taken(d.queue, n), Remaining(d.queue, n), d.loaded) <==> HooksAligned(d)
  {
    var n := |d.loaded|;
    var hooks := Taken(d.queue, n);
    assert |d.queue| < n ==> hooks[|d.queue|].None?;
    if |d.queue| == n {
      assert forall i :: 0 <= i < n ==> hooks[i] == Some(d.queue[i]);
    }
  }

  // ---------- libraries opened and closed ----------

  function Count(s: seq<nat>, e: nat): nat {
    if s == [] then 0 else (if s[|s| - 1] == e then 1 else 0) + Count(s[..|s| - 1], e)
  }

  function Entries(loaded: seq<Loaded>): seq<nat> {
    seq(|loaded|, i requires 0 <= i < |loaded| => loaded[i].entry)
  }

  lemma CountSnoc(s: seq<nat>, x: nat, e: nat)
    ensures Count(s + [x], e) == Count(s, e) + if x == e then 1 else 0
  {
    assert (s + [x])[..|s|] == s;
  }

  lemma NoneCounted(e: nat)
    ensures Count([], e) == 0
  {
  }

  /** The listing of a directory; one that cannot be opened has none. */
  function Listing(dir: Option<seq<string>>): seq<string> {
    if dir.Some? then dir.value else []
  }

  /** Entry e is tried and its library can be opened. */
  predicate IsOpened(t: ConfigStore.Table, entries: seq<string>, outcome: Outcome, e: nat) {
    e < |entries| && Tried(t, entries[e]) && !outcome(e).NoLibrary?
  }

  /** It also has its init function. */
  predicate IsClosed(t: ConfigStore.Table, entries: seq<string>, outcome: Outcome, e: nat) {
    IsOpened(t, entries, outcome, e) && !outcome(e).NoSymbol?
  }

  lemma WholeListing(t: ConfigStore.Table, entries: seq<string>, outcome: Outcome, e: nat)
    ensures e >= |entries| ==> !IsOpened(t, entries, outcome, e) && !IsClosed(t, entries, outcome, e)
  {
  }

  /** Each library opened among the first n entries is closed at once or left to the
      clean-up, exactly once, if and only if it has its init function. */
  lemma {:induction false} OpenedAndClosed(t: ConfigStore.Table, entries: seq<string>, outcome: Outcome, n: nat, e: nat)
    requires n <= |entries|
    ensures var d := Scan(t, entries, outcome, n);
            Count(d.opens, e) == (if e < n && IsOpened(t, entries, outcome, e) then 1 else 0)
            && Count(d.closes, e) + Count(Entries(d.loaded), e) == (if e < n && IsClosed(t, entries, outcome, e) then 1 else 0)
  {
    hide Tried, PluginName, Count;
    if n == 0 {
      NoneCounted(e);
    } else {
      OpenedAndClosed(t, entries, outcome, n - 1, e);
      var d := Scan(t, entries, outcome, n - 1);
      CountSnoc(d.opens, n - 1, e);
      CountSnoc(d.closes, n - 1, e);
      CountSnoc(Entries(d.loaded), n - 1, e);
      var l := Scan(t, entries, outcome, n).loaded;
      assert l != d.loaded ==> Entries(l) == Entries(d.loaded) + [n - 1];
    }
  }

  /** A library without its init function is opened and left open. */
  lemma {:induction false} MissingInitStaysOpen(t: ConfigStore.Table, entry: string)
    requires Tried(t, entry)
    ensures var d := Scan(t, [entry], _ => NoSymbol, 1);
            d.opens == [0] && d.closes == [] && d.loaded == []
  {
    hide Tried, PluginName;
    assert Scan(t, [entry], _ => NoSymbol, 0) == Tables([], [], [], []);
  }

  lemma {:induction false} CountAppend(s: seq<nat>, r: seq<nat>, e: nat)
    ensures Count(s + r, e) == Count(s, e) + Count(r, e)
  {
    if r == [] {
      assert s + r == s;
    } else {
      var init, x := r[..|r| - 1], r[|r| - 1];
      assert s + r == (s + init) + [x];
      CountSnoc(s + init, x, e);
      CountAppend(s, init, e);
    }
  }

  /** The clean-up's order does not matter for how often a library is closed. */
  lemma {:induction false} CountReversed(s: seq<nat>, r: seq<nat>, e: nat)
    requires |r| == |s| && forall i :: 0 <= i < |s| ==> r[|s| - 1 - i] == s[i]
    ensures Count(r, e) == Count(s, e)
  {
    hide Count;
    if s == [] {
      assert r == s;
    } else {
      var init, x := s[..|s| - 1], s[|s| - 1];
      assert r[0] == x && r == [x] + r[1..] && s == init + [x];
      CountAppend([x], r[1..], e);
      CountAppend(init, [x], e);
      CountReversed(init, r[1..], e);
    }
  }

  lemma {:induction false} HandlesCounted(d: Tables, handles: seq<nat>, e: nat)
    requires |handles| == |d.loaded| && forall i :: 0 <= i < |d.loaded| ==> handles[|d.loaded| - 1 - i] == d.loaded[i].entry
    ensures Count(d.closes + handles, e) == Count(d.closes, e) + Count(Entries(d.loaded), e)
  {
    hide Count;
    CountAppend(d.closes, handles, e);
    CountReversed(Entries(d.loaded), handles, e);
  }
}
