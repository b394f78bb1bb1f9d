/**
 What the INI reader promises over whole files: it inverts a printer, whatever the
 layout and the comments of the printed text.
 */
module IniTheorems {
  import opened Wrappers
  import opened CString
  import opened Ini
  import opened IniLines

  // ---------- printing ----------

  datatype Entry = Entry(name: string, value: string, layout: Layout)
  datatype Section = Section(title: string, trail: string, entries: seq<Entry>)

  function EntryLine(e: Entry): string {
    LaidOut(e.name, e.value, e.layout)
  }

  function EntryLines(es: seq<Entry>): seq<string> {
    if es == [] then [] else [EntryLine(es[0])] + EntryLines(es[1..])
  }

  function FileLines(cfg: seq<Section>): seq<string> {
    if cfg == [] then []
    else [HeaderLine(cfg[0].title, cfg[0].trail)] + EntryLines(cfg[0].entries) + FileLines(cfg[1..])
  }

  function Print(cfg: seq<Section>): string {
    Concat(FileLines(cfg))
  }

  predicate WellFormedEntry(e: Entry) {
    && e.name != "" && Plain(e.name) && Plain(e.value)
    && ReadableName(e.name) && ReadableValue(e.value) && ReadableLayout(e.name, e.value, e.layout)
    && |EntryLine(e)| <= 199
  }

  predicate WellFormedHeader(title: string, trail: string) {
    && |title| <= 49 && WellFormedTitle(title) && Plain(trail)
    && |HeaderLine(title, trail)| <= 199
  }

  predicate WellFormed(cfg: seq<Section>) {
    forall s :: s in cfg ==> WellFormedHeader(s.title, s.trail) && forall e :: e in s.entries ==> WellFormedEntry(e)
  }

  // ---------- the round trip ----------

  function EventsOf(cfg: seq<Section>): seq<Event> {
    if cfg == [] then [] else SectionEvents(cfg[0].title, cfg[0].entries) + EventsOf(cfg[1..])
  }

  function SectionEvents(title: string, es: seq<Entry>): seq<Event> {
    if es == [] then [] else [Event(title, es[0].name, es[0].value)] + SectionEvents(title, es[1..])
  }

  ghost predicate AcceptsAll(h: Handler) {
    forall es :: h(es)
  }

  lemma {:induction false} RunAppend(st: State, a: seq<string>, b: seq<string>, h: Handler)
    ensures Run(st, a + b, h) == Run(Run(st, a, h), b, h)
    decreases |a|
  {
    if a == [] {
      assert a + b == b;
    } else {
      assert (a + b)[1..] == a[1..] + b;
      RunAppend(Step(st, Line(a[0]), h), a[1..], b, h);
    }
  }

  lemma RunCons(st: State, l: string, more: seq<string>, h: Handler)
    ensures Run(st, [l] + more, h) == Run(Step(st, Line(l), h), more, h)
  {
    assert ([l] + more)[1..] == more;
  }

  lemma {:induction false} PlainEntry(e: Entry)
    requires WellFormedEntry(e)
    ensures NoNul(EntryLine(e)) && IsLine(EntryLine(e), 199)
  {
    hide ReadableName, ReadableValue;
    var l := e.layout;
    BlankIsSpace(l.gap);
    BlankIsSpace(l.lead);
    BlankIsSpace(l.tail);
    assert Plain(CommentText(l.comment));
    var text := e.name + l.gap + [l.sep] + l.lead + e.value + l.tail + CommentText(l.comment);
    assert Plain(l.gap) && Plain(l.lead) && Plain(l.tail) && Plain([l.sep]);
    assert Plain(text);
    assert EntryLine(e) == text + "\n";
  }

  lemma {:induction false} EntryRead(s: State, e: Entry, h: Handler)
    requires s.lineno > 0 && WellFormedEntry(e) && AcceptsAll(h)
    ensures var r := Step(s, Line(EntryLine(e)), h);
            r.lineno > 0 && r.section == s.section && r.error == s.error
            && r.events == s.events + [Event(s.section, e.name, e.value)]
  {
    hide Step, ReadableName, ReadableValue, ReadableLayout, LaidOut;
    PlainEntry(e);
    PlainLine(EntryLine(e));
    LaidOutEntry(s, e.name, e.value, e.layout, h);
  }

  lemma {:induction false} EntriesRead(s: State, es: seq<Entry>, h: Handler)
    requires s.lineno > 0 && AcceptsAll(h) && forall e :: e in es ==> WellFormedEntry(e)
    ensures var r := Run(s, EntryLines(es), h);
            r.lineno > 0 && r.error == s.error && r.events == s.events + SectionEvents(s.section, es)
    decreases |es|
  {
    hide Step, WellFormedEntry, EntryLine, Line;
    if es != [] {
      hide Run;
      var e, more := es[0], es[1..];
      var s1 := Step(s, Line(EntryLine(e)), h);
      EntryRead(s, e, h);
      EntriesRead(s1, more, h);
      RunCons(s, EntryLine(e), EntryLines(more), h);
      assert s1.events + SectionEvents(s.section, more) == s.events + SectionEvents(s.section, es);
    }
  }

  lemma {:induction false} FileRead(s: State, cfg: seq<Section>, h: Handler)
    requires WellFormed(cfg) && AcceptsAll(h)
    ensures var r := Run(s, FileLines(cfg), h); r.error == s.error && r.events == s.events + EventsOf(cfg)
    decreases |cfg|
  {
    hide Step, WellFormedEntry, WellFormedHeader, EntryLine, HeaderLine, Line, EntryLines, SectionEvents;
    if cfg != [] {
      hide Run;
      var c := cfg[0];
      var header, entries, more := HeaderLine(c.title, c.trail), EntryLines(c.entries), FileLines(cfg[1..]);
      var s1, s2 := Step(s, Line(header), h), Run(Step(s, Line(header), h), entries, h);
      SectionRead(s, c, h);
      FileRead(s2, cfg[1..], h);
      assert FileLines(cfg) == [header] + (entries + more);
      RunCons(s, header, entries + more, h);
      RunAppend(s1, entries, more, h);
    }
  }

  lemma {:induction false} SectionRead(s: State, c: Section, h: Handler)
    requires WellFormedHeader(c.title, c.trail) && AcceptsAll(h) && forall e :: e in c.entries ==> WellFormedEntry(e)
    ensures var r := Run(Step(s, Line(HeaderLine(c.title, c.trail)), h), EntryLines(c.entries), h);
            r.error == s.error && r.events == s.events + SectionEvents(c.title, c.entries)
  {
    hide Step, WellFormedEntry, HeaderLine, Line, EntryLines, Run, SectionEvents;
    HeaderIsPlain(c.title, c.trail);
    HeaderRead(s, c.title, c.trail, h);
    EntriesRead(s.(lineno := s.lineno + 1, section := c.title, prevName := ""), c.entries, h);
  }

  lemma {:induction false} HeaderIsPlain(title: string, trail: string)
    requires WellFormedHeader(title, trail)
    ensures Line(HeaderLine(title, trail)) == HeaderLine(title, trail) && IsLine(HeaderLine(title, trail), 199)
  {
    assert Plain("[" + title + "]" + trail);
    PlainLine(HeaderLine(title, trail));
  }

  lemma {:induction false} EntryLinesAreLines(es: seq<Entry>)
    requires forall e :: e in es ==> WellFormedEntry(e)
    ensures forall i :: 0 <= i < |EntryLines(es)| ==> IsLine(EntryLines(es)[i], ROOM)
  {
    if es != [] {
      PlainEntry(es[0]);
      EntryLinesAreLines(es[1..]);
    }
  }

  lemma {:induction false} FileLinesAreLines(cfg: seq<Section>)
    requires WellFormed(cfg)
    ensures forall i :: 0 <= i < |FileLines(cfg)| ==> IsLine(FileLines(cfg)[i], ROOM)
  {
    hide WellFormedEntry, WellFormedHeader, EntryLine, HeaderLine, IsLine;
    if cfg != [] {
      HeaderIsPlain(cfg[0].title, cfg[0].trail);
      EntryLinesAreLines(cfg[0].entries);
      FileLinesAreLines(cfg[1..]);
    }
  }

  /** Printing a well-formed configuration and reading the text gives its
      entries back, in order and with no error. */
  lemma {:induction false} RoundTrip(cfg: seq<Section>, h: Handler)
    requires WellFormed(cfg) && AcceptsAll(h)
    ensures Parse(Print(cfg), h).error == 0
    ensures Parse(Print(cfg), h).events == EventsOf(cfg)
  {
    hide Chunks, Run, Step, FileLines, IsLine;
    FileLinesAreLines(cfg);
    ChunksOfLines(FileLines(cfg), "", ROOM);
    assert Print(cfg) + "" == Print(cfg) && FileLines(cfg) + [] == FileLines(cfg);
    assert Chunks("", ROOM) == [] by { NoChunksIn(ROOM); }
    FileRead(START, cfg, h);
  }
}
