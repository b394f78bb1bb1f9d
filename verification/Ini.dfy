/**
 The INI reader: what one line does, stated on strings, and the in-place loop
 over a 200-character line buffer and two 50-character name buffers.
 */
module Ini {
  import opened CString

  const MAX_LINE := 200
  const MAX_SECTION := 50
  const MAX_NAME := 50

  datatype Event = Event(section: string, name: string, value: string)

  /** The caller's handler. It sees the events so far, the new one last, so it
      may keep state; `false` reports a rejected value. */
  type Handler = seq<Event> -> bool

  /** What the reader carries from line to line; `error` is 0 or a line number. */
  datatype State = State(section: string, prevName: string, lineno: nat, error: nat, events: seq<Event>)
  {
    function Fail(): State {
      if error == 0 then this.(error := lineno) else this
    }

    function Emit(name: string, value: string, h: Handler): State {
      var s := this.(events := events + [Event(section, name, value)]);
      if h(s.events) then s else s.Fail()
    }
  }

  const START := State("", "", 0, 0, [])

  predicate HasBom(raw: string) {
    |raw| >= 3 && raw[0] == '\U{EF}' && raw[1] == '\U{BB}' && raw[2] == '\U{BF}'
  }

  // ---------- the line function ----------

  /** What remains of a line once a byte-order mark and outer blanks are gone. */
  function Body(raw: string, first: bool): string {
    TrimLeft(TrimRight(if first && HasBom(raw) then raw[3..] else raw))
  }

  /** Something was skipped in front of the body. */
  predicate Indented(raw: string, first: bool) {
    (first && HasBom(raw)) || |Body(raw, first)| < |TrimRight(raw)|
  }

  predicate IsComment(t: string) {
    t != "" && (t[0] == ';' || t[0] == '#')
  }

  function Step(st: State, raw: string, h: Handler): State {
    var first := st.lineno == 0;
    var s := st.(lineno := st.lineno + 1);
    var t := Body(raw, first);
    if t == "" || IsComment(t) then s
    else if s.prevName != "" && Indented(raw, first) then s.Emit(s.prevName, t, h)
    else if t[0] == '[' then SectionLine(s, t[1..])
    else PairLine(s, t, h)
  }

  function SectionLine(s: State, t: string): State {
    var e := Find(t, ']');
    if e < |t| && t[e] == ']'
    then s.(section := Prefix(t[..e], MAX_SECTION - 1), prevName := "")
    else s.Fail()
  }

  /** Where '=' (or, failing that, ':') separates a name from a value. */
  function Separator(t: string): (e: nat)
    ensures e <= |t|
  {
    var e := Find(t, '=');
    if e < |t| && t[e] == '=' then e else Find(t, ':')
  }

  predicate IsPair(t: string) {
    var e := Separator(t);
    e < |t| && (t[e] == '=' || t[e] == ':')
  }

  function Uncommented(v: string): string {
    v[..Find(v, NUL)]
  }

  function NameOf(t: string): string {
    TrimRight(t[..Separator(t)])
  }

  function ValueOf(t: string): string
    requires IsPair(t)
  {
    TrimRight(Uncommented(TrimLeft(t[Separator(t) + 1..])))
  }

  function PairLine(s: State, t: string, h: Handler): State {
    if IsPair(t)
    then s.(prevName := Prefix(NameOf(t), MAX_NAME - 1)).Emit(NameOf(t), ValueOf(t), h)
    else s.Fail()
  }

  // ---------- whole files ----------

  function Run(st: State, chunks: seq<string>, h: Handler): State
    decreases |chunks|
  {
    if chunks == [] then st else Run(Step(st, Line(chunks[0]), h), chunks[1..], h)
  }

  function Parse(content: string, h: Handler): State {
    Run(START, Chunks(content, MAX_LINE - 1), h)
  }

  // ---------- the in-place reader ----------

  /** The local variables of the reading loop. Pointers are indices into `line`. */
  class Reader {
    const line: array<char>
    const section: array<char>
    const prevName: array<char>
    var lineno: nat
    var error: nat
    var events: seq<Event>

    ghost predicate Valid()
      reads this, section, prevName
    {
      && line != section && line != prevName && section != prevName
      && line.Length == MAX_LINE && section.Length == MAX_SECTION && prevName.Length == MAX_NAME
      && Terminated(section[..], 0) && Terminated(prevName[..], 0)
    }

    ghost function Abs(): State
      requires Valid()
      reads this, section, prevName
    {
      State(Text(section[..], 0), Text(prevName[..], 0), lineno, error, events)
    }

    constructor ()
      ensures Valid() && Abs() == START
      ensures fresh(line) && fresh(section) && fresh(prevName)
    {
      line, section, prevName := new char[MAX_LINE], new char[MAX_SECTION], new char[MAX_NAME];
      lineno, error, events := 0, 0, [];
      new;
      section[0], prevName[0] := NUL, NUL;
      NulIs(section[..], 0, 0);
      NulIs(prevName[..], 0, 0);
    }

    method Report()
      requires Valid()
      modifies this
      ensures Valid() && Abs() == old(Abs()).Fail()
    {
      if error == 0 {
        error := lineno;
      }
    }

    /** Hands (section, name, value) to the handler. */
    method Call(name: string, value: string, h: Handler)
      requires Valid()
      modifies this
      ensures Valid() && Abs() == old(Abs()).Emit(name, value, h)
    {
      events := events + [Event(Text(section[..], 0), name, value)];
      if !h(events) {
        Report();
      }
    }

    /** Cuts the line at `end` and makes what stands in front the section name. */
    method StoreSection(at: nat, end: nat)
      requires Valid() && Terminated(line[..], at) && at <= end < NulAt(line[..], at)
      modifies line, section, prevName
      ensures Valid()
      ensures Abs() == old(Abs()).(section := Prefix(old(Text(line[..], at))[..end - at], MAX_SECTION - 1), prevName := "")
    {
      ghost var before := line[..];
      line[end] := NUL;
      CutText(before, line[..], at, end);
      hide NulAt;
      StrNCpy0(section, line, at);
      prevName[0] := NUL;
      NulIs(prevName[..], 0, 0);
    }

    method ParseSection(start: nat)
      requires Valid() && Terminated(line[..], start) && line[start] == '['
      modifies this, line, section, prevName
      ensures Valid() && Abs() == SectionLine(old(Abs()), old(Text(line[..], start))[1..])
    {
      TailText(line[..], start);
      hide NulAt, FindFrom, IsSpace, TrimRight, TrimLeft, StopsAt, Prefix, Find;
      ghost var t := Text(line[..], start + 1);
      var end := FindCharOrComment(line, start + 1, ']');
      assert end - start - 1 == Find(t, ']') && line[end] == if Find(t, ']') < |t| then t[Find(t, ']')] else NUL;
      if line[end] == ']' {
        StoreSection(start + 1, end);
      } else {
        Report();
      }
    }

    method FindSeparator(start: nat) returns (end: nat)
      requires Terminated(line[..], start)
      ensures end == start + Separator(Text(line[..], start))
      ensures start <= end <= NulAt(line[..], start)
    {
      end := FindCharOrComment(line, start, '=');
      if line[end] != '=' {
        end := FindCharOrComment(line, start, ':');
      }
    }

    /** Cuts a trailing comment and the blanks in front of it off the value. */
    method CutValue(value: nat)
      requires Terminated(line[..], value)
      modifies line
      ensures Terminated(line[..], value)
      ensures Text(line[..], value) == TrimRight(Uncommented(old(Text(line[..], value))))
      ensures forall k :: 0 <= k < value && k < line.Length ==> line[k] == old(line[k])
    {
      ghost var before := line[..];
      var end := FindCharOrComment(line, value, NUL);
      if line[end] == ';' {
        line[end] := NUL;
      }
      assert line[..] == before[end := NUL];
      CutText(before, line[..], value, end);
      RStrip(line, value);
    }

    /** Cuts the line at its separator into a trimmed name at `start` and a
        trimmed value at the returned index. */
    method SplitPair(start: nat) returns (value: nat)
      requires Terminated(line[..], start) && IsPair(Text(line[..], start))
      modifies line
      ensures Terminated(line[..], start) && Terminated(line[..], value)
      ensures Text(line[..], start) == NameOf(old(Text(line[..], start)))
      ensures Text(line[..], value) == ValueOf(old(Text(line[..], start)))
    {
      hide TrimRight, TrimLeft, IsSpace, FindFrom, Find, NulAt, StopsAt, Separator, Uncommented;
      var end := FindSeparator(start);
      ghost var b0 := line[..];
      line[end] := NUL;
      ghost var b1 := line[..];
      CutText(b0, b1, start, end);
      ghost var t := Text(b0, start);
      assert Text(b1, start) == t[..Separator(t)] && Text(b1, end + 1) == t[Separator(t) + 1..];
      RStrip(line, start);
      ghost var b2 := line[..];
      SameText(b1, b2, end + 1);
      assert NulAt(b2, start) <= end by { NulBound(b2, start, end); }
      value := LSkip(line, end + 1);
      CutValue(value);
      SameText(b2, line[..], start);
    }

    method ParsePair(start: nat, h: Handler)
      requires Valid() && Terminated(line[..], start)
      modifies this, line, prevName
      ensures Valid() && Abs() == PairLine(old(Abs()), old(Text(line[..], start)), h)
    {
      hide TrimRight, TrimLeft, NulAt, IsSpace, Separator, Uncommented, FindFrom, NameOf, ValueOf;
      ghost var t := Text(line[..], start);
      var end := FindSeparator(start);
      if line[end] == '=' || line[end] == ':' {
        assert IsPair(t);
        var value := SplitPair(start);
        StrNCpy0(prevName, line, start);
        Call(Text(line[..], start), Text(line[..], value), h);
      } else {
        Report();
      }
    }

    /** Strips the line at both ends; `start` is where its body begins. */
    method Strip() returns (start: nat)
      requires Valid() && Terminated(line[..], 0)
      modifies line
      ensures Terminated(line[..], start)
      ensures Text(line[..], start) == Body(old(Text(line[..], 0)), lineno == 1)
      ensures line[start] != NUL ==> (start > 0 <==> Indented(old(Text(line[..], 0)), lineno == 1))
    {
      hide TrimRight, TrimLeft, NulAt, IsSpace, HasBom;
      start := 0;
      if lineno == 1 && line[0] == '\U{EF}' && line[1] == '\U{BB}' && line[2] == '\U{BF}' {
        start := 3;
      }
      BomText(line[..]);
      assert Text(line[..], start) == if lineno == 1 && HasBom(Text(line[..], 0)) then Text(line[..], 0)[3..] else Text(line[..], 0);
      RStrip(line, start);
      start := LSkip(line, start);
    }

    /** One turn of the loop, on the line just read. */
    method ParseLine(h: Handler)
      requires Valid() && Terminated(line[..], 0)
      modifies this, line, section, prevName
      ensures Valid() && Abs() == Step(old(Abs()), old(Text(line[..], 0)), h)
    {
      hide TrimRight, TrimLeft, NulAt, IsSpace, Body, Indented, SectionLine, PairLine;
      lineno := lineno + 1;
      var start := Strip();
      FirstOfText(line[..], start);
      FirstOfText(prevName[..], 0);
      if line[start] == ';' || line[start] == '#' {
        // a comment line
      } else if prevName[0] != NUL && line[start] != NUL && start > 0 {
        Call(Text(prevName[..], 0), Text(line[..], start), h);
      } else if line[start] == '[' {
        ParseSection(start);
      } else if line[start] != NUL {
        ParsePair(start, h);
      }
    }
  }

  /** The whole loop. Indices into the line buffer are proved in range on the way. */
  method ParseFile(content: string, h: Handler) returns (error: nat, events: seq<Event>)
    ensures error == Parse(content, h).error
    ensures events == Parse(content, h).events
  {
    hide Step, Chunks, ChunkLength, NulAt;
    var r := new Reader();
    var pos := 0;
    while pos < |content|
      invariant 0 <= pos <= |content| && r.Valid()
      invariant fresh(r) && fresh(r.line) && fresh(r.section) && fresh(r.prevName)
      invariant Run(r.Abs(), Chunks(content[pos..], MAX_LINE - 1), h) == Parse(content, h)
      decreases |content| - pos
    {
      var next := Fgets(r.line, content, pos);
      LineOfChunk(r.line[..], content[pos..next]);
      UnreadAfter(content, pos, next);
      r.ParseLine(h);
      pos := next;
    }
    assert Chunks("", MAX_LINE - 1) == [] && content[pos..] == "" by {
      NoChunksIn(MAX_LINE - 1);
    }
    error, events := r.error, r.events;
  }

  /** The mark is seen one character at a time, never past the end of the string. */
  lemma {:induction false} BomText(b: seq<char>)
    requires |b| > 2 && Terminated(b, 0)
    ensures HasBom(Text(b, 0)) <==> b[0] == '\U{EF}' && b[1] == '\U{BB}' && b[2] == '\U{BF}'
    ensures HasBom(Text(b, 0)) ==> Terminated(b, 3) && Text(b, 3) == Text(b, 0)[3..]
  {
    NoNulBefore(b, 0);
    var e := NulAt(b, 0);
    assert forall k :: 0 <= k < e ==> Text(b, 0)[k] == b[k];
    if b[0] != NUL && b[1] != NUL && b[2] != NUL {
      assert e >= 3;
      NulIs(b, 3, e);
    }
  }

  lemma UnreadAfter(content: string, pos: nat, next: nat)
    requires pos < |content| && next == pos + ChunkLength(content[pos..], MAX_LINE - 1)
    ensures Chunks(content[pos..], MAX_LINE - 1) == [content[pos..next]] + Chunks(content[next..], MAX_LINE - 1)
  {
    assert content[pos..][..next - pos] == content[pos..next];
    assert content[pos..][next - pos..] == content[next..];
  }
}
