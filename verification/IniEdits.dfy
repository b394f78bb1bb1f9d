/**
 Editing an INI file: blank and comment lines carry no meaning, and the value
 returned is the number of the first malformed line.
 */
module IniEdits {
  import opened CString
  import opened Ini
  import opened IniLines
  import opened IniTheorems

  // ---------- inserting lines that carry no meaning ----------

  /** A blank or a comment line. */
  predicate Ignored(raw: string) {
    Body(raw, false) == "" || IsComment(Body(raw, false))
  }

  /** The same reader, `k` lines further down; errors past line `n` move along. */
  function Shifted(st: State, n: nat, k: nat): State {
    st.(lineno := st.lineno + k, error := if st.error <= n then st.error else st.error + k)
  }

  predicate AtLineStart(a: string) {
    a != "" ==> a[|a| - 1] == '\n'
  }

  /** A line boundary splits the text for the reader too, however long the lines. */
  lemma {:induction false} ChunksSplit(a: string, b: string, room: nat)
    requires room > 0 && AtLineStart(a)
    ensures Chunks(a + b, room) == Chunks(a, room) + Chunks(b, room)
    decreases |a|
  {
    hide ChunkLength, Chunks;
    if a == "" {
      assert a + b == b;
      NoChunksIn(room);
    } else {
      var n := ChunkLength(a, room);
      assert (a + b)[..n] == a[..n] && (a + b)[n..] == a[n..] + b;
      ChunksSplit(a[n..], b, room);
      FirstChunk(a, room);
      FirstChunk(a + b, room);
    }
  }

  /** One step further down the file is the same step. */
  lemma {:induction false} StepShifted(st: State, raw: string, n: nat, k: nat, h: Handler)
    requires n <= st.lineno && (st.lineno == 0 && k > 0 ==> !HasBom(raw))
    ensures Step(Shifted(st, n, k), raw, h) == Shifted(Step(st, raw, h), n, k)
  {
    hide Body, Indented, IsComment, SectionLine, PairLine;
    var s := st.(lineno := st.lineno + 1);
    var t := Body(raw, st.lineno == 0);
    assert t == Body(raw, st.lineno + k == 0) && Indented(raw, st.lineno == 0) == Indented(raw, st.lineno + k == 0) by {
      SameBody(raw);
    }
    EmitShifted(s, n, k, s.prevName, t, h);
    PairShifted(s, t, n, k, h);
    if t != "" {
      SectionShifted(s, t[1..], n, k);
    }
  }

  lemma SameBody(raw: string)
    ensures !HasBom(raw) ==> Body(raw, true) == Body(raw, false) && Indented(raw, true) == Indented(raw, false)
  {
  }

  lemma SectionShifted(s: State, t: string, n: nat, k: nat)
    requires n < s.lineno
    ensures SectionLine(Shifted(s, n, k), t) == Shifted(SectionLine(s, t), n, k)
  {
    hide Find;
  }

  lemma PairShifted(s: State, t: string, n: nat, k: nat, h: Handler)
    requires n < s.lineno
    ensures PairLine(Shifted(s, n, k), t, h) == Shifted(PairLine(s, t, h), n, k)
  {
    hide NameOf, ValueOf, IsPair;
    if IsPair(t) {
      EmitShifted(s.(prevName := Prefix(NameOf(t), MAX_NAME - 1)), n, k, NameOf(t), ValueOf(t), h);
    }
  }

  lemma EmitShifted(s: State, n: nat, k: nat, name: string, value: string, h: Handler)
    requires n < s.lineno
    ensures Shifted(s, n, k).Emit(name, value, h) == Shifted(s.Emit(name, value, h), n, k)
  {
  }

  lemma {:induction false} RunShifted(st: State, chunks: seq<string>, n: nat, k: nat, h: Handler)
    requires n <= st.lineno && (st.lineno == 0 && k > 0 && chunks != [] ==> !HasBom(Line(chunks[0])))
    ensures Run(Shifted(st, n, k), chunks, h) == Shifted(Run(st, chunks, h), n, k)
    decreases |chunks|
  {
    if chunks != [] {
      StepShifted(st, Line(chunks[0]), n, k, h);
      LineCounted(st, Line(chunks[0]), h);
      hide Step;
      RunShifted(Step(st, Line(chunks[0]), h), chunks[1..], n, k, h);
    }
  }

  lemma LineCounted(st: State, raw: string, h: Handler)
    ensures Step(st, raw, h).lineno == st.lineno + 1
  {
  }

  /** An ignored line only counts. */
  lemma {:induction false} IgnoredStep(st: State, raw: string, h: Handler)
    requires Ignored(raw)
    ensures Step(st, raw, h) == st.(lineno := st.lineno + 1)
  {
    hide IsSpace;
    if HasBom(raw) {
      BomIsText(raw);
    }
  }

  lemma {:induction false} BomIsText(raw: string)
    requires HasBom(raw)
    ensures !Ignored(raw)
  {
    TrimRightCutsSpace(raw);
    var w := TrimRight(raw);
    assert w != "" && w[0] == raw[0];
    TrimLeftIs(w, 0);
  }

  /** The reader takes every piece of this text for a blank or a comment line. */
  predicate AllIgnored(chunks: seq<string>) {
    forall i :: 0 <= i < |chunks| ==> Ignored(Line(chunks[i]))
  }

  lemma {:induction false} IgnoredRun(st: State, cs: seq<string>, h: Handler)
    requires AllIgnored(cs)
    ensures Run(st, cs, h) == st.(lineno := st.lineno + |cs|)
    decreases |cs|
  {
    if cs != [] {
      IgnoredStep(st, Line(cs[0]), h);
      IgnoredRun(st.(lineno := st.lineno + 1), cs[1..], h);
    }
  }

  lemma {:induction false} LinesCounted(st: State, cs: seq<string>, h: Handler)
    ensures Run(st, cs, h).lineno == st.lineno + |cs|
    decreases |cs|
  {
    if cs != [] {
      LineCounted(st, Line(cs[0]), h);
      LinesCounted(Step(st, Line(cs[0]), h), cs[1..], h);
    }
  }

  lemma {:induction false} ErrorInRange(st: State, cs: seq<string>, h: Handler)
    requires st.error <= st.lineno
    ensures Run(st, cs, h).error <= st.lineno + |cs|
    decreases |cs|
  {
    if cs != [] {
      var s := Step(st, Line(cs[0]), h);
      assert s.error <= s.lineno == st.lineno + 1 by { hide TrimRight, TrimLeft, Find, FindFrom; }
      hide Step;
      ErrorInRange(s, cs[1..], h);
    }
  }

  /** Whole lines the reader ignores may be inserted at any line boundary. The events,
      and so the configuration read, do not change (continuation lines included);
      a reported error moves by the number of lines inserted in front of it.
      Only a byte-order mark must keep its place at the start of the file. */
  lemma {:induction false} InsertIgnoredText(a: string, mid: string, b: string, h: Handler)
    requires AtLineStart(a) && AtLineStart(mid) && AllIgnored(Chunks(mid, ROOM))
    requires a == "" ==> !HasBom(b)
    ensures Parse(a + (mid + b), h) == Shifted(Parse(a + b, h), |Chunks(a, ROOM)|, |Chunks(mid, ROOM)|)
  {
    hide Chunks, Step, Run, AllIgnored, HasBom;
    var la, cs, lb := Chunks(a, ROOM), Chunks(mid, ROOM), Chunks(b, ROOM);
    ChunksSplit(a, b, ROOM);
    ChunksSplit(a, mid + b, ROOM);
    ChunksSplit(mid, b, ROOM);
    var sa := Run(START, la, h);
    RunAppend(START, la, lb, h);
    RunAppend(START, la, cs + lb, h);
    RunAppend(sa, cs, lb, h);
    IgnoredRun(sa, cs, h);
    LinesCounted(START, la, h);
    ErrorInRange(START, la, h);
    assert sa.(lineno := sa.lineno + |cs|) == Shifted(sa, |la|, |cs|);
    if a == "" && b != "" {
      NoBomInChunk(b);
    }
    LinesExist(a, b);
    RunShifted(sa, lb, |la|, |cs|, h);
  }

  /** Blank and comment lines that fit the line buffer are such text. */
  lemma {:induction false} InsertIgnoredLines(a: string, cs: seq<string>, b: string, h: Handler)
    requires AtLineStart(a)
    requires forall i :: 0 <= i < |cs| ==> IsLine(cs[i], ROOM) && Ignored(Line(cs[i]))
    requires a == "" ==> !HasBom(b)
    ensures Parse(a + (Concat(cs) + b), h) == Shifted(Parse(a + b, h), |Chunks(a, ROOM)|, |cs|)
  {
    hide Parse, Chunks, Ignored, HasBom;
    ChunksOfLines(cs, "", ROOM);
    NoChunksIn(ROOM);
    assert Concat(cs) + "" == Concat(cs) && cs + [] == cs;
    ConcatAtLineStart(cs);
    InsertIgnoredText(a, Concat(cs), b, h);
  }

  lemma {:induction false} ConcatAtLineStart(cs: seq<string>)
    requires forall i :: 0 <= i < |cs| ==> IsLine(cs[i], ROOM)
    ensures AtLineStart(Concat(cs))
  {
    if cs != [] { ConcatAtLineStart(cs[1..]); }
  }

  // ---------- exactly which text can be inserted ----------

  /** Inserting `mid` between `a` and `b` only shifts the errors behind it. */
  predicate Harmless(a: string, mid: string, b: string, h: Handler) {
    Parse(a + (mid + b), h) == Shifted(Parse(a + b, h), |Chunks(a, ROOM)|, |Chunks(mid, ROOM)|)
  }

  /** Two readers in different sections cannot both pass over a line that counts
      without an event, an error or a change of section. */
  lemma {:induction false} Visible(s: State, other: string, cs: seq<string>, h: Handler)
    requires s.lineno > 0 && s.prevName == "" && s.error == 0 && s.events == [] && s.section != other
    requires !AllIgnored(cs)
    ensures var r, r' := Run(s, cs, h), Run(s.(section := other), cs, h);
            r.error != 0 || r.events != [] || r.section != s.section || r'.section != other
    decreases |cs|
  {
    hide Step, Ignored, Line;
    var raw, rest := Line(cs[0]), cs[1..];
    var s' := s.(section := other);
    if Ignored(raw) {
      IgnoredStep(s, raw, h);
      IgnoredStep(s', raw, h);
      assert exists i :: 0 <= i < |rest| && !Ignored(Line(rest[i])) by {
        var i :| 0 <= i < |cs| && !Ignored(Line(cs[i]));
        assert rest[i - 1] == cs[i];
      }
      Visible(s.(lineno := s.lineno + 1), other, rest, h);
    } else {
      CountingStep(s, other, raw, h);
      var t := Step(s, raw, h);
      if t.error != 0 {
        ErrorStays(t, rest, h);
      } else if t.events != [] {
        EventsGrow(t, rest, h);
      }
    }
  }

  /** Outside a continuation such a line reports, emits or begins a section. */
  lemma {:induction false} CountingStep(s: State, other: string, raw: string, h: Handler)
    requires s.lineno > 0 && s.prevName == "" && s.error == 0 && s.events == [] && !Ignored(raw)
    ensures var r := Step(s, raw, h);
            r.error != 0 || r.events != [] || r == Step(s.(section := other), raw, h)
  {
    hide Body, Indented, Find, NameOf, ValueOf, IsPair, Prefix;
  }

  lemma {:induction false} EventsGrow(st: State, cs: seq<string>, h: Handler)
    ensures |Run(st, cs, h).events| >= |st.events|
    decreases |cs|
  {
    if cs != [] {
      EventsGrow(Step(st, Line(cs[0]), h), cs[1..], h);
    }
  }

  lemma {:induction false} AfterHeader(title: string, mid: string, h: Handler)
    requires WellFormedHeader(title, "") && Harmless(HeaderLine(title, ""), mid, "", h)
    ensures var s := State(title, "", 1, 0, []); var r := Run(s, Chunks(mid, ROOM), h);
            r.error == 0 && r.events == [] && r.section == title
  {
    hide Chunks, Step;
    var a, cs := HeaderLine(title, ""), Chunks(mid, ROOM);
    var s := State(title, "", 1, 0, []);
    HeaderIsPlain(title, "");
    HeaderRead(START, title, "", h);
    ChunksOfLines([a], "", ROOM);
    NoChunksIn(ROOM);
    assert Concat([a]) == a && a + "" == a && [a] + [] == [a];
    ChunksSplit(a, mid, ROOM);
    RunCons(START, a, cs, h);
    RunCons(START, a, [], h);
    assert mid + "" == mid;
    assert Parse(a, h) == s;
    assert Parse(a + mid, h) == Run(s, cs, h);
  }

  /** Text can be inserted at every line boundary of every file without harm if and
      only if the reader takes each of its pieces for a blank or a comment line. */
  lemma {:induction false} HarmlessIff(mid: string, h: Handler)
    requires AtLineStart(mid)
    ensures (forall a, b :: AtLineStart(a) && (a == "" ==> !HasBom(b)) ==> Harmless(a, mid, b, h))
       <==> AllIgnored(Chunks(mid, ROOM))
  {
    hide Chunks, AllIgnored, HasBom, Run;
    if AllIgnored(Chunks(mid, ROOM)) {
      forall a, b | AtLineStart(a) && (a == "" ==> !HasBom(b)) ensures Harmless(a, mid, b, h) {
        InsertIgnoredText(a, mid, b, h);
      }
    } else if forall a, b :: AtLineStart(a) && (a == "" ==> !HasBom(b)) ==> Harmless(a, mid, b, h) {
      assert Harmless(HeaderLine("x", ""), mid, "", h) && Harmless(HeaderLine("y", ""), mid, "", h);
      AfterHeader("x", mid, h);
      AfterHeader("y", mid, h);
      Visible(State("x", "", 1, 0, []), "y", Chunks(mid, ROOM), h);
      assert false;
    }
  }

  /** A comment line of more than 199 characters need not be ignored: it is read in
      two pieces, and the second one is a line of its own. */
  lemma {:induction false} LongCommentIsRead(pad: string, h: Handler)
    requires |pad| == 198 && Plain(pad)
    ensures Ignored(";" + pad + "a = b\n")
    ensures Parse(";" + pad + "a = b\n", h).events == [Event("", "a", "b")]
  {
    hide Parse, Ignored, Plain, IsLine, NoNul;
    var first, second := ";" + pad, "a = b\n";
    PlainComment(pad);
    PrintedLine();
    CommentIgnored(pad, second);
    CommentIgnored(pad, "");
    assert first + "" == first;
    TwoPieces(first, second);
    PairAfterComment(first, h);
    ParseTwo(first, second, h);
  }

  lemma {:induction false} PlainComment(pad: string)
    requires Plain(pad)
    ensures Plain(";" + pad)
  {
  }

  lemma PrintedLine()
    ensures IsLine("a = b\n", ROOM) && NoNul("a = b\n")
  {
  }

  lemma {:induction false} PairAfterComment(first: string, h: Handler)
    requires Ignored(first)
    ensures Step(Step(START, first, h), "a = b\n", h).events == [Event("", "a", "b")]
  {
    hide Ignored, Step;
    IgnoredStep(START, first, h);
    assert Assignment("a", "b") == "a = b\n";
    ReadableEntry(START.(lineno := 1), "a", "b", h);
  }

  lemma {:induction false} ParseTwo(first: string, second: string, h: Handler)
    requires Chunks(first + second, ROOM) == [first, second] && Plain(first) && NoNul(second)
    ensures Parse(first + second, h) == Step(Step(START, first, h), second, h)
  {
    hide Step, Chunks;
    PlainLine(first);
    PlainLine(second);
    RunCons(START, first, [second], h);
    RunCons(Step(START, first, h), second, [], h);
    assert [first, second] == [first] + [second] && [second] == [second] + [];
  }

  lemma {:induction false} CommentIgnored(pad: string, rest: string)
    ensures Ignored(";" + pad + rest)
  {
    var raw := ";" + pad + rest;
    var w := TrimRight(raw);
    TrimRightCutsSpace(raw);
    assert raw[0] == ';' && !IsSpace(raw[0]);
    hide TrimRight, TrimLeft;
    assert w != "" && w[0] == ';';
    TrimLeftIs(w, 0);
  }

  lemma {:induction false} TwoPieces(first: string, second: string)
    requires |first| == ROOM && Plain(first) && IsLine(second, ROOM)
    ensures Chunks(first + second, ROOM) == [first, second]
  {
    var text := first + second;
    assert forall k :: 0 <= k < ROOM ==> text[k] == first[k];
    ChunkLengthNoNewline(text, ROOM, ROOM);
    assert text[..ROOM] == first && text[ROOM..] == second;
    hide Chunks, ChunkLength;
    FirstChunk(text, ROOM);
    ChunksOfLine(second, "", ROOM);
    NoChunksIn(ROOM);
    assert second + "" == second;
  }

  lemma LinesExist(a: string, b: string)
    ensures a != "" ==> |Chunks(a, ROOM)| > 0
    ensures b == "" ==> Chunks(b, ROOM) == []
  {
  }

  lemma {:induction false} NoBomInChunk(b: string)
    requires b != "" && !HasBom(b)
    ensures Chunks(b, ROOM) != [] && !HasBom(Line(Chunks(b, ROOM)[0]))
  {
    FirstChunk(b, ROOM);
    var chunk := Chunks(b, ROOM)[0];
    assert forall k :: 0 <= k < |Line(chunk)| ==> Line(chunk)[k] == chunk[k] == b[k];
  }

  // ---------- the byte-order mark ----------

  const BOM: string := "\U{EF}\U{BB}\U{BF}"

  lemma {:induction false} BomLine(chunk: string)
    ensures Line(BOM + chunk) == BOM + Line(chunk)
  {
    BomText();
    hide BOM;
    MarkedLine(BOM, chunk);
  }

  lemma {:induction false} MarkedLine(mark: string, chunk: string)
    requires |mark| == 3 && NoNul(mark)
    ensures Line(mark + chunk) == mark + Line(chunk)
  {
    hide NulAt;
    var b, e := mark + chunk, NulAt(chunk, 0);
    NoNulBefore(chunk, 0);
    assert forall k :: 3 <= k < e + 3 ==> b[k] == chunk[k - 3];
    assert forall k :: 0 <= k < 3 ==> b[k] == mark[k];
    if e < |chunk| {
      assert b[e + 3] == chunk[e];
      NulIs(b, 0, e + 3);
    } else {
    }
    assert b[0..e + 3] == mark + chunk[0..e];
  }

  lemma {:induction false} BomStep(raw: string, h: Handler)
    requires !HasBom(raw)
    ensures Step(START, BOM + raw, h) == Step(START, raw, h)
  {
    assert (BOM + raw)[3..] == raw && HasBom(BOM + raw);
    hide TrimRight, TrimLeft, SectionLine, PairLine;
  }

  lemma {:induction false} BomChunk(content: string)
    requires content != "" && ChunkLength(content, 199) <= 196
    ensures Chunks(BOM + content, 199) == [BOM + content[..ChunkLength(content, 199)]] + Chunks(content[ChunkLength(content, 199)..], 199)
  {
    BomText();
    hide ChunkLength, Chunks, BOM;
    MarkedChunk(BOM, content);
  }

  lemma BomText()
    ensures |BOM| == 3 && NoNul(BOM) && forall k :: 0 <= k < |BOM| ==> BOM[k] != '\n'
  {
  }

  lemma {:induction false} MarkedChunk(mark: string, content: string)
    requires |mark| == 3 && forall k :: 0 <= k < |mark| ==> mark[k] != '\n'
    requires content != "" && ChunkLength(content, 199) <= 196
    ensures var n := ChunkLength(content, 199);
            Chunks(mark + content, 199) == [mark + content[..n]] + Chunks(content[n..], 199)
  {
    hide ChunkLength, Chunks;
    var n, s := ChunkLength(content, 199), mark + content;
    assert forall k :: 3 <= k < n + 3 ==> s[k] == content[k - 3];
    if content[n - 1] == '\n' {
      ChunkLengthIs(s, 199, n + 3);
    } else {
      ChunkLengthNoNewline(s, 199, n + 3);
    }
    FirstChunk(s, 199);
    assert s[..n + 3] == mark + content[..n] && s[n + 3..] == content[n..];
  }

  /** A byte-order mark in front of a first line that fits beside it changes nothing. */
  lemma {:induction false} BomIsSkipped(content: string, h: Handler)
    requires content != "" && ChunkLength(content, 199) <= 196 && !HasBom(content)
    ensures Parse(BOM + content, h) == Parse(content, h)
  {
    hide ChunkLength, Chunks, Step, Line, HasBom;
    var n := ChunkLength(content, 199);
    var chunk, rest := content[..n], Chunks(content[n..], 199);
    BomChunk(content);
    FirstChunk(content, 199);
    BomLine(chunk);
    NoBomInPiece(content, n);
    BomStep(Line(chunk), h);
    RunCons(START, BOM + chunk, rest, h);
    RunCons(START, chunk, rest, h);
  }

  lemma NoBomInPiece(content: string, n: nat)
    requires n <= |content| && !HasBom(content)
    ensures !HasBom(Line(content[..n]))
  {
    var l := Line(content[..n]);
    assert forall k :: 0 <= k < |l| ==> l[k] == content[k];
  }

  // ---------- the first malformed line ----------

  /** Line `raw` cannot be used where the reader stands in state `st`. */
  predicate Malformed(st: State, raw: string, h: Handler) {
    var t := Body(raw, st.lineno == 0);
    if t == "" || IsComment(t) then false
    else if st.prevName != "" && Indented(raw, st.lineno == 0) then
      !h(st.events + [Event(st.section, st.prevName, t)])
    else if t[0] == '[' then
      var e := Find(t[1..], ']');
      !(e < |t| - 1 && t[1..][e] == ']')
    else
      !IsPair(t) || !h(st.events + [Event(st.section, NameOf(t), ValueOf(t))])
  }

  lemma {:induction false} StepError(st: State, raw: string, h: Handler)
    ensures Step(st, raw, h).error
         == if st.error == 0 && Malformed(st, raw, h) then st.lineno + 1 else st.error
  {
    hide TrimRight, TrimLeft, Separator, Find, IsComment, NameOf, ValueOf, Prefix, IsPair, Body, Indented;
  }

  /** The state in which line number `i + 1` is met. */
  function Before(st: State, cs: seq<string>, i: nat, h: Handler): State
    requires i <= |cs|
  {
    Run(st, cs[..i], h)
  }

  lemma {:induction false} FirstErrorFrom(st: State, cs: seq<string>, h: Handler)
    requires st.error == 0
    ensures var e := Run(st, cs, h).error;
      (e == 0 <==> forall i :: 0 <= i < |cs| ==> !Malformed(Before(st, cs, i, h), Line(cs[i]), h))
      && (e != 0 ==> st.lineno < e <= st.lineno + |cs|
                     && var j := e - st.lineno - 1;
                        Malformed(Before(st, cs, j, h), Line(cs[j]), h)
                        && forall i :: 0 <= i < j ==> !Malformed(Before(st, cs, i, h), Line(cs[i]), h))
    decreases |cs|
  {
    hide Step, Malformed, Line;
    if cs != [] {
      var raw := Line(cs[0]);
      var s := Step(st, raw, h);
      StepError(st, raw, h);
      LineCounted(st, raw, h);
      assert Before(st, cs, 0, h) == st by { assert cs[..0] == []; }
      forall i | 0 < i <= |cs|
        ensures Before(st, cs, i, h) == Before(s, cs[1..], i - 1, h)
      {
        assert cs[..i][1..] == cs[1..][..i - 1];
      }
      if Malformed(st, raw, h) {
        ErrorStays(s, cs[1..], h);
      } else {
        FirstErrorFrom(s, cs[1..], h);
        assert forall i :: 0 <= i < |cs| - 1 ==> cs[1..][i] == cs[i + 1];
        assert forall i :: 0 < i < |cs| ==> Line(cs[i]) == Line(cs[1..][i - 1]);
      }
    }
  }

  lemma {:induction false} ErrorStays(st: State, cs: seq<string>, h: Handler)
    requires st.error != 0
    ensures Run(st, cs, h).error == st.error
    decreases |cs|
  {
    if cs != [] {
      StepError(st, Line(cs[0]), h);
      ErrorStays(Step(st, Line(cs[0]), h), cs[1..], h);
    }
  }

  /** The result is 0 exactly when no line is malformed, otherwise the number of
      the first malformed line. */
  lemma {:induction false} FirstError(content: string, h: Handler)
    ensures var cs, e := Chunks(content, ROOM), Parse(content, h).error;
      (e == 0 <==> forall i :: 0 <= i < |cs| ==> !Malformed(Before(START, cs, i, h), Line(cs[i]), h))
      && (e != 0 ==> e <= |cs| && Malformed(Before(START, cs, e - 1, h), Line(cs[e - 1]), h)
                     && forall i :: 0 <= i < e - 1 ==> !Malformed(Before(START, cs, i, h), Line(cs[i]), h))
  {
    hide Malformed, Before, Chunks;
    FirstErrorFrom(START, Chunks(content, ROOM), h);
  }

  lemma StepIgnoresError(st: State, err: nat, raw: string, h: Handler)
    ensures var s, s' := Step(st, raw, h), Step(st.(error := err), raw, h);
            s' == s.(error := s'.error)
  {
    hide Body, Indented, IsComment, SectionLine, PairLine;
    var s, t := st.(lineno := st.lineno + 1), Body(raw, st.lineno == 0);
    EmitIgnoresError(s, err, s.prevName, t, h);
    PairIgnoresError(s, err, t, h);
    if t != "" {
      SectionIgnoresError(s, err, t[1..]);
    }
  }

  lemma EmitIgnoresError(s: State, err: nat, name: string, value: string, h: Handler)
    ensures var r, r' := s.Emit(name, value, h), s.(error := err).Emit(name, value, h); r' == r.(error := r'.error)
  {
  }

  lemma SectionIgnoresError(s: State, err: nat, t: string)
    ensures var r, r' := SectionLine(s, t), SectionLine(s.(error := err), t); r' == r.(error := r'.error)
  {
    hide Find;
  }

  lemma PairIgnoresError(s: State, err: nat, t: string, h: Handler)
    ensures var r, r' := PairLine(s, t, h), PairLine(s.(error := err), t, h); r' == r.(error := r'.error)
  {
    hide NameOf, ValueOf, IsPair;
    if IsPair(t) {
      EmitIgnoresError(s.(prevName := Prefix(NameOf(t), MAX_NAME - 1)), err, NameOf(t), ValueOf(t), h);
    }
  }

  /** An error never stops the reader: what is read does not depend on it. */
  lemma {:induction false} ReadingGoesOn(st: State, err: nat, cs: seq<string>, h: Handler)
    ensures var r, r' := Run(st, cs, h), Run(st.(error := err), cs, h);
            r'.events == r.events && r'.section == r.section && r'.prevName == r.prevName
    decreases |cs|
  {
    if cs != [] {
      var s, s' := Step(st, Line(cs[0]), h), Step(st.(error := err), Line(cs[0]), h);
      StepIgnoresError(st, err, Line(cs[0]), h);
      hide Step;
      ReadingGoesOn(s, s'.error, cs[1..], h);
    }
  }
}
