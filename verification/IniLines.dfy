/**
 What the INI reader makes of single lines: entries in any layout, with or without
 a comment behind them, section headers, continuations and malformed lines.
 */
module IniLines {
  import opened Wrappers
  import opened CString
  import opened Ini

  const ROOM := MAX_LINE - 1

  /** The blanks are the space and the codes 9 to 13. */
  lemma BlanksAre(c: char)
    ensures IsSpace(c) <==> c as int == 32 || 9 <= c as int <= 13
  {
  }

  predicate Plain(s: string) {
    forall k :: 0 <= k < |s| ==> s[k] != '\n' && s[k] != NUL
  }

  predicate Trimmed(s: string) {
    s != "" ==> !IsSpace(s[0]) && !IsSpace(s[|s| - 1])
  }

  /** No whitespace is followed by ';'. */
  predicate Uncommentable(s: string) {
    forall k :: 0 < k < |s| && s[k] == ';' ==> !IsSpace(s[k - 1])
  }

  predicate ReadableName(n: string) {
    && Trimmed(n) && Uncommentable(n)
    && (forall k :: 0 <= k < |n| ==> n[k] != '=')
    && (n != "" ==> n[0] != ';' && n[0] != '#' && n[0] != '[')
  }

  predicate ReadableValue(v: string) {
    Trimmed(v) && Uncommentable(v)
  }

  // ---------- a plain assignment ----------

  function Assignment(n: string, v: string): string {
    n + " = " + v + "\n"
  }

  /** The body of a printed entry: the text, without the blank an empty value leaves. */
  function EntryBody(n: string, v: string): string {
    n + (if n == "" then "=" else " =") + (if v == "" then "" else " " + v)
  }

  lemma {:induction false} BodyOfEntry(n: string, v: string)
    requires Trimmed(n) && Trimmed(v)
    ensures Body(Assignment(n, v), false) == EntryBody(n, v)
    ensures n != "" ==> !Indented(Assignment(n, v), false)
  {
    hide TrimRight, TrimLeft;
    var raw := Assignment(n, v);
    var whole := if v == "" then n + " =" else n + " = " + v;
    TrimRightIs(raw, |whole|);
    assert TrimRight(raw) == whole;
    TrimLeftIs(whole, if n == "" then 1 else 0);
    assert EntryBody(n, v) == if n == "" then whole[1..] else whole;
  }

  /** The separator of a printed entry is the '=' the printer wrote. */
  lemma {:induction false} EntrySeparator(n: string, t: string, rest: string)
    requires ReadableName(n) && t == n + (if n == "" then "=" else " =") + rest
    ensures IsPair(t) && Separator(t) == |t| - |rest| - 1 && t[Separator(t)] == '='
    ensures NameOf(t) == n && t[Separator(t) + 1..] == rest
  {
    var e := |t| - |rest| - 1;
    FindIs(t, '=', e);
    TrimRightIs(t[..e], |n|);
  }

  lemma {:induction false} ValueOfPrinted(v: string, rest: string)
    requires ReadableValue(v) && rest == (if v == "" then "" else " " + v)
    ensures Plain(v) ==> TrimRight(Uncommented(TrimLeft(rest))) == v
  {
    if Plain(v) {
      TrimLeftIs(rest, |rest| - |v|);
      FindIs(v, NUL, |v|);
      TrimRightIs(v, |v|);
    }
  }

  lemma StepOnPair(s: State, raw: string, t: string, h: Handler)
    requires s.lineno > 0 && t == Body(raw, false)
    requires t != "" && !IsComment(t) && t[0] != '[' && IsPair(t)
    requires s.prevName == "" || !Indented(raw, false)
    ensures Step(s, raw, h)
         == s.(lineno := s.lineno + 1, prevName := Prefix(NameOf(t), MAX_NAME - 1)).Emit(NameOf(t), ValueOf(t), h)
  {
  }

  /** A readable entry comes back unchanged, whatever state the reader is in. */
  lemma {:induction false} ReadableEntry(s: State, n: string, v: string, h: Handler)
    requires s.lineno > 0 && (n == "" ==> s.prevName == "")
    requires Plain(v) && ReadableName(n) && ReadableValue(v)
    ensures Step(s, Assignment(n, v), h)
         == s.(lineno := s.lineno + 1, prevName := Prefix(n, MAX_NAME - 1)).Emit(n, v, h)
  {
    hide TrimRight, TrimLeft, Find, IsSpace, NameOf, Separator, Step, Body, Indented, Assignment;
    var t := EntryBody(n, v);
    var rest := if v == "" then "" else " " + v;
    BodyOfEntry(n, v);
    EntrySeparator(n, t, rest);
    ValueOfPrinted(v, rest);
    assert t[0] == if n == "" then '=' else n[0];
    StepOnPair(s, Assignment(n, v), t, h);
  }

  // ---------- exactly which entries read back ----------

  lemma {:induction false} ValuesAreReadable(t: string)
    requires IsPair(t)
    ensures ReadableValue(ValueOf(t))
  {
    hide TrimRight, TrimLeft, FindFrom, IsSpace, Separator;
    var x := t[Separator(t) + 1..];
    var left := TrimLeft(x);
    TrimLeftCutsSpace(x);
    NoStopBefore(left, NUL, 0);
    TrimRightCutsSpace(Uncommented(left));
    var v := ValueOf(t);
    assert forall k :: 0 <= k < |v| ==> v[k] == left[k] && !StopsAt(left, k, NUL);
  }

  lemma {:induction false} NamesAreReadable(t: string)
    requires IsPair(t) && !IsComment(t) && t[0] != '[' && !IsSpace(t[0])
    ensures ReadableName(NameOf(t))
  {
    var i, e := Find(t, '='), Separator(t);
    NoStopBefore(t, '=', 0);
    NoStopBefore(t, ':', 0);
    assert e <= i by {
      assert i < |t| && t[i] != '=' ==> StopsAt(t, i, ':');
    }
    TrimRightCutsSpace(t[..e]);
    var n := NameOf(t);
    assert forall k :: 0 <= k < |n| ==> n[k] == t[k] && !StopsAt(t, k, '=');
  }

  lemma {:induction false} BodyIsLonger(n: string, v: string)
    ensures Body(Assignment(n, v), false) != v
  {
    hide TrimRight, TrimLeft;
    var raw := Assignment(n, v);
    var w := TrimRight(raw);
    TrimRightCutsSpace(raw);
    assert raw[|n| + 1] == '=';
    assert |w| > |n| + 1 && w[|n| + 1] == '=';
    TrimLeftCutsSpace(w);
    var t := TrimLeft(w);
    assert |w| - |t| <= |n| + 1;
    assert t[|t| - 1] == w[|w| - 1] == raw[|w| - 1];
    if v != "" && !IsSpace(v[|v| - 1]) {
      assert raw[|n| + 2 + |v|] == v[|v| - 1];
      assert |w| >= |n| + 3 + |v|;
    }
  }

  lemma {:induction false} BodyFacts(raw: string)
    ensures Body(raw, false) != "" ==> !IsSpace(Body(raw, false)[0])
    ensures raw != "" && IsSpace(raw[0]) && Body(raw, false) != "" ==> Indented(raw, false)
  {
    TrimRightCutsSpace(raw);
    TrimLeftCutsSpace(TrimRight(raw));
  }

  /** `name = value` is read back as that pair if and only if the name and the
      value are readable (an empty name also needs an empty continuation name). */
  lemma {:induction false} EntryReadsBackIff(s: State, n: string, v: string, h: Handler)
    requires s.lineno > 0 && Plain(v)
    ensures Step(s, Assignment(n, v), h).events == s.events + [Event(s.section, n, v)]
       <==> ReadableName(n) && ReadableValue(v) && (n == "" ==> s.prevName == "")
  {
    hide TrimRight, TrimLeft, Find, FindFrom, IsSpace, NameOf, ValueOf, Separator, Body, Indented, IsPair,
         Assignment, SectionLine, ReadableName, ReadableValue, Plain;
    var raw := Assignment(n, v);
    var r := Step(s, raw, h);
    if r.events == s.events + [Event(s.section, n, v)] {
      var t := Body(raw, false);
      BodyIsLonger(n, v);
      BodyFacts(raw);
      EmptyNameIsIndented(n, v);
      SectionEmitsNothing(s.(lineno := s.lineno + 1), t);
      assert r.events[|s.events|] == Event(s.section, n, v);
      assert IsPair(t) && NameOf(t) == n && ValueOf(t) == v;
      ValuesAreReadable(t);
      NamesAreReadable(t);
    } else if ReadableName(n) && ReadableValue(v) && (n == "" ==> s.prevName == "") {
      ReadableEntry(s, n, v, h);
    }
  }

  lemma SectionEmitsNothing(s: State, t: string)
    ensures t != "" ==> SectionLine(s, t[1..]).events == s.events
  {
  }

  lemma {:induction false} EmptyNameIsIndented(n: string, v: string)
    ensures var raw := Assignment(n, v); n == "" && Body(raw, false) != "" ==> Indented(raw, false)
  {
    BodyFacts(Assignment(n, v));
  }

  // ---------- any layout ----------

  /** Blanks inside a line. */
  predicate AllBlank(s: string) {
    forall k :: 0 <= k < |s| ==> s[k] == ' ' || s[k] == '\t' || s[k] == '\U{0B}' || s[k] == '\U{0C}' || s[k] == '\r'
  }

  /** How an entry is written: blanks in front of the separator, behind it and behind
      the value, and a comment after those. */
  datatype Layout = Layout(gap: string, sep: char, lead: string, tail: string, comment: Option<string>)

  const SIMPLE := Layout(" ", '=', " ", "", None)

  function CommentText(comment: Option<string>): string {
    if comment.Some? then ";" + comment.value else ""
  }

  function LaidOut(n: string, v: string, l: Layout): string {
    n + l.gap + [l.sep] + l.lead + v + l.tail + CommentText(l.comment) + "\n"
  }

  /** A ':' separates only where no '=' does; a comment needs a blank and a value in
      front of it. */
  predicate ReadableLayout(n: string, v: string, l: Layout) {
    && AllBlank(l.gap) && AllBlank(l.lead) && AllBlank(l.tail)
    && (l.sep == '=' || (l.sep == ':' && (forall k :: 0 <= k < |n| ==> n[k] != ':') && forall k :: 0 <= k < |v| ==> v[k] != '='))
    && (l.comment.Some? ==> Plain(l.comment.value) && l.tail != "" && v != "")
  }

  /** The part of the trimmed line behind the separator. */
  function Rest(v: string, l: Layout): string {
    if l.comment.Some? then l.lead + v + l.tail + ";" + TrimRight(l.comment.value)
    else if v == "" then "" else l.lead + v
  }

  lemma {:induction false} BlankIsSpace(s: string)
    requires AllBlank(s)
    ensures forall k :: 0 <= k < |s| ==> IsSpace(s[k]) && s[k] != '=' && s[k] != ':' && s[k] != ';' && s[k] != NUL
  {
  }

  lemma {:induction false} LaidOutBody(n: string, v: string, l: Layout)
    requires n != "" && Trimmed(n) && Trimmed(v) && ReadableLayout(n, v, l)
    ensures Body(LaidOut(n, v, l), false) == n + l.gap + [l.sep] + Rest(v, l)
    ensures !Indented(LaidOut(n, v, l), false)
  {
    var raw, t := LaidOut(n, v, l), n + l.gap + [l.sep] + Rest(v, l);
    TrimmedLine(n, v, l);
    hide TrimRight, TrimLeft, Rest, LaidOut;
    assert TrimRight(raw) == t;
    assert t[0] == n[0];
    TrimLeftIs(t, 0);
  }

  lemma {:induction false} TrimmedLine(n: string, v: string, l: Layout)
    requires Trimmed(v) && ReadableLayout(n, v, l)
    ensures TrimRight(LaidOut(n, v, l)) == n + l.gap + [l.sep] + Rest(v, l)
  {
    var front := n + l.gap + [l.sep];
    BlankIsSpace(l.lead);
    BlankIsSpace(l.tail);
    hide TrimRight, IsSpace;
    NotBlank(l.sep);
    if l.comment.Some? {
      TrimmedComment(front, l.lead + v + l.tail, l.comment.value);
      Regroup(front, l.lead, v, l.tail, l.comment.value);
    } else if v == "" {
      TrimmedAfter(front, l.lead + l.tail);
      RegroupEmpty(front, l.lead, l.tail);
    } else {
      TrimmedAfter(front + (l.lead + v), l.tail);
      RegroupValue(front, l.lead, v, l.tail);
    }
  }

  lemma NotBlank(sep: char)
    ensures sep == '=' || sep == ':' || sep == ';' ==> !IsSpace(sep)
  {
  }

  lemma Regroup(front: string, lead: string, v: string, tail: string, c: string)
    ensures front + lead + v + tail + (";" + c) + "\n" == front + (lead + v + tail) + ";" + (c + "\n")
  {
  }

  lemma RegroupEmpty(front: string, lead: string, tail: string)
    ensures front + lead + "" + tail + "" + "\n" == front + (lead + tail + "\n") && front + "" == front
  {
  }

  lemma RegroupValue(front: string, lead: string, v: string, tail: string)
    ensures front + lead + v + tail + "" + "\n" == front + (lead + v) + (tail + "\n")
  {
  }

  /** Blanks and the newline behind a text are cut. */
  lemma {:induction false} TrimmedAfter(text: string, blanks: string)
    requires text != "" && !IsSpace(text[|text| - 1]) && forall k :: 0 <= k < |blanks| ==> IsSpace(blanks[k])
    ensures TrimRight(text + (blanks + "\n")) == text
  {
    var more := blanks + "\n";
    assert forall k :: 0 <= k < |more| ==> IsSpace(more[k]);
    hide TrimRight, IsSpace;
    CutBehind(text, more, 0);
    assert text + more[..0] == text;
  }

  /** A comment loses the blanks at its end. */
  lemma {:induction false} TrimmedComment(front: string, middle: string, c: string)
    ensures TrimRight(front + middle + ";" + (c + "\n")) == front + (middle + ";" + TrimRight(c))
  {
    var text, kept, more := front + middle + ";", TrimRight(c), c + "\n";
    TrimRightCutsSpace(c);
    assert forall k :: |kept| <= k < |more| ==> IsSpace(more[k]);
    NotBlank(';');
    hide TrimRight, IsSpace;
    assert kept != "" ==> more[|kept| - 1] == c[|kept| - 1];
    CutBehind(text, more, |kept|);
    assert more[..|kept|] == kept;
    assert text + kept == front + (middle + ";" + kept);
  }

  /** A text that does not end in a blank, and what blanks behind it leave. */
  lemma {:induction false} CutBehind(text: string, more: string, n: nat)
    requires text != "" && !IsSpace(text[|text| - 1])
    requires n <= |more| && (n > 0 ==> !IsSpace(more[n - 1])) && forall k :: n <= k < |more| ==> IsSpace(more[k])
    ensures TrimRight(text + more) == text + more[..n]
  {
    hide IsSpace;
    TrimRightIs(text + more, |text| + n);
    assert (text + more)[..|text| + n] == text + more[..n];
  }

  lemma StopsInFront(f: string, x: string, k: nat, c: char)
    requires k < |f|
    ensures StopsAt(f + x, k, c) <==> StopsAt(f, k, c)
  {
    hide IsSpace;
    assert (f + x)[k] == f[k] && (k > 0 ==> (f + x)[k - 1] == f[k - 1]);
  }

  /** A search ends behind a text it does not stop in. */
  lemma {:induction false} FoundBehind(f: string, c: char, rest: string)
    requires forall k :: 0 <= k < |f| ==> !StopsAt(f, k, c)
    ensures Find(f + ([c] + rest), c) == |f|
  {
    var t := f + ([c] + rest);
    assert t[|f|] == c && StopsAt(t, |f|, c);
    hide StopsAt, FindFrom;
    forall k | 0 <= k < |f| ensures !StopsAt(t, k, c) {
      StopsInFront(f, [c] + rest, k, c);
    }
    FindIs(t, c, |f|);
  }

  /** Nothing stops a search for a separator in a name and the blanks behind it. */
  lemma {:induction false} NameUnstopped(n: string, gap: string, c: char)
    requires Uncommentable(n) && AllBlank(gap) && (c == '=' || c == ':') && forall k :: 0 <= k < |n| ==> n[k] != c
    ensures forall k :: 0 <= k < |n + gap| ==> !StopsAt(n + gap, k, c)
  {
    BlankIsSpace(gap);
    var f := n + gap;
    forall k | 0 <= k < |f| ensures !StopsAt(f, k, c) {
      if k < |n| {
        StopsInFront(n, gap, k, c);
      } else {
        assert f[k] == gap[k - |n|];
      }
    }
  }

  /** The separator found is the one written. */
  lemma {:induction false} LaidOutSeparator(n: string, v: string, l: Layout, t: string)
    requires n != "" && ReadableName(n) && ReadableLayout(n, v, l)
    requires t == n + l.gap + [l.sep] + Rest(v, l)
    ensures Separator(t) == |n| + |l.gap| && IsPair(t) && t[Separator(t) + 1..] == Rest(v, l)
  {
    var f := n + l.gap;
    NameUnstopped(n, l.gap, l.sep);
    hide Rest, Find, TrimRight, StopsAt;
    assert t == f + ([l.sep] + Rest(v, l));
    FoundBehind(f, l.sep, Rest(v, l));
    assert t[|f|] == l.sep && t[|f| + 1..] == Rest(v, l);
    if l.sep == ':' {
      NoEquals(n, v, l, t);
    }
  }

  /** The search for '=' does not find one in a text without, or behind a comment. */
  lemma {:induction false} NoEqualsIn(text: string, x: string)
    requires text != "" && forall k :: 0 <= k < |text| ==> text[k] != '='
    requires x == "" || (x[0] == ';' && IsSpace(text[|text| - 1]))
    ensures var t := text + x; Find(t, '=') < |t| ==> t[Find(t, '=')] != '='
  {
    var t := text + x;
    assert x != "" ==> t[|text|] == ';' && t[|text| - 1] == text[|text| - 1] && StopsAt(t, |text|, '=');
    assert forall k :: 0 <= k < |text| ==> t[k] == text[k];
    NoStopBefore(t, '=', 0);
    hide FindFrom, StopsAt, IsSpace;
  }

  /** With ':' as separator the search for '=' ends without one. */
  lemma {:induction false} NoEquals(n: string, v: string, l: Layout, t: string)
    requires n != "" && ReadableName(n) && ReadableLayout(n, v, l) && l.sep == ':'
    requires t == n + l.gap + [l.sep] + Rest(v, l)
    ensures Find(t, '=') < |t| ==> t[Find(t, '=')] != '='
  {
    NoEqualsThere(n, v, l);
    hide Find, TrimRight, IsSpace, ReadableName, AllBlank;
    var front := n + l.gap + [':'];
    if l.comment.Some? {
      var text := front + (l.lead + v + l.tail);
      assert t == text + (";" + TrimRight(l.comment.value));
      NoEqualsIn(text, ";" + TrimRight(l.comment.value));
    } else {
      var text := if v == "" then front else front + (l.lead + v);
      assert t == text + "";
      NoEqualsIn(text, "");
    }
  }

  lemma {:induction false} NoEqualsThere(n: string, v: string, l: Layout)
    requires n != "" && ReadableName(n) && ReadableLayout(n, v, l) && l.sep == ':'
    ensures var text := n + l.gap + [':'] + (l.lead + v + l.tail);
            (forall k :: 0 <= k < |text| ==> text[k] != '=') && (l.tail != "" ==> IsSpace(text[|text| - 1]))
    ensures var text := n + l.gap + [':'] + (l.lead + v); forall k :: 0 <= k < |text| ==> text[k] != '='
    ensures var text := n + l.gap + [':']; forall k :: 0 <= k < |text| ==> text[k] != '='
  {
    BlankIsSpace(l.gap);
    BlankIsSpace(l.lead);
    BlankIsSpace(l.tail);
    hide IsSpace;
    var text := n + l.gap + [':'] + (l.lead + v + l.tail);
    assert l.tail != "" ==> text[|text| - 1] == l.tail[|l.tail| - 1];
  }

  lemma {:induction false} LaidOutValue(v: string, l: Layout, n: string)
    requires ReadableValue(v) && Plain(v) && ReadableLayout(n, v, l)
    ensures TrimRight(Uncommented(TrimLeft(Rest(v, l)))) == v
  {
    BlankIsSpace(l.lead);
    hide TrimLeft, FindFrom, TrimRight, IsSpace, Plain;
    if l.comment.Some? {
      CommentedValue(l.lead, v, l.tail, TrimRight(l.comment.value));
    } else if v == "" {
      TrimLeftIs("", 0);
      FindIs("", NUL, 0);
      TrimRightIs("", 0);
    } else {
      LeadCut(l.lead, v);
    }
  }

  lemma {:induction false} CommentedValue(lead: string, v: string, tail: string, c: string)
    requires v != "" && ReadableValue(v) && Plain(v) && AllBlank(tail) && tail != ""
    requires forall k :: 0 <= k < |lead| ==> IsSpace(lead[k])
    ensures TrimRight(Uncommented(TrimLeft(lead + v + tail + ";" + c))) == v
  {
    BlankIsSpace(tail);
    var more := v + tail + ";" + c;
    hide TrimLeft, FindFrom, TrimRight, IsSpace, Plain, AllBlank;
    assert lead + v + tail + ";" + c == lead + more;
    LeadCut(lead, more);
    CommentFound(v, tail, c);
    assert more[..|v| + |tail|] == v + tail;
    TrimRightIs(v + tail, |v|);
  }

  lemma {:induction false} LeadCut(lead: string, more: string)
    requires (forall k :: 0 <= k < |lead| ==> IsSpace(lead[k])) && more != "" && !IsSpace(more[0])
    ensures TrimLeft(lead + more) == more
  {
    hide IsSpace;
    TrimLeftIs(lead + more, |lead|);
  }

  /** The comment is found at its ';'. */
  lemma {:induction false} CommentFound(v: string, tail: string, c: string)
    requires v != "" && ReadableValue(v) && Plain(v) && AllBlank(tail) && tail != ""
    ensures Find(v + tail + ";" + c, NUL) == |v| + |tail|
  {
    BlankIsSpace(tail);
    var text := v + tail;
    var s := text + ";" + c;
    assert forall k :: 0 <= k < |text| ==> s[k] == text[k];
    assert text[|text| - 1] == tail[|tail| - 1];
    FindIs(s, NUL, |text|);
  }

  /** In any layout, with any comment behind it, a readable entry comes back as its
      name and value, whatever state the reader is in. */
  lemma {:induction false} LaidOutEntry(s: State, n: string, v: string, l: Layout, h: Handler)
    requires s.lineno > 0 && n != "" && Plain(n) && Plain(v)
    requires ReadableName(n) && ReadableValue(v) && ReadableLayout(n, v, l)
    ensures Step(s, LaidOut(n, v, l), h)
         == s.(lineno := s.lineno + 1, prevName := Prefix(n, MAX_NAME - 1)).Emit(n, v, h)
  {
    hide TrimRight, TrimLeft, Find, FindFrom, Rest, LaidOut, IsSpace, Step, Body, Indented, Separator;
    var t := n + l.gap + [l.sep] + Rest(v, l);
    LaidOutBody(n, v, l);
    LaidOutSeparator(n, v, l, t);
    assert t[..Separator(t)] == n + l.gap;
    NameCut(n, l.gap);
    LaidOutValue(v, l, n);
    assert t[0] == n[0];
    StepOnPair(s, LaidOut(n, v, l), t, h);
  }

  lemma {:induction false} NameCut(n: string, gap: string)
    requires n != "" && Trimmed(n) && AllBlank(gap)
    ensures TrimRight(n + gap) == n
  {
    BlankIsSpace(gap);
    hide TrimRight;
    TrimRightIs(n + gap, |n|);
  }

  /** A ';' with only blanks between it and the separator opens no comment: the value
      read begins with it. */
  lemma {:induction false} EmptyValueKeepsComment(s: State, n: string, blanks: string, c: string, h: Handler)
    requires s.lineno > 0 && n != "" && Plain(n) && Plain(c) && ReadableName(n) && AllBlank(blanks)
    ensures var r := Step(s, n + " =" + blanks + ";" + c + "\n", h);
            |r.events| == |s.events| + 1
            && var v := r.events[|s.events|].value; v != "" && v[0] == ';'
  {
    var rest := blanks + ";" + TrimRight(c);
    var raw, t := n + " =" + blanks + ";" + c + "\n", n + " =" + rest;
    TrimRightCutsSpace(c);
    KeptBody(n, blanks, c);
    hide TrimRight, TrimLeft;
    EntrySeparator(n, t, rest);
    KeptValue(blanks, TrimRight(c));
    assert t[0] == n[0];
    hide Body, Indented, Separator, Find, FindFrom;
    StepOnPair(s, raw, t, h);
  }

  /** `n = v ;c` is read as that pair if and only if there is a value. */
  lemma {:induction false} CommentedReadsBackIff(s: State, n: string, v: string, c: string, h: Handler)
    requires s.lineno > 0 && n != "" && Plain(n) && Plain(v) && Plain(c) && ReadableName(n) && ReadableValue(v)
    ensures Step(s, n + " = " + v + " ;" + c + "\n", h).events == s.events + [Event(s.section, n, v)] <==> v != ""
  {
    hide Step;
    if v == "" {
      EmptyValueKeepsComment(s, n, "  ", c, h);
      assert n + " = " + v + " ;" + c + "\n" == n + " =" + "  " + ";" + c + "\n";
      assert (s.events + [Event(s.section, n, v)])[|s.events|].value == "";
    } else {
      var l := Layout(" ", '=', " ", " ", Some(c));
      LaidOutEntry(s, n, v, l, h);
      assert n + " = " + v + " ;" + c + "\n" == LaidOut(n, v, l);
    }
  }

  lemma {:induction false} KeptBody(n: string, blanks: string, c: string)
    requires n != "" && Trimmed(n)
    ensures var raw := n + " =" + blanks + ";" + c + "\n";
            Body(raw, false) == n + " =" + (blanks + ";" + TrimRight(c)) && !Indented(raw, false)
  {
    var raw := n + " =" + blanks + ";" + c + "\n";
    TrimmedComment(n + " =", blanks, c);
    hide TrimRight, TrimLeft;
    assert raw == n + " =" + blanks + ";" + (c + "\n");
    var t := n + " =" + (blanks + ";" + TrimRight(c));
    assert t[0] == n[0];
    TrimLeftIs(t, 0);
  }

  lemma {:induction false} KeptValue(blanks: string, c: string)
    requires AllBlank(blanks)
    ensures var v := TrimRight(Uncommented(TrimLeft(blanks + ";" + c))); v != "" && v[0] == ';'
  {
    BlankIsSpace(blanks);
    NotBlank(';');
    var x := ";" + c;
    hide TrimRight, TrimLeft, IsSpace;
    assert blanks + ";" + c == blanks + x;
    LeadCut(blanks, x);
    var u := Uncommented(x);
    assert u != "" && u[0] == ';';
    TrimRightCutsSpace(u);
  }

  // ---------- section headers ----------

  predicate WellFormedTitle(t: string) {
    && Plain(t) && Uncommentable(t)
    && forall k :: 0 <= k < |t| ==> t[k] != ']'
  }

  /** Whatever stands behind the bracket is ignored. */
  function HeaderLine(title: string, trail: string): string {
    "[" + title + "]" + trail + "\n"
  }

  /** A header begins its section; a title keeps its first 49 characters. */
  lemma {:induction false} HeaderRead(s: State, title: string, trail: string, h: Handler)
    requires WellFormedTitle(title)
    ensures Step(s, HeaderLine(title, trail), h)
         == s.(lineno := s.lineno + 1, section := if |title| <= 49 then title else title[..49], prevName := "")
  {
    var raw, text := HeaderLine(title, trail), "[" + title + "]";
    var kept := TrimRight(trail);
    HeaderBody(title, trail);
    hide TrimRight, TrimLeft, FindFrom, Body, Indented;
    var t := text + kept;
    assert t[1..] == title + ("]" + kept);
    BracketFound(title, kept);
    assert t[1..][..|title|] == title;
  }

  lemma {:induction false} HeaderBody(title: string, trail: string)
    ensures forall first :: Body(HeaderLine(title, trail), first) == "[" + title + "]" + TrimRight(trail)
    ensures forall first :: !Indented(HeaderLine(title, trail), first)
  {
    var raw, text := HeaderLine(title, trail), "[" + title + "]";
    TrimRightCutsSpace(trail);
    hide TrimRight, TrimLeft;
    assert raw[0] == '[';
    assert raw == text + (trail + "\n");
    CutBehind(text, trail + "\n", |TrimRight(trail)|);
    assert (trail + "\n")[..|TrimRight(trail)|] == TrimRight(trail);
    var t := text + TrimRight(trail);
    TrimLeftIs(t, 0);
    assert t[0..] == t;
  }

  lemma {:induction false} BracketFound(title: string, kept: string)
    requires WellFormedTitle(title)
    ensures Find(title + ("]" + kept), ']') == |title|
  {
    FindIs(title + ("]" + kept), ']', |title|);
  }

  // ---------- continuations ----------

  /** An indented line continues the entry before it: its text is one more value of
      that name, comments included. */
  lemma {:induction false} ContinuationRead(s: State, blanks: string, t: string, h: Handler)
    requires s.lineno > 0 && s.prevName != "" && AllBlank(blanks) && blanks != ""
    requires t != "" && Trimmed(t) && t[0] != ';' && t[0] != '#'
    ensures Step(s, blanks + t + "\n", h) == s.(lineno := s.lineno + 1).Emit(s.prevName, t, h)
  {
    BlankIsSpace(blanks);
    var raw := blanks + t + "\n";
    hide TrimRight, TrimLeft;
    TrimRightIs(raw, |blanks| + |t|);
    assert raw[..|blanks| + |t|] == blanks + t;
    LeadCut(blanks, t);
  }

  /** The name continued is the first 49 characters of the entry's. */
  lemma NameContinued(s: State, n: string, v: string, l: Layout, h: Handler)
    requires s.lineno > 0 && n != "" && Plain(n) && Plain(v)
    requires ReadableName(n) && ReadableValue(v) && ReadableLayout(n, v, l)
    ensures Step(s, LaidOut(n, v, l), h).prevName == if |n| <= 49 then n else n[..49]
  {
    hide Step;
    LaidOutEntry(s, n, v, l, h);
  }

  // ---------- malformed lines ----------

  /** A line that ends in its last character and starts no entry's continuation. */
  predicate Bare(s: State, t: string) {
    && s.lineno > 0 && s.prevName == "" && t != "" && Trimmed(t) && Uncommentable(t)
    && t[0] != ';' && t[0] != '#'
  }

  lemma {:induction false} BareBody(s: State, t: string)
    requires Bare(s, t)
    ensures Body(t + "\n", false) == t
  {
    hide TrimRight, TrimLeft;
    TrimRightIs(t + "\n", |t|);
    assert (t + "\n")[..|t|] == t;
    TrimLeftIs(t, 0);
  }

  /** A line with neither '=' nor ':' is an error. */
  lemma {:induction false} MissingSeparator(s: State, t: string, h: Handler)
    requires Bare(s, t) && t[0] != '[' && forall k :: 0 <= k < |t| ==> t[k] != '=' && t[k] != ':'
    ensures Step(s, t + "\n", h) == s.(lineno := s.lineno + 1, error := if s.error == 0 then s.lineno + 1 else s.error)
  {
    BareBody(s, t);
    hide TrimRight, TrimLeft, Body;
    FindIs(t, '=', |t|);
    FindIs(t, ':', |t|);
  }

  /** So is a section without its closing bracket. */
  lemma {:induction false} UnclosedSection(s: State, t: string, h: Handler)
    requires Bare(s, t) && t[0] == '[' && forall k :: 0 <= k < |t| ==> t[k] != ']'
    ensures Step(s, t + "\n", h) == s.(lineno := s.lineno + 1, error := if s.error == 0 then s.lineno + 1 else s.error)
  {
    BareBody(s, t);
    hide TrimRight, TrimLeft, Body;
    assert forall k :: 0 <= k < |t| - 1 ==> t[1..][k] == t[k + 1];
    FindIs(t[1..], ']', |t| - 1);
  }

  /** And an entry its handler rejects. */
  lemma RejectedEntry(s: State, n: string, v: string, l: Layout, h: Handler)
    requires s.lineno > 0 && n != "" && Plain(n) && Plain(v)
    requires ReadableName(n) && ReadableValue(v) && ReadableLayout(n, v, l)
    ensures Step(s, LaidOut(n, v, l), h).error
         == if s.error == 0 && !h(s.events + [Event(s.section, n, v)]) then s.lineno + 1 else s.error
  {
    hide Step;
    LaidOutEntry(s, n, v, l, h);
  }
}
