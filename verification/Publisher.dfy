/**
 Publishing a data file: its lines are wrapped in JSON records, collected ten at
 a time in a 3200-character buffer, and each full buffer is posted.
 */
module Publisher {
  import opened CString
  import opened Lines
  import Rendering
  import opened Wrappers

  const LINE := 320
  const MESSAGE := 10 * 320
  const BATCH := 10

  const SUCCESS := 1
  const FAILED := 0

  // ---------- what is posted ----------

  function Record(fixed: string, line: string): string {
    "{" + fixed + ", " + line + "}"
  }

  /** The records of a batch separated by commas. */
  function Join(fixed: string, batch: seq<string>): string {
    if batch == [] then ""
    else if |batch| == 1 then Record(fixed, batch[0])
    else Record(fixed, batch[0]) + "," + Join(fixed, batch[1..])
  }

  /** A JSON array of the batch's records. */
  function Body(fixed: string, batch: seq<string>): string {
    "[" + Join(fixed, batch) + "]"
  }

  /** One body for each ten lines, and one for the lines left over. */
  function Bodies(fixed: string, lines: seq<string>): seq<string>
    decreases |lines|
  {
    if lines == [] then []
    else if |lines| <= BATCH then [Body(fixed, lines)]
    else [Body(fixed, lines[..BATCH])] + Bodies(fixed, lines[BATCH..])
  }

  // ---------- what is read ----------

  /** The program overwrites the last character it read, newline or not. */
  function Payload(chunk: string): string {
    var l := Line(chunk);
    if l == "" then "" else l[..|l| - 1]
  }

  function Payloads(chunks: seq<string>): seq<string> {
    seq(|chunks|, i requires 0 <= i < |chunks| => Payload(chunks[i]))
  }

  function LinesRead(content: string): seq<string> {
    Payloads(Chunks(content, LINE - 1))
  }

  /** No read delivers a string that is empty: the program would write in front of it. */
  predicate Cuttable(content: string) {
    NoneBlank(Chunks(content, LINE - 1))
  }

  predicate NoneBlank(chunks: seq<string>) {
    forall i :: 0 <= i < |chunks| ==> Line(chunks[i]) != ""
  }

  /** Every batch fits the message buffer with its closing NUL. */
  predicate Fits(fixed: string, lines: seq<string>)
    decreases |lines|
  {
    if |lines| <= BATCH then |Body(fixed, lines)| < MESSAGE
    else |Body(fixed, lines[..BATCH])| < MESSAGE && Fits(fixed, lines[BATCH..])
  }

  // ---------- reading a line ----------

  /** Reads the next line into the buffer and cuts its last character. */
  method ReadLine(b: array<char>, content: string, pos: nat) returns (next: nat, line: string)
    requires b.Length == LINE && pos < |content| && Cuttable(content[pos..])
    modifies b
    ensures pos < next <= |content| && Cuttable(content[next..])
    ensures LinesRead(content[pos..]) == [line] + LinesRead(content[next..])
    ensures NoNul(line)
  {
    hide Chunks, ChunkLength, LinesRead, Cuttable, NulAt;
    next := Fgets(b, content, pos);
    ghost var chunk := content[pos..next];
    NextLine(content, pos, next);
    LineOfChunk(b[..], chunk);
    ghost var before := b[..];
    var n := StrLen(b, 0);
    b[n - 1] := NUL;
    CutText(before, b[..], 0, n - 1);
    line := Text(b[..], 0);
    TextNoNul(b[..], 0);
    assert line == Payload(chunk);
  }

  lemma {:induction false} NextLine(content: string, pos: nat, next: nat)
    requires pos < |content| && next == pos + ChunkLength(content[pos..], LINE - 1)
    ensures LinesRead(content[pos..]) == [Payload(content[pos..next])] + LinesRead(content[next..])
    ensures Cuttable(content[pos..]) ==> Line(content[pos..next]) != "" && Cuttable(content[next..])
  {
    hide ChunkLength, Chunks, Payload, Line;
    var s := content[pos..];
    assert s[..next - pos] == content[pos..next] && s[next - pos..] == content[next..];
    FirstChunk(s, LINE - 1);
    ChunkCons(content[pos..next], Chunks(content[next..], LINE - 1));
  }

  lemma {:induction false} ChunkCons(c: string, rest: seq<string>)
    ensures Payloads([c] + rest) == [Payload(c)] + Payloads(rest)
    ensures NoneBlank([c] + rest) ==> Line(c) != "" && NoneBlank(rest)
  {
    hide Payload, Line;
    var cs := [c] + rest;
    assert cs[0] == c;
    forall i | 0 <= i < |rest| ensures cs[i + 1] == rest[i] {
    }
  }

  // ---------- publish_file ----------

  /** The number of posts that succeed before the first failure, out of n. */
  function Succeeding(ok: nat -> bool, n: nat): (k: nat)
    ensures k <= n && (k < n ==> !ok(k)) && forall i :: 0 <= i < k ==> ok(i)
  {
    if n == 0 then 0
    else
      var k := Succeeding(ok, n - 1);
      if k < n - 1 then k else if ok(n - 1) then n else n - 1
  }

  /** The `switch`: one line joins the batch; the tenth closes it and posts it. */
  method AddLine(message: array<char>, i: nat, fixed: string, l: string, ok: nat -> bool, sent: seq<string>,
                 ghost pending: seq<string>)
    returns (count: nat, delivered: seq<string>, failed: bool)
    requires message.Length == MESSAGE && i == |pending| < BATCH && NoNul(fixed) && NoNul(l)
    requires Terminated(message[..], 0) && Text(message[..], 0) == Partial(fixed, pending)
    requires |Partial(fixed, pending + [l])| + 1 < MESSAGE
    modifies message
    ensures Terminated(message[..], 0)
    ensures i < BATCH - 1 ==> !failed && count == i + 1 && delivered == sent && Text(message[..], 0) == Partial(fixed, pending + [l])
    ensures i == BATCH - 1 ==> failed == !ok(|sent|)
    ensures i == BATCH - 1 && failed ==> delivered == sent
    ensures i == BATCH - 1 && !failed ==>
              count == 0 && delivered == sent + [Body(fixed, pending + [l])] && Text(message[..], 0) == ""
  {
    hide Join, Piece, NulAt;
    count, delivered, failed := i, sent, false;
    PartialGrows(fixed, pending, l);
    PieceIsText(fixed, l);
    match i {
      case 0 =>
        Write(message, 0, Piece("[{", fixed, l));
        count := i + 1;
      case 9 =>
        Append(message, Piece(",{", fixed, l) + "]");
        BodyOfPartial(fixed, pending, l);
        if !ok(|sent|) {
          failed := true;
        } else {
          delivered := sent + [Text(message[..], 0)];
          count := 0;
          Clear(message);
        }
      case _ =>
        Append(message, Piece(",{", fixed, l));
        count := i + 1;
    }
  }

  /** The loop and the final flush, on a file that could be opened. */
  method PublishLines(fixed: string, content: string, ok: nat -> bool) returns (result: int, delivered: seq<string>)
    requires NoNul(fixed) && Cuttable(content) && Fits(fixed, LinesRead(content))
    ensures var bodies := Bodies(fixed, LinesRead(content));
            var k := Succeeding(ok, |bodies|);
            delivered == bodies[..k] && result == if k == |bodies| then SUCCESS else FAILED
  {
    hide Fits, Bodies, LinesRead, Join, Succeeding, Partial, NulAt, NoNul, Cuttable;
    ghost var bodies := Bodies(fixed, LinesRead(content));
    var message, line := new char[MESSAGE], new char[LINE];
    Clear(message);
    var i, pos := 0, 0;
    delivered := [];
    ghost var pending: seq<string> := [];
    StartOfFile(fixed, content);
    while pos < |content|
      invariant 0 <= pos <= |content| && i == |pending| < BATCH && Cuttable(content[pos..])
      invariant Terminated(message[..], 0) && Text(message[..], 0) == Partial(fixed, pending)
      invariant Fits(fixed, pending + LinesRead(content[pos..]))
      invariant bodies == delivered + Bodies(fixed, pending + LinesRead(content[pos..]))
      invariant forall k :: 0 <= k < |delivered| ==> ok(k)
      decreases |content| - pos
    {
      var next, l := ReadLine(line, content, pos);
      LineJoinsBatch(fixed, pending, l, LinesRead(content[next..]));
      var failed: bool;
      i, delivered, failed := AddLine(message, i, fixed, l, ok, delivered, pending);
      if failed {
        SucceedingIs(ok, |bodies|, |delivered|);
        return FAILED, delivered;
      }
      pending := if i == 0 then [] else pending + [l];
      pos := next;
    }
    EndOfFile(fixed, content, pos, pending);
    if i > 0 {
      Append(message, "]");
      if !ok(|delivered|) {
        SucceedingIs(ok, |bodies|, |delivered|);
        return FAILED, delivered;
      }
      delivered := delivered + [Text(message[..], 0)];
    }
    SucceedingIs(ok, |bodies|, |delivered|);
    return SUCCESS, delivered;
  }

  /** `ok(k)` is the outcome of the k-th post, `file` the data file's text when it
      can be opened. On a failed post exactly the earlier bodies were delivered. */
  method PublishFile(url: string, fixed: string, filename: string, file: Option<string>, curl: bool, ok: nat -> bool)
    returns (result: int, delivered: seq<string>)
    requires NoNul(fixed) && (file.Some? ==> Cuttable(file.value) && Fits(fixed, LinesRead(file.value)))
    ensures url == "" || fixed == "" || filename == "" || !curl || file.None? ==> result == FAILED && delivered == []
    ensures url != "" && fixed != "" && filename != "" && curl && file.Some? ==>
              var bodies := Bodies(fixed, LinesRead(file.value));
              var k := Succeeding(ok, |bodies|);
              delivered == bodies[..k] && result == if k == |bodies| then SUCCESS else FAILED
  {
    if url == "" || fixed == "" || filename == "" || !curl || file.None? {
      return FAILED, [];
    }
    result, delivered := PublishLines(fixed, file.value, ok);
  }

  // ---------- the automaton against its specification ----------

  /** The message while a batch is being collected. */
  function Partial(fixed: string, batch: seq<string>): string {
    if batch == [] then "" else "[" + Join(fixed, batch)
  }

  lemma {:induction false} JoinGrows(fixed: string, batch: seq<string>, l: string)
    requires batch != []
    ensures Join(fixed, batch + [l]) == Join(fixed, batch) + "," + Record(fixed, l)
  {
    if |batch| > 1 {
      JoinGrows(fixed, batch[1..], l);
      assert (batch + [l])[1..] == batch[1..] + [l];
    }
  }

  /** One record as the program formats it, `head` being "[{" or ",{". */
  function Piece(head: string, fixed: string, l: string): string {
    head + fixed + ", " + l + "}"
  }

  lemma PieceIsText(fixed: string, l: string)
    requires NoNul(fixed) && NoNul(l)
    ensures NoNul(Piece("[{", fixed, l)) && NoNul(Piece(",{", fixed, l)) && NoNul(Piece(",{", fixed, l) + "]")
  {
  }

  lemma {:induction false} PieceIs(fixed: string, l: string, before: string)
    ensures Piece("[{", fixed, l) == "[" + Record(fixed, l)
    ensures before + "," + Record(fixed, l) == before + Piece(",{", fixed, l)
  {
    assert Piece(",{", fixed, l) == "," + Record(fixed, l);
  }

  lemma {:induction false} PartialGrows(fixed: string, batch: seq<string>, l: string)
    ensures Partial(fixed, batch + [l]) == Partial(fixed, batch) + Piece(if batch == [] then "[{" else ",{", fixed, l)
  {
    hide Record, Piece;
    PieceIs(fixed, l, "[" + Join(fixed, batch));
    if batch != [] {
      hide Join;
      JoinGrows(fixed, batch, l);
      assert "[" + (Join(fixed, batch) + "," + Record(fixed, l)) == "[" + Join(fixed, batch) + "," + Record(fixed, l);
    } else {
      assert batch + [l] == [l];
    }
  }

  lemma {:induction false} BodyOfPartial(fixed: string, batch: seq<string>, l: string)
    requires batch != []
    ensures Body(fixed, batch + [l]) == Partial(fixed, batch) + (Piece(",{", fixed, l) + "]")
  {
    hide Join, Piece;
    PartialGrows(fixed, batch, l);
    assert Body(fixed, batch + [l]) == Partial(fixed, batch + [l]) + "]";
  }

  lemma {:induction false} JoinMonotone(fixed: string, a: seq<string>, b: seq<string>)
    ensures |Join(fixed, a)| <= |Join(fixed, a + b)|
    decreases |b|
  {
    hide Join, Record;
    if b == [] {
      assert a + b == a;
    } else if a == [] {
      EmptyJoin(fixed);
    } else {
      JoinGrows(fixed, a, b[0]);
      JoinMonotone(fixed, a + [b[0]], b[1..]);
      assert a + b == (a + [b[0]]) + b[1..];
    }
  }

  /** The batch being collected always fits, with its closing bracket. */
  lemma {:induction false} BatchFits(fixed: string, batch: seq<string>, rest: seq<string>)
    requires 0 < |batch| <= BATCH && Fits(fixed, batch + rest)
    ensures |Partial(fixed, batch)| + 1 < MESSAGE
  {
    hide Join;
    var all := batch + rest;
    var n := if |all| <= BATCH then |all| else BATCH;
    JoinMonotone(fixed, batch, rest[..n - |batch|]);
    assert all[..n] == batch + rest[..n - |batch|];
    assert |all| <= BATCH ==> all[..n] == all;
  }

  lemma {:induction false} FullBatch(fixed: string, batch: seq<string>, rest: seq<string>)
    requires |batch| == BATCH
    ensures Bodies(fixed, batch + rest) == [Body(fixed, batch)] + Bodies(fixed, rest)
    ensures Fits(fixed, batch + rest) ==> Fits(fixed, rest)
  {
    hide Join;
    if rest == [] {
      assert batch + rest == batch;
      assert Join(fixed, []) == "" by { EmptyJoin(fixed); }
    } else {
      assert (batch + rest)[..BATCH] == batch && (batch + rest)[BATCH..] == rest;
    }
  }

  lemma {:induction false} StartOfFile(fixed: string, content: string)
    ensures content[0..] == content && [] + LinesRead(content[0..]) == LinesRead(content) && Partial(fixed, []) == ""
  {
    assert content[0..] == content;
  }

  /** A line read next either joins the pending batch or completes it. */
  lemma {:induction false} LineJoinsBatch(fixed: string, pending: seq<string>, l: string, rest: seq<string>)
    requires |pending| < BATCH && Fits(fixed, pending + ([l] + rest))
    ensures pending + ([l] + rest) == (pending + [l]) + rest && [] + rest == rest
    ensures |Partial(fixed, pending + [l])| + 1 < MESSAGE
    ensures |pending| == BATCH - 1 ==>
              Bodies(fixed, pending + ([l] + rest)) == [Body(fixed, pending + [l])] + Bodies(fixed, rest) && Fits(fixed, rest)
  {
    hide Fits, Bodies, Join, Partial;
    assert pending + ([l] + rest) == (pending + [l]) + rest;
    BatchFits(fixed, pending + [l], rest);
    if |pending| == BATCH - 1 {
      FullBatch(fixed, pending + [l], rest);
    }
  }

  lemma {:induction false} EndOfFile(fixed: string, content: string, pos: nat, pending: seq<string>)
    requires pos == |content| && |pending| < BATCH && Fits(fixed, pending + LinesRead(content[pos..]))
    ensures Bodies(fixed, pending + LinesRead(content[pos..])) == if pending == [] then [] else [Body(fixed, pending)]
    ensures |Partial(fixed, pending)| + 1 < MESSAGE && NoNul("]")
    ensures pending != [] ==> Body(fixed, pending) == Partial(fixed, pending) + "]"
  {
    assert content[pos..] == "" && LinesRead("") == [];
    assert pending + [] == pending;
  }

  lemma EmptyJoin(fixed: string)
    ensures Join(fixed, []) == ""
  {
  }

  lemma {:induction false} SucceedingIs(ok: nat -> bool, n: nat, k: nat)
    requires k <= n && (k < n ==> !ok(k)) && forall i :: 0 <= i < k ==> ok(i)
    ensures Succeeding(ok, n) == k
  {
    var j := Succeeding(ok, n);
    assert ok(j) || !ok(j);
    assert ok(k) || !ok(k);
  }

  // ---------- what the bodies are ----------

  function Least(a: nat, b: nat): nat {
    if a < b then a else b
  }

  lemma {:induction false} SliceOfRest(lines: seq<string>, d: nat, lo: nat, hi: nat)
    requires lo <= hi && d + hi <= |lines|
    ensures lines[d..][lo..hi] == lines[d + lo..d + hi]
  {
  }

  /** Body g holds lines 10g to 10g + 9; only the last can be shorter. */
  lemma {:induction false} BatchesOfTen(fixed: string, lines: seq<string>)
    ensures |Bodies(fixed, lines)| == (|lines| + 9) / 10
    ensures forall g :: 0 <= g < |Bodies(fixed, lines)| ==>
              Bodies(fixed, lines)[g] == Body(fixed, lines[g * 10..Least(g * 10 + 10, |lines|)])
    decreases |lines|
  {
    hide Body;
    if 0 < |lines| <= BATCH {
      assert lines[0..Least(BATCH, |lines|)] == lines;
    } else if |lines| > BATCH {
      var rest := lines[BATCH..];
      BatchesOfTen(fixed, rest);
      forall g | 0 < g < |Bodies(fixed, lines)|
        ensures Bodies(fixed, lines)[g] == Body(fixed, lines[g * BATCH..Least(g * BATCH + BATCH, |lines|)])
      {
        var h := g - 1;
        assert Bodies(fixed, lines)[g] == Bodies(fixed, rest)[h];
        SliceOfRest(lines, BATCH, h * BATCH, Least(h * BATCH + BATCH, |rest|));
      }
    }
  }

  /** Written the way a file holds them, one newline after each line. */
  function Written(lines: seq<string>): seq<string> {
    seq(|lines|, i requires 0 <= i < |lines| => lines[i] + "\n")
  }

  predicate Readable(lines: seq<string>) {
    forall i :: 0 <= i < |lines| ==> |lines[i]| <= 318 && OneLine(lines[i])
  }

  predicate OneLine(l: string) {
    NoNul(l) && forall k :: 0 <= k < |l| ==> l[k] != '\n'
  }

  lemma {:induction false} WholeLine(l: string)
    requires |l| < LINE - 1 && OneLine(l)
    ensures IsLine(l + "\n", LINE - 1) && Payload(l + "\n") == l
  {
    PlainLine(l + "\n");
  }

  lemma {:induction false} TextRead(chunk: string, content: string)
    requires content != "" && chunk == content[..ChunkLength(content, LINE - 1)]
    ensures LinesRead(content) == [Payload(chunk)] + LinesRead(content[|chunk|..])
  {
    assert content[0..] == content;
    NextLine(content, 0, |chunk|);
    assert content[0..|chunk|] == chunk;
  }

  /** Newline-terminated lines are read as written; text after the last newline
      loses its last character. */
  lemma {:induction false} LinesReadBack(lines: seq<string>, tail: string)
    requires Readable(lines) && |tail| <= 319 && OneLine(tail)
    ensures LinesRead(Concat(Written(lines)) + tail) == lines + (if tail == "" then [] else [tail[..|tail| - 1]])
  {
    hide Chunks, ChunkLength, IsLine, Payload, OneLine;
    var ls := Written(lines);
    forall i | 0 <= i < |ls| ensures IsLine(ls[i], LINE - 1) && Payload(ls[i]) == lines[i] {
      WholeLine(lines[i]);
    }
    ChunksOfLines(ls, tail, LINE - 1);
    TailRead(tail);
    assert Payloads(ls + Chunks(tail, LINE - 1)) == lines + LinesRead(tail);
  }

  lemma {:induction false} TailRead(tail: string)
    requires |tail| < LINE && OneLine(tail)
    ensures LinesRead(tail) == if tail == "" then [] else [tail[..|tail| - 1]]
  {
    hide ChunkLength;
    if tail != "" {
      ChunkLengthNoNewline(tail, LINE - 1, |tail|);
      TextRead(tail, tail);
      PlainLine(tail);
    }
  }

  /** A longer line is split: it loses a character and an empty record is added. */
  lemma {:induction false} LongLineSplits(l: string)
    requires |l| == 319 && OneLine(l)
    ensures LinesRead(l + "\n") == [l[..318], ""]
  {
    hide ChunkLength, Chunks, Payload;
    var s := l + "\n";
    assert l == s[..LINE - 1] && s[|l|..] == "\n";
    ChunkLengthNoNewline(s, LINE - 1, LINE - 1);
    TextRead(l, s);
    assert Payload(l) == l[..LINE - 2] by { PayloadOfLine(l); }
    EmptyLine();
  }

  lemma PayloadOfLine(l: string)
    requires l != "" && NoNul(l)
    ensures Payload(l) == l[..|l| - 1]
  {
    PlainLine(l);
  }

  lemma EmptyLine()
    ensures LinesRead("\n") == [""]
  {
    ChunkLengthIs("\n", LINE - 1, 1);
    TextRead("\n", "\n");
    PayloadOfLine("\n");
  }

  lemma {:induction false} PieceKept(c: string)
    requires c != ""
    ensures |Payload(c) + "\n"| <= |c|
    ensures Payload(c) + "\n" == c <==> Ends(c) && NoNul(c)
  {
    hide NulAt;
    TextNoNul(c, 0);
    var l := Line(c);
    assert NoNul(Payload(c) + "\n");
    if NoNul(c) {
      PlainLine(c);
    }
    assert Ends(c) && NoNul(c) ==> c == c[..|c| - 1] + "\n";
  }

  /** What is published is the file's own lines if and only if the file holds no
      NUL, ends in a newline and has no line of more than 318 characters. */
  lemma {:induction false} ReadAsWrittenIff(content: string)
    ensures Concat(Written(LinesRead(content))) == content
       <==> NoNul(content) && (content == "" || Ends(content)) && ShortLines(content, 319)
  {
    hide Chunks, Payload, ShortLines, NoNul, Ends;
    var cs, w := Chunks(content, LINE - 1), Written(LinesRead(content));
    ChunksNotEmpty(content, LINE - 1);
    forall i | 0 <= i < |cs| ensures |w[i]| <= |cs[i]| && (w[i] == cs[i] <==> Ends(cs[i]) && NoNul(cs[i])) {
      PieceKept(cs[i]);
    }
    SamePieces(w, cs);
    ChunksConcat(content, LINE - 1);
    ConcatNoNul(cs);
    ChunksAreLinesIff(content, LINE - 1);
    assert w == cs <==> forall i :: 0 <= i < |cs| ==> w[i] == cs[i];
  }

  /** The records of a batch, in letters. */
  function Records(fixed: string, batch: seq<string>): seq<string> {
    seq(|batch|, i requires 0 <= i < |batch| => "{" + fixed + ", " + batch[i] + "}")
  }

  /** A body is a bracketed list of the records of its lines. */
  lemma {:induction false} BodyIsListed(fixed: string, batch: seq<string>)
    requires batch != []
    ensures Body(fixed, batch) == "[" + Rendering.Listed(Records(fixed, batch))
  {
    JoinIsListed(fixed, batch);
    assert Body(fixed, batch) == "[" + (Join(fixed, batch) + "]");
  }

  lemma {:induction false} JoinIsListed(fixed: string, batch: seq<string>)
    requires batch != []
    ensures Join(fixed, batch) + "]" == Rendering.Listed(Records(fixed, batch))
  {
    var rs := Records(fixed, batch);
    if |batch| > 1 {
      JoinIsListed(fixed, batch[1..]);
      assert rs[1..] == Records(fixed, batch[1..]);
      assert Join(fixed, batch) + "]" == Record(fixed, batch[0]) + "," + (Join(fixed, batch[1..]) + "]");
    }
  }

  /** So every line of a batch stands in its body, at its place and in its record. */
  lemma {:induction false} LineInBody(fixed: string, batch: seq<string>, i: nat)
    requires i < |batch|
    ensures Body(fixed, batch)[0] == '['
    ensures Rendering.StandsAt(Body(fixed, batch)[1..], Records(fixed, batch), i)
    ensures Records(fixed, batch)[i] == "{" + fixed + ", " + batch[i] + "}"
  {
    hide Body, Rendering.Listed;
    BodyIsListed(fixed, batch);
    Rendering.ItemAt(Records(fixed, batch), i);
    assert Body(fixed, batch)[1..] == Rendering.Listed(Records(fixed, batch));
  }

  // ---------- when the buffer suffices ----------

  /** Characters a batch needs in the buffer, its closing bracket apart. */
  function Width(fixed: string, batch: seq<string>): nat {
    if batch == [] then 0 else |fixed| + |batch[0]| + 5 + Width(fixed, batch[1..])
  }

  lemma {:induction false} BodyWidth(fixed: string, batch: seq<string>)
    requires batch != []
    ensures |Body(fixed, batch)| == Width(fixed, batch) + 1
  {
    if |batch| > 1 { BodyWidth(fixed, batch[1..]); }
  }

  lemma {:induction false} WidthBound(fixed: string, batch: seq<string>, w: nat)
    ensures (forall i :: 0 <= i < |batch| ==> |fixed| + |batch[i]| + 5 <= w) ==> Width(fixed, batch) <= |batch| * w
    ensures (forall i :: 0 <= i < |batch| ==> |fixed| + |batch[i]| + 5 >= w) ==> Width(fixed, batch) >= |batch| * w
  {
    if batch != [] {
      WidthBound(fixed, batch[1..], w);
      assert |batch| * w == w + (|batch| - 1) * w;
    }
  }

  /** The lines of body g. */
  function Group(lines: seq<string>, g: nat): seq<string>
    requires g * BATCH < |lines|
  {
    lines[g * BATCH..Least(g * BATCH + BATCH, |lines|)]
  }

  function Groups(lines: seq<string>): nat {
    (|lines| + BATCH - 1) / BATCH
  }

  predicate AllShort(bodies: seq<string>) {
    forall g :: 0 <= g < |bodies| ==> |bodies[g]| < MESSAGE
  }

  lemma {:induction false} AllShortCons(body: string, more: seq<string>)
    ensures AllShort([body] + more) <==> |body| < MESSAGE && AllShort(more)
  {
    var bs := [body] + more;
    assert bs[0] == body && forall g :: 0 <= g < |more| ==> bs[g + 1] == more[g];
  }

  lemma {:induction false} FitsBodies(fixed: string, lines: seq<string>)
    ensures Fits(fixed, lines) <==> AllShort(Bodies(fixed, lines))
    decreases |lines|
  {
    hide Body;
    if lines == [] {
      assert Body(fixed, []) == "[]" by { EmptyBody(fixed); }
    } else if |lines| <= BATCH {
      AllShortCons(Body(fixed, lines), []);
      assert Bodies(fixed, lines) == [Body(fixed, lines)] + [];
    } else {
      FitsBodies(fixed, lines[BATCH..]);
      AllShortCons(Body(fixed, lines[..BATCH]), Bodies(fixed, lines[BATCH..]));
    }
  }

  /** The message buffer suffices if and only if every group of ten lines, and the
      last one, needs less than its 3200 characters. */
  lemma {:induction false} FitsIff(fixed: string, lines: seq<string>)
    ensures Fits(fixed, lines) <==> forall g :: 0 <= g < Groups(lines) ==> Width(fixed, Group(lines, g)) + 1 < 3200
  {
    hide Body, Fits, Bodies, Width;
    FitsBodies(fixed, lines);
    BatchesOfTen(fixed, lines);
    forall g | 0 <= g < Groups(lines) ensures |Bodies(fixed, lines)[g]| == Width(fixed, Group(lines, g)) + 1 {
      BodyWidth(fixed, Group(lines, g));
    }
  }

  /** 314 characters for the fixed part and a line together always fit. */
  lemma {:induction false} ShortLinesFit(fixed: string, lines: seq<string>)
    requires forall i :: 0 <= i < |lines| ==> |fixed| + |lines[i]| <= 314
    ensures Fits(fixed, lines)
  {
    hide Fits, Width;
    FitsIff(fixed, lines);
    forall g | 0 <= g < Groups(lines) ensures Width(fixed, Group(lines, g)) + 1 < MESSAGE {
      WidthBound(fixed, Group(lines, g), 319);
    }
  }

  lemma EmptyBody(fixed: string)
    ensures Body(fixed, []) == "[]"
  {
  }

  /** The bound is sharp: a full group whose lines each need one more does not fit. */
  lemma {:induction false} LongerLinesOverflow(fixed: string, lines: seq<string>, g: nat)
    requires g * BATCH + BATCH <= |lines|
    requires forall i :: g * BATCH <= i < g * BATCH + BATCH ==> |fixed| + |lines[i]| >= 315
    ensures !Fits(fixed, lines)
  {
    hide Fits, Width;
    FitsIff(fixed, lines);
    WidthBound(fixed, Group(lines, g), 320);
  }
}
