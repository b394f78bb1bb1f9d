/**
 NUL-terminated strings inside character buffers, as the C library and the
 INI reader use them: a pointer is an index into the buffer, and the string it
 denotes runs up to the first NUL at or after that index.

 The functions are the specification; the methods are the in-place loops.
 */
module CString {

  const NUL: char := '\0'

  /** `isspace` in the C locale. */
  predicate IsSpace(c: char) {
    c == ' ' || c == '\t' || c == '\n' || c == '\U{0B}' || c == '\U{0C}' || c == '\r'
  }

  // ---------- the string at an index ----------

  /** The first index at or after `p` that holds a NUL, or |b|. */
  function NulAt(b: seq<char>, p: nat): (e: nat)
    requires p <= |b|
    ensures p <= e <= |b|
    ensures e < |b| ==> b[e] == NUL
    decreases |b| - p
  {
    if p == |b| || b[p] == NUL then p else NulAt(b, p + 1)
  }

  lemma NoNulBefore(b: seq<char>, p: nat)
    requires p <= |b|
    ensures forall k :: p <= k < NulAt(b, p) ==> b[k] != NUL
    decreases |b| - p
  {
  }

  lemma TextNoNul(b: seq<char>, p: nat)
    requires p <= |b|
    ensures NoNul(Text(b, p))
  {
    NoNulBefore(b, p);
  }

  predicate Terminated(b: seq<char>, p: nat) {
    p <= |b| && NulAt(b, p) < |b|
  }

  function Text(b: seq<char>, p: nat): string
    requires p <= |b|
  {
    b[p..NulAt(b, p)]
  }

  lemma {:induction false} NulIs(b: seq<char>, p: nat, e: nat)
    requires p <= e < |b| && b[e] == NUL
    requires forall k :: p <= k < e ==> b[k] != NUL
    ensures NulAt(b, p) == e
  {
    NoNulBefore(b, p);
    assert b[e] == NUL;
  }

  lemma FirstOfText(b: seq<char>, p: nat)
    requires Terminated(b, p)
    ensures p < |b| && (Text(b, p) == "" <==> b[p] == NUL)
    ensures Text(b, p) != "" ==> Text(b, p)[0] == b[p]
  {
  }

  lemma {:induction false} HoldsText(b: seq<char>, text: string)
    requires NoNul(text) && |text| < |b| && b[..|text|] == text && b[|text|] == NUL
    ensures Terminated(b, 0) && Text(b, 0) == text
  {
    assert forall k :: 0 <= k < |text| ==> b[k] == text[k];
    NulIs(b, 0, |text|);
  }

  lemma {:induction false} NulBound(b: seq<char>, p: nat, e: nat)
    requires p <= e < |b| && b[e] == NUL
    ensures NulAt(b, p) <= e
  {
    NoNulBefore(b, p);
  }

  lemma {:induction false} TailText(b: seq<char>, p: nat)
    requires Terminated(b, p) && b[p] != NUL
    ensures Terminated(b, p + 1) && NulAt(b, p + 1) == NulAt(b, p) && Text(b, p + 1) == Text(b, p)[1..]
  {
  }

  /** Cells from `p` up to the NUL decide the string at `p`. */
  lemma {:induction false} SameText(b: seq<char>, b': seq<char>, p: nat)
    requires |b'| == |b| && Terminated(b, p)
    requires forall k :: p <= k <= NulAt(b, p) ==> b'[k] == b[k]
    ensures Terminated(b', p) && NulAt(b', p) == NulAt(b, p) && Text(b', p) == Text(b, p)
  {
    NoNulBefore(b, p);
    NulIs(b', p, NulAt(b, p));
  }

  /** A NUL written at the stop of a search splits the string in two. */
  lemma {:induction false} CutText(b: seq<char>, b': seq<char>, p: nat, e: nat)
    requires Terminated(b, p) && p <= e <= NulAt(b, p) && b' == b[e := NUL]
    ensures Terminated(b', p) && NulAt(b', p) == e && Text(b', p) == Text(b, p)[..e - p]
    ensures e < NulAt(b, p) ==> Terminated(b', e + 1) && NulAt(b', e + 1) == NulAt(b, p)
    ensures e < NulAt(b, p) ==> Text(b', e + 1) == Text(b, p)[e - p + 1..]
  {
    hide NulAt;
    var n := NulAt(b, p);
    NoNulBefore(b, p);
    NulIs(b', p, e);
    assert b'[p..e] == b[p..n][..e - p];
    if e < n {
      NulIs(b', e + 1, n);
      assert b'[e + 1..n] == b[p..n][e - p + 1..];
    }
  }

  // ---------- trimming ----------

  function TrimRight(s: string): (r: string)
    ensures |r| <= |s|
  {
    if s == "" || !IsSpace(s[|s| - 1]) then s else TrimRight(s[..|s| - 1])
  }

  lemma TrimRightCutsSpace(s: string)
    ensures TrimRight(s) == s[..|TrimRight(s)|]
    ensures TrimRight(s) != "" ==> !IsSpace(s[|TrimRight(s)| - 1])
    ensures forall k :: |TrimRight(s)| <= k < |s| ==> IsSpace(s[k])
  {
  }

  function TrimLeft(s: string): (r: string)
    ensures |r| <= |s|
  {
    if s == "" || !IsSpace(s[0]) then s else TrimLeft(s[1..])
  }

  lemma TrimLeftCutsSpace(s: string)
    ensures TrimLeft(s) == s[|s| - |TrimLeft(s)|..]
    ensures TrimLeft(s) != "" ==> !IsSpace(TrimLeft(s)[0])
    ensures forall k :: 0 <= k < |s| - |TrimLeft(s)| ==> IsSpace(s[k])
  {
  }

  /** The bounds a trim result has in its own contract determine it. */
  lemma {:induction false} TrimRightIs(s: string, n: nat)
    requires n <= |s| && (n > 0 ==> !IsSpace(s[n - 1]))
    requires forall k :: n <= k < |s| ==> IsSpace(s[k])
    ensures TrimRight(s) == s[..n]
  {
    var r := TrimRight(s);
    TrimRightCutsSpace(s);
    assert n > 0 ==> !IsSpace(s[n - 1]);
    assert r != "" ==> r[|r| - 1] == s[|r| - 1];
  }

  lemma {:induction false} TrimLeftIs(s: string, n: nat)
    requires n <= |s| && (n < |s| ==> !IsSpace(s[n]))
    requires forall k :: 0 <= k < n ==> IsSpace(s[k])
    ensures TrimLeft(s) == s[n..]
  {
    var r := TrimLeft(s);
    TrimLeftCutsSpace(s);
    assert r != "" ==> r[0] == s[|s| - |r|];
    assert n < |s| ==> !IsSpace(s[n]);
  }

  // ---------- searching for a delimiter or a comment ----------

  /** A ';' opens a comment only after whitespace inside the searched string. */
  predicate StopsAt(s: string, k: nat, c: char)
    requires k < |s|
  {
    s[k] == c || (k > 0 && IsSpace(s[k - 1]) && s[k] == ';')
  }

  /** The first index at or after `from` where the search stops, or |s|. */
  function FindFrom(s: string, c: char, from: nat): (i: nat)
    requires from <= |s|
    ensures from <= i <= |s|
    ensures i < |s| ==> StopsAt(s, i, c)
    decreases |s| - from
  {
    if from == |s| || StopsAt(s, from, c) then from else FindFrom(s, c, from + 1)
  }

  lemma NoStopBefore(s: string, c: char, from: nat)
    requires from <= |s|
    ensures forall k :: from <= k < FindFrom(s, c, from) ==> !StopsAt(s, k, c)
    decreases |s| - from
  {
  }

  function Find(s: string, c: char): nat {
    FindFrom(s, c, 0)
  }

  lemma {:induction false} FindIs(s: string, c: char, i: nat)
    requires i <= |s| && (i < |s| ==> StopsAt(s, i, c))
    requires forall k :: 0 <= k < i ==> !StopsAt(s, k, c)
    ensures Find(s, c) == i
  {
    NoStopBefore(s, c, 0);
    assert i < |s| ==> StopsAt(s, i, c);
  }

  // ---------- reading lines ----------

  /** Length of what one `fgets` call with room for `room` characters takes. */
  function ChunkLength(s: string, room: nat): (n: nat)
    ensures n <= |s| && n <= room
    ensures s != "" && room > 0 ==> n > 0
    ensures forall k :: 0 <= k < n - 1 ==> s[k] != '\n'
    ensures n == |s| || n == room || (n > 0 && s[n - 1] == '\n')
  {
    if s == "" || room == 0 then 0
    else if s[0] == '\n' then 1
    else 1 + ChunkLength(s[1..], room - 1)
  }

  /** The strings a `while (fgets(...))` loop sees, in order. */
  function Chunks(s: string, room: nat): seq<string>
    requires room > 0
  {
    if s == "" then []
    else
      var n := ChunkLength(s, room);
      [s[..n]] + Chunks(s[n..], room)
  }

  /** A line as written: one newline, at its end, short enough for one call. */
  predicate IsLine(l: string, room: nat) {
    0 < |l| <= room && l[|l| - 1] == '\n' && forall k :: 0 <= k < |l| - 1 ==> l[k] != '\n'
  }

  function Concat(ls: seq<string>): string {
    if ls == [] then "" else ls[0] + Concat(ls[1..])
  }

  lemma {:induction false} ChunkLengthIs(s: string, room: nat, n: nat)
    requires 0 < n <= |s| && n <= room
    requires s[n - 1] == '\n' && forall k :: 0 <= k < n - 1 ==> s[k] != '\n'
    ensures ChunkLength(s, room) == n
  {
    var m := ChunkLength(s, room);
    assert m > 0 && s[m - 1] != '\n' ==> m == |s| || m == room;
  }

  lemma ChunksOfLine(l: string, rest: string, room: nat)
    requires room > 0 && IsLine(l, room)
    ensures Chunks(l + rest, room) == [l] + Chunks(rest, room)
  {
    var s := l + rest;
    ChunkLengthIs(s, room, |l|);
    assert s[..|l|] == l && s[|l|..] == rest;
  }

  /** Text made of whole lines is read back as those lines, whatever follows. */
  lemma {:induction false} ChunksOfLines(ls: seq<string>, rest: string, room: nat)
    requires room > 0 && forall i :: 0 <= i < |ls| ==> IsLine(ls[i], room)
    ensures Chunks(Concat(ls) + rest, room) == ls + Chunks(rest, room)
  {
    hide Chunks, ChunkLength;
    if ls == [] {
      assert Concat(ls) + rest == rest;
      assert ls + Chunks(rest, room) == Chunks(rest, room);
    } else {
      var l, more := ls[0], ls[1..];
      assert ls == [l] + more;
      ConcatCons(l, more, rest);
      ChunksOfLine(l, Concat(more) + rest, room);
      ChunksOfLines(more, rest, room);
      assert ls + Chunks(rest, room) == [l] + (more + Chunks(rest, room));
    }
  }

  lemma ConcatCons(l: string, more: seq<string>, rest: string)
    ensures Concat([l] + more) + rest == l + (Concat(more) + rest)
  {
    assert ([l] + more)[1..] == more;
  }

  lemma NoChunksIn(room: nat)
    requires room > 0
    ensures Chunks("", room) == []
  {
  }

  lemma FirstChunk(s: string, room: nat)
    requires room > 0 && s != ""
    ensures Chunks(s, room) == [s[..ChunkLength(s, room)]] + Chunks(s[ChunkLength(s, room)..], room)
  {
  }

  /** The string a buffer holds after a read: a NUL in the file ends it early. */
  function Line(chunk: string): string {
    Text(chunk, 0)
  }

  lemma {:induction false} LineOfChunk(b: seq<char>, chunk: string)
    requires |chunk| < |b| && b[..|chunk|] == chunk && b[|chunk|] == NUL
    ensures Terminated(b, 0) && Text(b, 0) == Line(chunk)
  {
    var e := NulAt(chunk, 0);
    NoNulBefore(chunk, 0);
    assert forall k :: 0 <= k < e ==> b[k] == chunk[k];
    NulIs(b, 0, e);
  }

  lemma {:induction false} PlainLine(l: string)
    requires forall k :: 0 <= k < |l| ==> l[k] != NUL
    ensures Line(l) == l
  {
  }

  // ---------- the in-place loops ----------

  method StrLen(b: array<char>, p: nat) returns (n: nat)
    requires Terminated(b[..], p)
    ensures p + n == NulAt(b[..], p)
  {
    n := 0;
    NoNulBefore(b[..], p);
    while b[p + n] != NUL
      invariant p + n <= NulAt(b[..], p)
      decreases NulAt(b[..], p) - n
    {
      n := n + 1;
    }
  }

  /** Cuts trailing whitespace by overwriting it with NULs. */
  method RStrip(b: array<char>, s: nat)
    requires Terminated(b[..], s)
    modifies b
    ensures Terminated(b[..], s)
    ensures Text(b[..], s) == TrimRight(old(Text(b[..], s)))
    ensures forall k :: 0 <= k < b.Length && !(s <= k < old(NulAt(b[..], s))) ==> b[k] == old(b[k])
  {
    hide NulAt, TrimRight, IsSpace;
    var n := StrLen(b, s);
    var p := s + n;
    ghost var was, text := b[..], Text(b[..], s);
    NoNulBefore(was, s);
    while p > s
      invariant s <= p <= s + n == NulAt(was, s) < b.Length
      invariant forall k :: 0 <= k < b.Length && !(p <= k < s + n) ==> b[k] == was[k]
      invariant forall k :: p <= k < s + n ==> b[k] == NUL && IsSpace(was[k])
    {
      if !IsSpace(b[p - 1]) { break; }
      p := p - 1;
      b[p] := NUL;
    }
    assert forall k :: 0 <= k < n ==> text[k] == was[s + k];
    TrimRightIs(text, p - s);
    NulIs(b[..], s, p);
    assert Text(b[..], s) == text[..p - s];
  }

  method LSkip(b: array<char>, s: nat) returns (p: nat)
    requires Terminated(b[..], s)
    ensures s <= p <= NulAt(b[..], s) == NulAt(b[..], p)
    ensures Text(b[..], p) == TrimLeft(Text(b[..], s))
    ensures p == s + |Text(b[..], s)| - |Text(b[..], p)|
  {
    p := s;
    while b[p] != NUL && IsSpace(b[p])
      invariant s <= p <= NulAt(b[..], s) == NulAt(b[..], p)
      invariant forall k :: s <= k < p ==> IsSpace(b[k])
      decreases b.Length - p
    {
      p := p + 1;
    }
    TrimLeftIs(Text(b[..], s), p - s);
  }

  method FindCharOrComment(b: array<char>, s: nat, c: char) returns (p: nat)
    requires Terminated(b[..], s)
    ensures s <= p <= NulAt(b[..], s)
    ensures p == s + Find(Text(b[..], s), c)
  {
    hide IsSpace, StopsAt, NulAt, FindFrom;
    var wasSpace := false;
    p := s;
    ghost var text, end := Text(b[..], s), NulAt(b[..], s);
    NoNulBefore(b[..], s);
    while b[p] != NUL && b[p] != c && !(wasSpace && b[p] == ';')
      invariant s <= p <= end == s + |text| < b.Length
      invariant wasSpace == (p > s && IsSpace(b[p - 1]))
      invariant forall k :: 0 <= k < p - s ==> !StopsAt(text, k, c)
      decreases b.Length - p
    {
      StopsHere(b[..], s, p, c);
      wasSpace := IsSpace(b[p]);
      p := p + 1;
    }
    if p < end {
      StopsHere(b[..], s, p, c);
    }
    FindIs(text, c, p - s);
  }

  /** Whether the search stops at `p`, read off the buffer. */
  lemma StopsHere(b: seq<char>, s: nat, p: nat, c: char)
    requires Terminated(b, s) && s <= p < NulAt(b, s)
    ensures StopsAt(Text(b, s), p - s, c) <==> b[p] == c || (p > s && IsSpace(b[p - 1]) && b[p] == ';')
  {
    hide NulAt, IsSpace;
  }

  /** `strncpy` into a whole buffer, then a NUL in its last cell. */
  method StrNCpy0(dest: array<char>, src: array<char>, at: nat)
    requires dest != src && dest.Length > 0 && Terminated(src[..], at)
    modifies dest
    ensures Terminated(dest[..], 0)
    ensures Text(dest[..], 0) == Prefix(Text(src[..], at), dest.Length - 1)
  {
    hide NulAt;
    ghost var text := Text(src[..], at);
    TextNoNul(src[..], at);
    var n := CopyText(dest, src, at);
    ghost var copied := dest[..n];
    forall k | n <= k < dest.Length { dest[k] := NUL; }
    dest[dest.Length - 1] := NUL;
    ghost var m := if n < dest.Length then n else n - 1;
    assert dest[..m] == copied[..m] == text[..m];
    assert src[..] == old(src[..]);
    HoldsText(dest[..], text[..m]);
  }

  /** The copying part: up to the end of the text or of the buffer. */
  method CopyText(dest: array<char>, src: array<char>, at: nat) returns (n: nat)
    requires dest != src && Terminated(src[..], at)
    modifies dest
    ensures n == if |old(Text(src[..], at))| < dest.Length then |old(Text(src[..], at))| else dest.Length
    ensures dest[..n] == old(Text(src[..], at))[..n]
  {
    hide NulAt;
    ghost var text, end := Text(src[..], at), NulAt(src[..], at);
    NoNulBefore(src[..], at);
    n := 0;
    while n < dest.Length && src[at + n] != NUL
      invariant 0 <= n <= dest.Length && at + n <= end == at + |text| < src.Length && src[..] == old(src[..])
      invariant dest[..n] == text[..n]
    {
      dest[n] := src[at + n];
      n := n + 1;
    }
  }

  function Prefix(s: string, n: nat): string {
    if |s| <= n then s else s[..n]
  }

  /** One `fgets` on the unread input `content[pos..]`. */
  method Fgets(b: array<char>, content: string, pos: nat) returns (next: nat)
    requires b.Length > 1 && pos < |content|
    modifies b
    ensures next == pos + ChunkLength(content[pos..], b.Length - 1) > pos
    ensures b[..next - pos] == content[pos..next] && b[next - pos] == NUL
  {
    var i := 0;
    while i < b.Length - 1 && pos + i < |content| && (i == 0 || content[pos + i - 1] != '\n')
      invariant 0 <= i <= b.Length - 1 && pos + i <= |content|
      invariant forall k :: 0 <= k < i ==> b[k] == content[pos + k]
      invariant forall k :: 0 <= k < i - 1 ==> b[k] != '\n'
      decreases b.Length - i
    {
      b[i] := content[pos + i];
      i := i + 1;
    }
    ghost var s := content[pos..];
    assert forall k :: 0 <= k < i ==> s[k] == b[k];
    b[i] := NUL;
    next := pos + i;
    assert b[..i] == content[pos..next];
    if i > 0 && content[pos + i - 1] == '\n' {
      ChunkLengthIs(s, b.Length - 1, i);
    } else {
      ChunkLengthNoNewline(s, b.Length - 1, i);
    }
  }

  lemma {:induction false} ChunkLengthNoNewline(s: string, room: nat, n: nat)
    requires n <= |s| && n <= room && (n == |s| || n == room)
    requires forall k :: 0 <= k < n ==> s[k] != '\n'
    ensures ChunkLength(s, room) == n
  {
    var m := ChunkLength(s, room);
    assert m > 0 && s[m - 1] != '\n' ==> m == |s| || m == room;
  }

  predicate NoNul(s: string) {
    forall k :: 0 <= k < |s| ==> s[k] != NUL
  }

  // ---------- writing into a buffer ----------

  /** `sprintf` of a text at position `at` of the buffer. */
  method Write(b: array<char>, at: nat, text: string)
    requires NoNul(text) && at + |text| < b.Length
    requires forall k :: 0 <= k < at ==> b[k] != NUL
    modifies b
    ensures Terminated(b[..], 0) && Text(b[..], 0) == old(b[..at]) + text
  {
    var i := 0;
    while i < |text|
      invariant 0 <= i <= |text|
      invariant b[..at + i] == old(b[..at]) + text[..i]
    {
      b[at + i] := text[i];
      i := i + 1;
    }
    b[at + i] := NUL;
    assert text[..i] == text;
    HoldsText(b[..], old(b[..at]) + text);
  }

  /** `sprintf(message + strlen(message), ...)`. */
  method Append(b: array<char>, text: string)
    requires Terminated(b[..], 0) && NoNul(text) && |Text(b[..], 0)| + |text| < b.Length
    modifies b
    ensures Terminated(b[..], 0) && Text(b[..], 0) == old(Text(b[..], 0)) + text
  {
    var n := StrLen(b, 0);
    NoNulBefore(b[..], 0);
    assert b[..n] == Text(b[..], 0);
    Write(b, n, text);
  }

  method Clear(b: array<char>)
    requires b.Length > 0
    modifies b
    ensures Terminated(b[..], 0) && Text(b[..], 0) == ""
  {
    forall k | 0 <= k < b.Length { b[k] := NUL; }
    NulIs(b[..], 0, 0);
  }
}
