/** Text read line by line: when the pieces `fgets` delivers are the text's lines. */
module Lines {
  import opened CString

  /** Reading loses nothing. */
  lemma {:induction false} ChunksConcat(s: string, room: nat)
    requires room > 0
    ensures Concat(Chunks(s, room)) == s
    decreases |s|
  {
    hide ChunkLength, Chunks;
    if s == "" {
      NoChunksIn(room);
    } else {
      var n := ChunkLength(s, room);
      FirstChunk(s, room);
      ChunksConcat(s[n..], room);
      assert s[..n] + s[n..] == s;
    }
  }

  predicate NoneEmpty(cs: seq<string>) {
    forall i :: 0 <= i < |cs| ==> cs[i] != ""
  }

  lemma {:induction false} ChunksNotEmpty(s: string, room: nat)
    requires room > 0
    ensures NoneEmpty(Chunks(s, room))
    decreases |s|
  {
    hide ChunkLength, Chunks;
    if s == "" {
      NoChunksIn(room);
    } else {
      FirstChunk(s, room);
      ChunksNotEmpty(s[ChunkLength(s, room)..], room);
    }
  }

  predicate Ends(chunk: string) {
    chunk != "" && chunk[|chunk| - 1] == '\n'
  }

  /** One of the n characters from p on is a newline. */
  predicate NewlineIn(s: string, p: nat, n: nat)
    requires p + n <= |s|
  {
    exists k :: p <= k < p + n && s[k] == '\n'
  }

  /** No line, its newline included, is longer than `room`. */
  predicate ShortLines(s: string, room: nat) {
    forall p: nat :: p + room <= |s| ==> NewlineIn(s, p, room)
  }

  lemma {:induction false} ShortLinesSplit(s: string, room: nat, n: nat)
    requires 0 < n <= |s| && n <= room
    ensures ShortLines(s, room) ==> ShortLines(s[n..], room)
    ensures ShortLines(s[n..], room) && Ends(s[..n]) ==> ShortLines(s, room)
  {
    hide NewlineIn;
    var t := s[n..];
    forall p: nat | p + room <= |t| ensures NewlineIn(t, p, room) <==> NewlineIn(s, p + n, room) {
      NewlineMoved(s, n, p, room);
    }
    if ShortLines(t, room) && Ends(s[..n]) {
      forall p: nat | p + room <= |s| ensures NewlineIn(s, p, room) {
        if p < n {
          NewlineAt(s, p, room, n - 1);
        } else {
          assert NewlineIn(t, p - n, room);
        }
      }
    }
  }

  lemma {:induction false} NewlineMoved(s: string, n: nat, p: nat, m: nat)
    requires n + p + m <= |s|
    ensures NewlineIn(s[n..], p, m) <==> NewlineIn(s, p + n, m)
  {
    var t := s[n..];
    if NewlineIn(s, p + n, m) {
      var k :| p + n <= k < p + n + m && s[k] == '\n';
      assert t[k - n] == '\n';
    }
  }

  lemma NewlineAt(s: string, p: nat, m: nat, k: nat)
    requires p <= k < p + m <= |s| && s[k] == '\n'
    ensures NewlineIn(s, p, m)
  {
  }

  /** One read takes a whole line unless the line is too long or has no end. */
  lemma {:induction false} FirstChunkEnds(s: string, room: nat)
    requires room > 0 && Ends(s) && ShortLines(s, room)
    ensures Ends(s[..ChunkLength(s, room)])
  {
    hide ChunkLength;
    var n := ChunkLength(s, room);
    assert n == room ==> NewlineIn(s, 0, room);
  }

  predicate AllEnd(cs: seq<string>) {
    forall i :: 0 <= i < |cs| ==> Ends(cs[i])
  }

  lemma {:induction false} AllEndCons(c: string, rest: seq<string>)
    ensures AllEnd([c] + rest) <==> Ends(c) && AllEnd(rest)
  {
    var cs := [c] + rest;
    assert cs[0] == c && forall i :: 0 <= i < |rest| ==> cs[i + 1] == rest[i];
  }

  /** Every read takes a whole line if and only if the text ends in a newline and
      no line is too long. */
  lemma {:induction false} ChunksAreLinesIff(s: string, room: nat)
    requires room > 0
    ensures AllEnd(Chunks(s, room)) <==> (s == "" || Ends(s)) && ShortLines(s, room)
    decreases |s|
  {
    hide ChunkLength, Chunks, ShortLines, AllEnd;
    if s == "" {
      NoChunksIn(room);
      assert ShortLines(s, room) by { EmptyIsShort(room); }
      assert AllEnd([]) by { NoneEnd(); }
    } else {
      var n := ChunkLength(s, room);
      var rest := s[n..];
      FirstChunk(s, room);
      AllEndCons(s[..n], Chunks(rest, room));
      ChunksAreLinesIff(rest, room);
      ShortLinesSplit(s, room, n);
      if Ends(s) && ShortLines(s, room) {
        FirstChunkEnds(s, room);
      }
      assert rest != "" ==> (Ends(rest) <==> Ends(s));
      assert rest == "" ==> s[..n] == s;
    }
  }

  lemma NoneEnd()
    ensures AllEnd([])
  {
  }

  lemma EmptyIsShort(room: nat)
    requires room > 0
    ensures ShortLines("", room)
  {
  }

  lemma {:induction false} ConcatNoNul(ls: seq<string>)
    ensures NoNul(Concat(ls)) <==> forall i :: 0 <= i < |ls| ==> NoNul(ls[i])
  {
    if ls != [] {
      var rest := ls[1..];
      ConcatNoNul(rest);
      PairNoNul(ls[0], Concat(rest));
      assert forall i :: 0 <= i < |rest| ==> rest[i] == ls[i + 1];
      assert forall i :: 0 < i < |ls| ==> ls[i] == rest[i - 1];
    }
  }

  lemma {:induction false} PairNoNul(a: string, b: string)
    ensures NoNul(a + b) <==> NoNul(a) && NoNul(b)
  {
    var s := a + b;
    assert forall k :: 0 <= k < |a| ==> a[k] == s[k];
    assert forall k :: 0 <= k < |b| ==> b[k] == s[|a| + k];
  }

  /** Texts cut into pieces, each piece of one no longer than the other's, are equal
      only when the pieces are. */
  lemma {:induction false} SamePieces(a: seq<string>, b: seq<string>)
    requires |a| == |b| && forall i :: 0 <= i < |a| ==> |a[i]| <= |b[i]|
    ensures |Concat(a)| <= |Concat(b)|
    ensures Concat(a) == Concat(b) <==> a == b
  {
    if a != [] {
      SamePieces(a[1..], b[1..]);
      var x, y := Concat(a[1..]), Concat(b[1..]);
      if a[0] + x == b[0] + y {
        assert |a[0]| == |b[0]|;
        assert a[0] == (a[0] + x)[..|a[0]|] == b[0];
        assert x == (a[0] + x)[|a[0]|..] == y;
        assert a == [a[0]] + a[1..] && b == [b[0]] + b[1..];
      }
    }
  }
}
