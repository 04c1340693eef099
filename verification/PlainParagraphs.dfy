/** Texts made of one-line paragraphs: normalising and splitting give the paragraphs back. */
module PlainParagraphs {
  import opened Splitting

  /** One line of text without white space at its ends. */
  predicate Plain(s: string) {
    Stripped(s) && forall i :: 0 <= i < |s| ==> !LineBreak(s[i])
  }

  predicate AllPlain(parts: seq<string>) {
    forall i :: 0 <= i < |parts| ==> Plain(parts[i])
  }

  const BLANK: string := "\n\n"

  lemma JoinFirstRest(parts: seq<string>)
    requires |parts| > 1
    ensures Join(parts, BLANK) == parts[0] + BLANK + Join(parts[1..], BLANK)
  {
  }

  lemma {:induction false} JoinIsStripped(parts: seq<string>)
    requires AllPlain(parts) && parts != []
    ensures Stripped(Join(parts, BLANK)) && Join(parts, BLANK)[0] == parts[0][0]
  {
    if |parts| > 1 {
      JoinFirstRest(parts);
      JoinIsStripped(parts[1..]);
    }
  }

  // ---------------------------------------------------------------- normalising

  lemma {:induction false} LineEndAt(a: string, rest: string)
    requires (forall i :: 0 <= i < |a| ==> !LineBreak(a[i])) && (rest != [] ==> LineBreak(rest[0]))
    ensures LineEnd(a + rest) == |a|
  {
    if a == [] {
      assert a + rest == rest;
    } else {
      assert (a + rest)[1..] == a[1..] + rest;
      LineEndAt(a[1..], rest);
    }
  }

  lemma LinesOne(a: string)
    requires Plain(a)
    ensures Lines(a) == [a]
  {
    LineEndAt(a, []);
    assert a + [] == a;
  }

  lemma LinesStep(a: string, rest: string)
    requires forall i :: 0 <= i < |a| ==> !LineBreak(a[i])
    ensures Lines(a + "\n" + rest) == [a] + Lines(rest)
  {
    var s := a + "\n" + rest;
    LineEndAt(a, "\n" + rest);
    assert s == a + ("\n" + rest);
    assert s[|a|] == '\n' && s[..|a|] == a && s[|a| + 1..] == rest;
  }

  /** A paragraph and the blank line after it are two lines. */
  lemma LinesTwo(a: string, rest: string)
    requires Plain(a)
    ensures Lines(a + BLANK + rest) == [a, ""] + Lines(rest)
  {
    hide Lines;
    assert a + BLANK + rest == a + "\n" + ("" + "\n" + rest);
    LinesStep(a, "" + "\n" + rest);
    LinesStep("", rest);
    assert [a] + ([""] + Lines(rest)) == [a, ""] + Lines(rest);
  }

  lemma LinesNotEmpty(s: string)
    requires s != []
    ensures Lines(s) != []
  {
  }

  lemma StripRightKeeps(s: string)
    requires Stripped(s)
    ensures StripRight(s) == s
  {
  }

  lemma StripTwo(a: string, rest: seq<string>)
    requires Plain(a)
    ensures StripRights([a, ""] + rest) == [a, ""] + StripRights(rest)
  {
    StripRightKeeps(a);
    var lines := [a, ""] + rest;
    assert lines[1..] == [""] + rest && lines[1..][1..] == rest;
    assert StripRights([""] + rest) == [""] + StripRights(rest);
  }

  lemma JoinTwo(a: string, rest: seq<string>)
    requires rest != []
    ensures Join([a, ""] + rest, "\n") == a + BLANK + Join(rest, "\n")
  {
    var lines := [a, ""] + rest;
    assert lines[1..] == [""] + rest && ([""] + rest)[1..] == rest;
    assert Join([""] + rest, "\n") == "" + "\n" + Join(rest, "\n");
    assert a + "\n" + ("" + "\n" + Join(rest, "\n")) == a + BLANK + Join(rest, "\n");
  }

  lemma {:induction false} LinesOfJoin(parts: seq<string>)
    requires AllPlain(parts) && parts != []
    ensures Join(StripRights(Lines(Join(parts, BLANK))), "\n") == Join(parts, BLANK)
  {
    if |parts| == 1 {
      LinesOne(parts[0]);
      StripRightKeeps(parts[0]);
      assert [parts[0]][1..] == [];
      assert StripRights([parts[0]]) == [parts[0]];
    } else {
      var tail := Join(parts[1..], BLANK);
      JoinFirstRest(parts);
      LinesTwo(parts[0], tail);
      LinesOfJoin(parts[1..]);
      JoinIsStripped(parts[1..]);
      LinesNotEmpty(tail);
      StripTwo(parts[0], Lines(tail));
      hide Join, Lines, Plain, Stripped;
      JoinTwo(parts[0], StripRights(Lines(tail)));
    }
  }

  lemma NormalizeJoin(parts: seq<string>)
    requires AllPlain(parts) && parts != []
    ensures Normalize(Join(parts, BLANK)) == Join(parts, BLANK)
  {
    var s := Join(parts, BLANK);
    JoinIsStripped(parts);
    LinesOfJoin(parts);
    hide Join, Lines, Strip, Stripped;
    StripUndoes("", s, "");
    assert "" + s + "" == s;
  }

  // ---------------------------------------------------------------- splitting into paragraphs

  lemma {:induction false} BreakEndShift(before: string, t: string, i: nat)
    requires i <= |t|
    ensures BreakEnd(before + t, |before| + i) == if BreakEnd(t, i) < 0 then -1 else |before| + BreakEnd(t, i)
    decreases |t| - i
  {
    if i < |t| {
      assert (before + t)[|before| + i] == t[i];
      BreakEndShift(before, t, i + 1);
      BreakEndMeans(t, i + 1);
    }
  }

  predicate BreaksAt(s: string, i: nat)
    requires i < |s|
  {
    s[i] == '\n' && BreakEnd(s, i + 1) >= 0
  }

  lemma PartsEnd(s: string, start: nat)
    requires start <= |s|
    ensures Parts(s, start, |s|) == [s[start..]]
  {
  }

  lemma PartsBreak(s: string, start: nat, i: nat)
    requires start <= i < |s| && BreaksAt(s, i)
    ensures i < BreakEnd(s, i + 1) <= |s|
    ensures Parts(s, start, i) == [s[start..i]] + Parts(s, BreakEnd(s, i + 1), BreakEnd(s, i + 1))
  {
    BreakEndMeans(s, i + 1);
  }

  lemma PartsGoOn(s: string, start: nat, i: nat)
    requires start <= i < |s| && !BreaksAt(s, i)
    ensures Parts(s, start, i) == Parts(s, start, i + 1)
  {
  }

  lemma BreaksShift(before: string, t: string, i: nat)
    requires i < |t|
    ensures BreaksAt(before + t, |before| + i) <==> BreaksAt(t, i)
    ensures BreaksAt(t, i) ==> BreakEnd(before + t, |before| + i + 1) == |before| + BreakEnd(t, i + 1)
  {
    BreakEndShift(before, t, i + 1);
    hide BreakEnd;
  }

  /** Splitting a suffix is splitting the text from there. */
  lemma {:induction false} PartsShift(before: string, t: string, start: nat, i: nat)
    requires start <= i <= |t|
    ensures Parts(before + t, |before| + start, |before| + i) == Parts(t, start, i)
    decreases |t| - i
  {
    hide Parts, BreaksAt, BreakEnd;
    var s, n := before + t, |before|;
    assert s[n + start..n + i] == t[start..i] && s[n + start..] == t[start..];
    if i == |t| {
      PartsEnd(s, n + start);
      PartsEnd(t, start);
    } else {
      BreaksShift(before, t, i);
      if BreaksAt(t, i) {
        PartsBreak(s, n + start, n + i);
        PartsBreak(t, start, i);
        PartsShift(before, t, BreakEnd(t, i + 1), BreakEnd(t, i + 1));
      } else {
        PartsGoOn(s, n + start, n + i);
        PartsGoOn(t, start, i);
        PartsShift(before, t, start, i + 1);
      }
    }
  }

  /** Up to its first line end a text is in one part. */
  lemma {:induction false} PartsSkip(s: string, i: nat, n: nat)
    requires i <= n <= |s| && forall k :: i <= k < n ==> s[k] != '\n'
    ensures Parts(s, 0, i) == Parts(s, 0, n)
    decreases n - i
  {
    if i < n { PartsSkip(s, i + 1, n); }
  }

  lemma PlainHasNoNewline(s: string)
    requires Plain(s)
    ensures forall k :: 0 <= k < |s| ==> s[k] != '\n'
  {
    assert LineBreak('\n');
  }

  lemma PartsTwo(a: string, rest: string)
    requires Plain(a) && Stripped(rest)
    ensures Parts(a + BLANK + rest, 0, 0) == [a] + Parts(rest, 0, 0)
  {
    var before := a + BLANK;
    var s, n := before + rest, |a|;
    PlainHasNoNewline(a);
    assert forall k :: 0 <= k < n ==> s[k] == a[k];
    PartsSkip(s, 0, n);
    assert s[n] == '\n' && s[n + 1] == '\n' && s[n + 2] == rest[0] && s[0..n] == a;
    assert BreakEnd(s, n + 2) == -1;
    assert IsSpace('\n');
    assert BreakEnd(s, n + 1) == n + 2;
    PartsBreak(s, 0, n);
    hide Parts, BreakEnd;
    PartsShift(before, rest, 0, 0);
  }

  lemma {:induction false} PartsOfJoin(parts: seq<string>)
    requires AllPlain(parts) && parts != []
    ensures Parts(Join(parts, BLANK), 0, 0) == parts
  {
    if |parts| == 1 {
      var s := parts[0];
      PlainHasNoNewline(s);
      PartsSkip(s, 0, |s|);
      assert s[0..] == s;
      assert parts == [s];
    } else {
      JoinFirstRest(parts);
      JoinIsStripped(parts[1..]);
      hide Parts, Join, Plain;
      PartsTwo(parts[0], Join(parts[1..], BLANK));
      PartsOfJoin(parts[1..]);
      assert parts == [parts[0]] + parts[1..];
    }
  }

  lemma StripKeeps(s: string)
    requires Stripped(s)
    ensures Strip(s) == s
  {
    hide Strip;
    StripUndoes("", s, "");
    assert "" + s + "" == s;
  }

  lemma {:induction false} StripAllKeeps(parts: seq<string>)
    requires AllPlain(parts)
    ensures StripAll(parts) == parts
  {
    if parts != [] {
      StripKeeps(parts[0]);
      hide Strip;
      StripAllKeeps(parts[1..]);
      assert parts == [parts[0]] + parts[1..];
    }
  }

  // ---------------------------------------------------------------- chunks

  lemma {:induction false} MergeKeeps(parts: seq<string>, current: string, size: nat)
    requires AllPlain(parts) && Stripped(current) && Tight([current] + parts, size)
    ensures Merge(parts, current, size) == [current] + parts
    decreases |parts|
  {
    if parts != [] {
      var first, rest := parts[0], parts[1..];
      CandidateIsJoin(current, first);
      assert |([current] + parts)[0]| + 2 + |([current] + parts)[1]| > size;
      hide Strip, Stripped;
      TightRest(current, parts, size);
      assert Plain(first) && Stripped(first);
      MergeKeeps(rest, first, size);
      assert [first] + rest == parts;
    } else {
      assert [current] + [] == [current];
    }
  }

  lemma TightRest(current: string, parts: seq<string>, size: nat)
    requires parts != [] && Tight([current] + parts, size)
    ensures Tight([parts[0]] + parts[1..], size)
  {
    var all := [current] + parts;
    assert [parts[0]] + parts[1..] == parts;
    forall i | 0 <= i < |parts| - 1 ensures |parts[i]| + 2 + |parts[i + 1]| > size {
      assert all[i + 1] == parts[i] && all[i + 2] == parts[i + 1];
    }
  }

  /** One-line paragraphs that fit, and no two neighbours of which fit together, are the chunks of their text. */
  lemma ChunksOfJoin(parts: seq<string>, size: nat)
    requires size > 0 && AllPlain(parts) && parts != [] && Tight(parts, size)
    requires forall i :: 0 <= i < |parts| ==> |parts[i]| <= size
    ensures Chunks(Normalize(Join(parts, BLANK)), size) == parts
  {
    var first, rest := parts[0], parts[1..];
    assert parts == [first] + rest;
    assert Plain(first) && forall p :: p in parts ==> 0 < |p| <= size;
    NormalizeJoin(parts);
    PartsOfJoin(parts);
    StripAllKeeps(parts);
    hide Normalize, Parts, Join, StripAll;
    assert Paragraphs(Join(parts, BLANK)) == parts;
    hide Paragraphs;
    WholePieces(parts, size);
    CandidateIsJoin("", first);
    hide Strip, AllPieces;
    assert Merge(parts, "", size) == Merge(rest, first, size);
    MergeKeeps(rest, first, size);
  }

  /** A short line of text is normal, and is its own only chunk. */
  lemma PlainText(s: string, size: nat)
    requires Plain(s) && |s| <= size
    ensures Normalize(s) == s && Chunks(s, size) == [s]
  {
    assert Join([s], BLANK) == s;
    hide Join;
    NormalizeJoin([s]);
    ChunksOfJoin([s], size);
  }

  // ---------------------------------------------------------------- one long line

  /** A line as long as a chunk may be. */
  function Filler(size: nat): string {
    seq(size, _ => 'x')
  }

  /** One line: `n` full pieces and then `last`. */
  function LongLine(size: nat, n: nat, last: string): string {
    if n == 0 then last else Filler(size) + LongLine(size, n - 1, last)
  }

  function LongPieces(size: nat, n: nat, last: string): seq<string> {
    if n == 0 then [last] else [Filler(size)] + LongPieces(size, n - 1, last)
  }

  /** One line that ends in text and fits into a chunk; it may begin with white space. */
  predicate Closing(last: string, size: nat) {
    0 < |last| <= size && !IsSpace(last[|last| - 1]) && forall k :: 0 <= k < |last| ==> !LineBreak(last[k])
  }

  lemma {:induction false} LongLineShape(size: nat, n: nat, last: string)
    requires size > 0 && Closing(last, size)
    ensures var line := LongLine(size, n, last);
      && |line| >= |last| && !IsSpace(line[|line| - 1]) && (forall k :: 0 <= k < |line| ==> !LineBreak(line[k]))
      && (n > 0 ==> |line| > size && line[0] == 'x' && line[..size] == Filler(size) && line[size..] == LongLine(size, n - 1, last))
  {
    if n > 0 {
      LongLineShape(size, n - 1, last);
    }
  }

  lemma {:induction false} PiecesOfLongLine(size: nat, n: nat, last: string)
    requires size > 0 && Closing(last, size)
    ensures Pieces(LongLine(size, n, last), size) == LongPieces(size, n, last)
  {
    LongLineShape(size, n, last);
    if n > 0 {
      hide LongLine, Filler;
      PiecesOfLongLine(size, n - 1, last);
    }
  }

  lemma FillerIsStripped(size: nat)
    requires size > 0
    ensures Stripped(Filler(size)) && |Filler(size)| == size
  {
  }

  /** After a full piece nothing fits. */
  lemma NothingFits(size: nat, piece: string)
    requires size > 0 && piece != [] && !IsSpace(piece[|piece| - 1])
    ensures |Strip(Filler(size) + BLANK + piece)| > size
  {
    FillerIsStripped(size);
    var s := Filler(size) + BLANK + piece;
    assert Stripped(s);
    StripKeeps(s);
  }

  lemma {:induction false} MergeLongPieces(size: nat, n: nat, last: string)
    requires size > 0 && Closing(last, size)
    ensures Merge(LongPieces(size, n, last), Filler(size), size) == [Filler(size)] + LongPieces(size, n, last)
  {
    FillerIsStripped(size);
    if n == 0 {
      NothingFits(size, last);
      hide Strip, Filler;
      assert Merge([], last, size) == [last];
      assert [last][1..] == [];
    } else {
      NothingFits(size, Filler(size));
      MergeLongPieces(size, n - 1, last);
      hide Strip, Filler;
      assert LongPieces(size, n, last)[1..] == LongPieces(size, n - 1, last);
    }
  }

  lemma LongPiecesMerge(size: nat, n: nat, last: string)
    requires size > 0 && Closing(last, size) && (n == 0 ==> !IsSpace(last[0]))
    ensures Merge(LongPieces(size, n, last), "", size) == LongPieces(size, n, last)
  {
    FillerIsStripped(size);
    if n == 0 {
      CandidateIsJoin("", last);
      hide Strip;
      assert Merge([], last, size) == [last];
      assert [last][1..] == [];
    } else {
      CandidateIsJoin("", Filler(size));
      MergeLongPieces(size, n - 1, last);
      hide Strip, Filler;
      assert LongPieces(size, n, last)[1..] == LongPieces(size, n - 1, last);
    }
  }

  lemma ParagraphsOfLine(line: string)
    requires Plain(line)
    ensures Normalize(line) == line && Paragraphs(line) == [line]
  {
    assert Join([line], BLANK) == line;
    hide Join, Plain;
    NormalizeJoin([line]);
    PartsOfJoin([line]);
    StripAllKeeps([line]);
  }

  lemma AllPiecesOfOne(line: string, size: nat)
    requires size > 0
    ensures AllPieces([line], size) == Pieces(line, size)
  {
    assert [line][1..] == [] && Pieces(line, size) + [] == Pieces(line, size);
  }

  /** A long line is cut into full chunks and what is left, which may begin with white space unless it is all there is. */
  lemma ChunksOfLongLine(size: nat, n: nat, last: string)
    requires size > 0 && Closing(last, size) && (n == 0 ==> !IsSpace(last[0]))
    ensures Chunks(Normalize(LongLine(size, n, last)), size) == LongPieces(size, n, last)
    ensures |LongPieces(size, n, last)| == n + 1 && LongPieces(size, n, last)[n] == last
  {
    var line := LongLine(size, n, last);
    LongLineShape(size, n, last);
    assert Plain(line);
    hide LongLine, Normalize, Paragraphs, Merge, Pieces, Plain;
    ParagraphsOfLine(line);
    AllPiecesOfOne(line, size);
    PiecesOfLongLine(size, n, last);
    LongPiecesMerge(size, n, last);
    LastPiece(size, n, last);
  }

  lemma {:induction false} LastPiece(size: nat, n: nat, last: string)
    ensures |LongPieces(size, n, last)| == n + 1 && LongPieces(size, n, last)[n] == last
  {
    if n > 0 {
      LastPiece(size, n - 1, last);
    }
  }
}
