/**
  `LocalKnowledgeRetriever._split` and the normalisation before it: a text is cut into chunks
  of bounded size without losing, inventing or reordering anything but white space.
*/
module Splitting {
  /** `str.isspace`, which is also `\s` of a text pattern. */
  predicate IsSpace(c: char) {
    var n := c as int;
    || 9 <= n <= 13 || 28 <= n <= 32 || n == 0x85 || n == 0xA0 || n == 0x1680 || 0x2000 <= n <= 0x200A
    || n == 0x2028 || n == 0x2029 || n == 0x202F || n == 0x205F || n == 0x3000
  }

  /** The characters that are not white space, in order. */
  function NonSpace(s: string): string {
    if s == [] then [] else (if IsSpace(s[0]) then [] else [s[0]]) + NonSpace(s[1..])
  }

  predicate AllSpace(s: string) {
    forall i :: 0 <= i < |s| ==> IsSpace(s[i])
  }

  lemma {:induction false} NonSpaceConcat(a: string, b: string)
    ensures NonSpace(a + b) == NonSpace(a) + NonSpace(b)
  {
    if a == [] {
      assert a + b == b;
    } else {
      assert (a + b)[1..] == a[1..] + b;
      NonSpaceConcat(a[1..], b);
    }
  }

  lemma {:induction false} NothingLeft(s: string)
    ensures AllSpace(s) <==> NonSpace(s) == []
  {
    if s != [] {
      NothingLeft(s[1..]);
      assert s == [s[0]] + s[1..];
    }
  }

  // ---------------------------------------------------------------- stripping

  function StripLeft(s: string): string {
    if s != [] && IsSpace(s[0]) then StripLeft(s[1..]) else s
  }

  function StripRight(s: string): string {
    if s != [] && IsSpace(s[|s| - 1]) then StripRight(s[..|s| - 1]) else s
  }

  /** `str.strip` */
  function Strip(s: string): string {
    StripRight(StripLeft(s))
  }

  predicate Stripped(s: string) {
    s != [] && !IsSpace(s[0]) && !IsSpace(s[|s| - 1])
  }

  lemma {:induction false} StripLeftMeans(s: string)
    ensures var r := StripLeft(s);
      |r| <= |s| && s[|s| - |r|..] == r && AllSpace(s[..|s| - |r|]) && (r != [] ==> !IsSpace(r[0]))
  {
    if s != [] && IsSpace(s[0]) {
      StripLeftMeans(s[1..]);
      var k := |s| - |StripLeft(s)|;
      assert s[..k] == [s[0]] + s[1..][..k - 1];
      assert s[k..] == s[1..][k - 1..];
    }
  }

  lemma {:induction false} StripRightMeans(s: string)
    ensures var r := StripRight(s);
      |r| <= |s| && s[..|r|] == r && AllSpace(s[|r|..]) && (r != [] ==> !IsSpace(r[|r| - 1]))
  {
    if s != [] && IsSpace(s[|s| - 1]) {
      var t := s[..|s| - 1];
      StripRightMeans(t);
      var k := |StripRight(s)|;
      assert s[k..] == t[k..] + [s[|s| - 1]];
      assert s[..k] == t[..k];
    }
  }

  /** A slice without white space at its ends, and white space around it. */
  lemma StripMeans(s: string) returns (lo: nat, hi: nat)
    ensures lo <= hi <= |s| && Strip(s) == s[lo..hi] && AllSpace(s[..lo]) && AllSpace(s[hi..])
    ensures Strip(s) == [] || Stripped(Strip(s))
  {
    StripLeftMeans(s);
    var r := StripLeft(s);
    StripRightMeans(r);
    lo := |s| - |r|;
    hi := lo + |Strip(s)|;
    assert s[hi..] == r[|Strip(s)|..];
    assert s[lo..hi] == r[..|Strip(s)|];
  }

  lemma StripConserves(s: string)
    ensures NonSpace(Strip(s)) == NonSpace(s) && |Strip(s)| <= |s|
  {
    var lo, hi := StripMeans(s);
    assert s == s[..lo] + s[lo..hi] + s[hi..];
    NonSpaceConcat(s[..lo] + s[lo..hi], s[hi..]);
    NonSpaceConcat(s[..lo], s[lo..hi]);
    NothingLeft(s[..lo]);
    NothingLeft(s[hi..]);
  }

  /** White space around a stripped text disappears, and nothing else. */
  lemma StripUndoes(before: string, s: string, after: string)
    requires Stripped(s) && AllSpace(before) && AllSpace(after)
    ensures Strip(before + s + after) == s
  {
    var t := before + s + after;
    var lo, hi := StripMeans(t);
    var from, to := |before|, |before| + |s|;
    assert t[from] == s[0] && t[to - 1] == s[|s| - 1];
    assert forall k :: 0 <= k < lo ==> t[k] == t[..lo][k];
    assert forall k :: hi <= k < |t| ==> t[k] == t[hi..][k - hi];
    assert forall k :: 0 <= k < from ==> t[k] == before[k];
    assert forall k :: to <= k < |t| ==> t[k] == after[k - to];
    assert t[lo] == t[lo..hi][0] && t[hi - 1] == t[lo..hi][hi - lo - 1];
    assert t[from..to] == s;
  }

  // ---------------------------------------------------------------- lists of texts

  function Flat(parts: seq<string>): string {
    if parts == [] then [] else parts[0] + Flat(parts[1..])
  }

  function Join(parts: seq<string>, sep: string): string {
    if parts == [] then [] else if |parts| == 1 then parts[0] else parts[0] + sep + Join(parts[1..], sep)
  }

  lemma FlatCons(first: string, rest: seq<string>)
    ensures Flat([first] + rest) == first + Flat(rest)
  {
    assert ([first] + rest)[1..] == rest;
  }

  lemma FlatFirst(parts: seq<string>)
    requires parts != []
    ensures Flat(parts) == parts[0] + Flat(parts[1..])
  {
  }

  lemma FlatOne(s: string)
    ensures Flat([s]) == s
  {
    assert [s][1..] == [] && Flat([]) == [];
  }

  lemma JoinCons(first: string, rest: seq<string>, sep: string)
    requires rest != []
    ensures Join([first] + rest, sep) == first + sep + Join(rest, sep)
  {
    assert ([first] + rest)[1..] == rest;
  }

  lemma {:induction false} FlatConcat(a: seq<string>, b: seq<string>)
    ensures Flat(a + b) == Flat(a) + Flat(b)
  {
    if a == [] {
      assert a + b == b;
    } else {
      assert (a + b)[1..] == a[1..] + b;
      FlatConcat(a[1..], b);
    }
  }

  // ---------------------------------------------------------------- paragraphs

  /** The farthest end of `\s*\n` matched at `i`. */
  function BreakEnd(s: string, i: nat): int
    requires i <= |s|
    decreases |s| - i
  {
    if i == |s| || !IsSpace(s[i]) then -1
    else
      var e := BreakEnd(s, i + 1);
      if e >= 0 then e else if s[i] == '\n' then i + 1 else -1
  }

  lemma {:induction false} BreakEndMeans(s: string, i: nat)
    requires i <= |s|
    ensures var e := BreakEnd(s, i); e >= 0 ==> i < e <= |s| && AllSpace(s[i..e]) && s[e - 1] == '\n'
    decreases |s| - i
  {
    if i < |s| && IsSpace(s[i]) {
      BreakEndMeans(s, i + 1);
      var e := BreakEnd(s, i);
      if e >= 0 { assert s[i..e] == [s[i]] + s[i + 1..e]; }
    }
  }

  lemma {:induction false} BreakFound(s: string, i: nat, j: nat)
    requires i <= j < |s| && s[j] == '\n' && AllSpace(s[i..j])
    ensures BreakEnd(s, i) >= 0
    decreases j - i
  {
    if i < j {
      assert s[i..j][0] == s[i];
      assert s[i + 1..j] == s[i..j][1..];
      BreakFound(s, i + 1, j);
    }
  }

  /** `re.split(r"\n\s*\n", s)`, resumed at `i` with a part that began at `start`. */
  function Parts(s: string, start: nat, i: nat): (parts: seq<string>)
    requires start <= i <= |s|
    decreases |s| - i
  {
    if i == |s| then [s[start..]]
    else if s[i] == '\n' && BreakEnd(s, i + 1) >= 0 then
      BreakEndMeans(s, i + 1);
      [s[start..i]] + Parts(s, BreakEnd(s, i + 1), BreakEnd(s, i + 1))
    else Parts(s, start, i + 1)
  }

  /** `[part.strip() for part in parts if part.strip()]` */
  function StripAll(parts: seq<string>): seq<string> {
    if parts == [] then []
    else (if Strip(parts[0]) == [] then [] else [Strip(parts[0])]) + StripAll(parts[1..])
  }

  function Paragraphs(content: string): seq<string> {
    StripAll(Parts(content, 0, 0))
  }

  lemma {:induction false} PartsConserve(s: string, start: nat, i: nat)
    requires start <= i <= |s|
    ensures NonSpace(Flat(Parts(s, start, i))) == NonSpace(s[start..])
    decreases |s| - i
  {
    hide Flat, NonSpace;
    if i == |s| {
      FlatOne(s[start..]);
    } else if s[i] == '\n' && BreakEnd(s, i + 1) >= 0 {
      BreakEndMeans(s, i + 1);
      var e := BreakEnd(s, i + 1);
      PartsConserve(s, e, e);
      FlatCons(s[start..i], Parts(s, e, e));
      NonSpaceConcat(s[start..i], Flat(Parts(s, e, e)));
      assert s[i..e] == [s[i]] + s[i + 1..e];
      WithoutMiddle(s, start, i, e);
    } else {
      PartsConserve(s, start, i + 1);
    }
  }

  lemma WithoutMiddle(s: string, start: nat, i: nat, e: nat)
    requires start <= i <= e <= |s| && AllSpace(s[i..e])
    ensures NonSpace(s[start..]) == NonSpace(s[start..i]) + NonSpace(s[e..])
  {
    hide NonSpace;
    assert s[start..] == s[start..i] + (s[i..e] + s[e..]);
    NonSpaceConcat(s[start..i], s[i..e] + s[e..]);
    NonSpaceConcat(s[i..e], s[e..]);
    NothingLeft(s[i..e]);
  }

  lemma {:induction false} StripAllConserves(parts: seq<string>)
    ensures NonSpace(Flat(StripAll(parts))) == NonSpace(Flat(parts))
  {
    if parts != [] {
      var p := Strip(parts[0]);
      StripConserves(parts[0]);
      StripAllConserves(parts[1..]);
      NonSpaceConcat(parts[0], Flat(parts[1..]));
      NonSpaceConcat(p, Flat(StripAll(parts[1..])));
      if p == [] {
        assert StripAll(parts) == StripAll(parts[1..]);
      } else {
        assert StripAll(parts)[1..] == StripAll(parts[1..]);
      }
    }
  }

  /** Two line ends with nothing but white space between them. */
  ghost predicate HasBlankLine(s: string) {
    exists k, j :: 0 <= k < j < |s| && s[k] == '\n' && s[j] == '\n' && AllSpace(s[k + 1..j])
  }

  lemma SliceHasNoBlankLine(s: string, lo: nat, hi: nat)
    requires lo <= hi <= |s| && !HasBlankLine(s)
    ensures !HasBlankLine(s[lo..hi])
  {
    var t := s[lo..hi];
    forall k, j | 0 <= k < j < |t| && t[k] == '\n' && t[j] == '\n' ensures !AllSpace(t[k + 1..j]) {
      SliceOfSlice(s, lo, hi, k + 1, j);
      assert s[lo + k] == '\n' && s[lo + j] == '\n';
    }
  }

  lemma SliceOfSlice(s: string, lo: nat, hi: nat, a: nat, b: nat)
    requires lo <= hi <= |s| && a <= b <= hi - lo
    ensures s[lo..hi][a..b] == s[lo + a..lo + b]
  {
    assert forall k :: 0 <= k < b - a ==> s[lo..hi][a..b][k] == s[lo + a + k];
  }

  lemma NoBreakInside(s: string, start: nat, i: nat)
    requires start <= i <= |s|
    requires forall k :: start <= k < i && s[k] == '\n' ==> BreakEnd(s, k + 1) < 0
    ensures !HasBlankLine(s[start..i])
  {
    var t := s[start..i];
    forall k, j | 0 <= k < j < |t| && t[k] == '\n' && t[j] == '\n' ensures !AllSpace(t[k + 1..j]) {
      SliceOfSlice(s, start, i, k + 1, j);
      assert s[start + k] == '\n' && s[start + j] == '\n';
      if AllSpace(s[start + k + 1..start + j]) {
        BreakFound(s, start + k + 1, start + j);
      }
    }
  }

  lemma {:induction false} PartsUnbroken(s: string, start: nat, i: nat)
    requires start <= i <= |s|
    requires forall k :: start <= k < i && s[k] == '\n' ==> BreakEnd(s, k + 1) < 0
    ensures forall p :: p in Parts(s, start, i) ==> !HasBlankLine(p)
    decreases |s| - i
  {
    hide HasBlankLine;
    if i == |s| {
      NoBreakInside(s, start, i);
      assert s[start..] == s[start..i];
    } else if s[i] == '\n' && BreakEnd(s, i + 1) >= 0 {
      BreakEndMeans(s, i + 1);
      NoBreakInside(s, start, i);
      PartsUnbroken(s, BreakEnd(s, i + 1), BreakEnd(s, i + 1));
    } else {
      PartsUnbroken(s, start, i + 1);
    }
  }

  lemma {:induction false} StripAllUnbroken(parts: seq<string>)
    requires forall p :: p in parts ==> !HasBlankLine(p)
    ensures forall p :: p in StripAll(parts) ==> Stripped(p) && !HasBlankLine(p)
  {
    hide HasBlankLine;
    if parts != [] {
      var lo, hi := StripMeans(parts[0]);
      SliceHasNoBlankLine(parts[0], lo, hi);
      StripAllUnbroken(parts[1..]);
    }
  }

  /**
    The text consists of these paragraphs with white space around them, and between any two of
    them (also before the first, unless it is the `first` of the text) there is a blank line.
  */
  ghost predicate Spaced(s: string, paragraphs: seq<string>, first: bool)
    decreases |paragraphs|
  {
    if paragraphs == [] then AllSpace(s)
    else exists lo: nat :: Starts(s, lo, paragraphs, first)
  }

  ghost predicate Starts(s: string, lo: nat, paragraphs: seq<string>, first: bool)
    requires paragraphs != []
    decreases |paragraphs|, 0
  {
    var hi := lo + |paragraphs[0]|;
    && hi <= |s| && s[lo..hi] == paragraphs[0] && AllSpace(s[..lo]) && (first || HasBlankLine(s[..lo]))
    && Spaced(s[hi..], paragraphs[1..], false)
  }

  /** White space in front, which may hold the blank line. */
  lemma SpacedAfter(before: string, s: string, paragraphs: seq<string>, first: bool)
    requires AllSpace(before) && Spaced(s, paragraphs, true) && (first || HasBlankLine(before))
    ensures Spaced(before + s, paragraphs, first)
  {
    if paragraphs != [] {
      var lo: nat :| Starts(s, lo, paragraphs, true);
      var t, at := before + s, |before| + lo;
      assert t[..at] == before + s[..lo];
      assert t[at..at + |paragraphs[0]|] == s[lo..lo + |paragraphs[0]|];
      assert t[at + |paragraphs[0]|..] == s[lo + |paragraphs[0]|..];
      if !first {
        var k, j :| 0 <= k < j < |before| && before[k] == '\n' && before[j] == '\n' && AllSpace(before[k + 1..j]);
        assert t[..at][k] == '\n' && t[..at][j] == '\n' && t[..at][k + 1..j] == before[k + 1..j];
      }
      hide Spaced, HasBlankLine;
      assert Starts(t, at, paragraphs, first);
    }
  }

  lemma SpacedBefore(p: string, after: string, s: string, rest: seq<string>)
    requires AllSpace(after) && HasBlankLine(after) && Spaced(s, rest, true)
    requires !AllSpace(p)
    ensures Spaced(p + after + s, [Strip(p)] + rest, true)
  {
    var lo, hi := StripMeans(p);
    var t, q := p + after + s, Strip(p);
    BlankLineAfter(p[hi..], after);
    SpacedAfter(p[hi..] + after, s, rest, false);
    assert t[lo..hi] == q && t[..lo] == p[..lo];
    assert t[hi..] == p[hi..] + after + s;
    assert ([q] + rest)[1..] == rest;
    hide Spaced, HasBlankLine, AllSpace, Strip;
    assert Starts(t, lo, [q] + rest, true);
  }

  lemma BlankLineAfter(a: string, b: string)
    requires HasBlankLine(b)
    ensures HasBlankLine(a + b)
  {
    var k, j :| 0 <= k < j < |b| && b[k] == '\n' && b[j] == '\n' && AllSpace(b[k + 1..j]);
    var t := a + b;
    assert t[|a| + k] == '\n' && t[|a| + j] == '\n' && t[|a| + k + 1..|a| + j] == b[k + 1..j];
  }

  lemma LastSpaced(p: string)
    ensures Spaced(p, if Strip(p) == [] then [] else [Strip(p)], true)
  {
    var lo, hi := StripMeans(p);
    if Strip(p) == [] {
      assert p == p[..lo] + p[hi..];
    } else {
      assert [Strip(p)][1..] == [] && p[lo..hi] == Strip(p);
      assert Spaced(p[hi..], [], false);
      assert Starts(p, lo, [Strip(p)], true);
    }
  }

  lemma BlankIsStripped(p: string)
    ensures Strip(p) == [] <==> AllSpace(p)
  {
    StripConserves(p);
    NothingLeft(p);
    NothingLeft(Strip(p));
    if Strip(p) != [] {
      var lo, hi := StripMeans(p);
      assert Stripped(Strip(p));
    }
  }

  lemma {:induction false} PartsSpaced(s: string, start: nat, i: nat)
    requires start <= i <= |s|
    ensures Spaced(s[start..], StripAll(Parts(s, start, i)), true)
    decreases |s| - i
  {
    hide Spaced, HasBlankLine, AllSpace, Strip;
    if i == |s| {
      var p := s[start..];
      LastSpaced(p);
      assert [p][1..] == [] && StripAll([]) == [];
      assert (if Strip(p) == [] then [] else [Strip(p)]) + [] == if Strip(p) == [] then [] else [Strip(p)];
    } else if s[i] == '\n' && BreakEnd(s, i + 1) >= 0 {
      BreakEndMeans(s, i + 1);
      var e := BreakEnd(s, i + 1);
      PartsSpaced(s, e, e);
      CutSpaced(s, start, i, e, StripAll(Parts(s, e, e)));
      assert ([s[start..i]] + Parts(s, e, e))[1..] == Parts(s, e, e);
    } else {
      PartsSpaced(s, start, i + 1);
    }
  }

  lemma CutSpaced(s: string, start: nat, i: nat, e: nat, rest: seq<string>)
    requires start <= i && i + 1 < e <= |s| && s[i] == '\n' && s[e - 1] == '\n' && AllSpace(s[i + 1..e])
    requires Spaced(s[e..], rest, true)
    ensures Spaced(s[start..], (if Strip(s[start..i]) == [] then [] else [Strip(s[start..i])]) + rest, true)
  {
    var p, gap := s[start..i], s[i..e];
    assert gap == ['\n'] + s[i + 1..e] && gap[e - 1 - i] == '\n';
    assert gap[0 + 1..e - 1 - i] == s[i + 1..e][..e - i - 2];
    assert AllSpace(gap) && HasBlankLine(gap);
    assert s[start..] == p + gap + s[e..];
    BlankIsStripped(p);
    if Strip(p) == [] {
      SpacedAfter(p + gap, s[e..], rest, true);
      assert [] + rest == rest;
    } else {
      SpacedBefore(p, gap, s[e..], rest);
    }
  }

  /** Paragraphs are non-empty, stripped, free of blank lines, separated by blank lines, and hold all of the text. */
  lemma ParagraphsMean(content: string)
    ensures forall p :: p in Paragraphs(content) ==> Stripped(p) && !HasBlankLine(p)
    ensures Spaced(content, Paragraphs(content), true)
    ensures NonSpace(Flat(Paragraphs(content))) == NonSpace(content)
  {
    PartsUnbroken(content, 0, 0);
    StripAllUnbroken(Parts(content, 0, 0));
    PartsConserve(content, 0, 0);
    StripAllConserves(Parts(content, 0, 0));
    PartsSpaced(content, 0, 0);
    assert content[0..] == content;
  }

  // ---------------------------------------------------------------- chunks

  function Pieces(paragraph: string, size: nat): seq<string>
    requires size > 0
  {
    if paragraph == [] then []
    else if |paragraph| <= size then [paragraph]
    else [paragraph[..size]] + Pieces(paragraph[size..], size)
  }

  function AllPieces(paragraphs: seq<string>, size: nat): seq<string>
    requires size > 0
  {
    if paragraphs == [] then [] else Pieces(paragraphs[0], size) + AllPieces(paragraphs[1..], size)
  }

  /** The chunks still to come when `current` is open and `pieces` are left. */
  function Merge(pieces: seq<string>, current: string, size: nat): seq<string> {
    if pieces == [] then (if current == [] then [] else [current])
    else
      var candidate := Strip(current + "\n\n" + pieces[0]);
      if current != [] && |candidate| > size then [current] + Merge(pieces[1..], pieces[0], size)
      else Merge(pieces[1..], candidate, size)
  }

  function Chunks(content: string, size: nat): seq<string>
    requires size > 0
  {
    Merge(AllPieces(Paragraphs(content), size), "", size)
  }

  lemma Associate<T>(a: seq<T>, b: seq<T>, c: seq<T>)
    ensures a + (b + c) == a + b + c
  {
  }

  /** `_split` */
  method Split(content: string, size: nat) returns (chunks: seq<string>)
    requires size > 0
    ensures chunks == Chunks(content, size)
  {
    var paragraphs := Paragraphs(content);
    chunks := [];
    var current := "";
    hide Strip, Paragraphs, Pieces;
    for p := 0 to |paragraphs|
      invariant chunks + Merge(AllPieces(paragraphs[p..], size), current, size) == Chunks(content, size)
    {
      var pieces := Pieces(paragraphs[p], size);
      ghost var later := AllPieces(paragraphs[p + 1..], size);
      assert paragraphs[p..][1..] == paragraphs[p + 1..];
      for k := 0 to |pieces|
        invariant chunks + Merge(pieces[k..] + later, current, size) == Chunks(content, size)
      {
        assert (pieces[k..] + later)[1..] == pieces[k + 1..] + later;
        var candidate := Strip(current + "\n\n" + pieces[k]);
        if current != [] && |candidate| > size {
          Associate(chunks, [current], Merge(pieces[k + 1..] + later, pieces[k], size));
          chunks := chunks + [current];
          current := pieces[k];
        } else {
          current := candidate;
        }
      }
      assert pieces[|pieces|..] + later == later;
    }
    if current != [] {
      chunks := chunks + [current];
    }
  }

  lemma {:induction false} PiecesFit(paragraph: string, size: nat)
    requires size > 0
    ensures forall p :: p in Pieces(paragraph, size) ==> 0 < |p| <= size
  {
    if |paragraph| > size { PiecesFit(paragraph[size..], size); }
  }

  lemma {:induction false} PiecesConserve(paragraph: string, size: nat)
    requires size > 0
    ensures Flat(Pieces(paragraph, size)) == paragraph
  {
    if paragraph == [] {
      assert Flat([]) == [];
    } else if |paragraph| <= size {
      FlatOne(paragraph);
    } else {
      PiecesConserve(paragraph[size..], size);
      var rest := Pieces(paragraph[size..], size);
      assert Pieces(paragraph, size) == [paragraph[..size]] + rest;
      hide Flat, Pieces;
      FlatCons(paragraph[..size], rest);
    }
  }

  lemma {:induction false} AllPiecesMean(paragraphs: seq<string>, size: nat)
    requires size > 0
    ensures Flat(AllPieces(paragraphs, size)) == Flat(paragraphs)
    ensures forall p :: p in AllPieces(paragraphs, size) ==> 0 < |p| <= size
  {
    if paragraphs != [] {
      PiecesFit(paragraphs[0], size);
      PiecesConserve(paragraphs[0], size);
      AllPiecesMean(paragraphs[1..], size);
      FlatConcat(Pieces(paragraphs[0], size), AllPieces(paragraphs[1..], size));
    }
  }

  /** What opening or extending a chunk does to its text. */
  lemma CandidateConserves(current: string, piece: string)
    ensures NonSpace(Strip(current + "\n\n" + piece)) == NonSpace(current) + NonSpace(piece)
    ensures Strip(current + "\n\n" + piece) == [] || Stripped(Strip(current + "\n\n" + piece))
    ensures current == [] ==> |Strip(current + "\n\n" + piece)| <= |piece|
  {
    var t := current + "\n\n" + piece;
    StripConserves(t);
    NonSpaceConcat(current + "\n\n", piece);
    NonSpaceConcat(current, "\n\n");
    NothingLeft("\n\n");
    hide NonSpace, Strip, Stripped;
    var lo, hi := StripMeans(t);
    if current == [] {
      assert t == "\n\n" + piece;
      FirstCandidateFits(piece);
    }
  }

  lemma FirstCandidateFits(piece: string)
    ensures |Strip("\n\n" + piece)| <= |piece|
  {
    var t := "\n\n" + piece;
    var lo, hi := StripMeans(t);
    if Strip(t) != [] {
      assert t[lo] == t[lo..hi][0];
      assert lo >= 2;
    }
  }

  lemma {:induction false} MergeConserves(pieces: seq<string>, current: string, size: nat)
    ensures NonSpace(Flat(Merge(pieces, current, size))) == NonSpace(current) + NonSpace(Flat(pieces))
  {
    if pieces == [] {
      FlatOne(current);
      assert Flat([]) == [] && NonSpace([]) == [];
    } else {
      var first, rest := pieces[0], pieces[1..];
      var candidate := Strip(current + "\n\n" + first);
      FlatFirst(pieces);
      CandidateConserves(current, first);
      hide Flat, NonSpace, Strip;
      NonSpaceConcat(first, Flat(rest));
      Associate(NonSpace(current), NonSpace(first), NonSpace(Flat(rest)));
      if current != [] && |candidate| > size {
        MergeConserves(rest, first, size);
        FlatCons(current, Merge(rest, first, size));
        NonSpaceConcat(current, Flat(Merge(rest, first, size)));
      } else {
        MergeConserves(rest, candidate, size);
      }
    }
  }

  lemma {:induction false} MergeFits(pieces: seq<string>, current: string, size: nat)
    requires |current| <= size && forall p :: p in pieces ==> |p| <= size
    ensures forall c :: c in Merge(pieces, current, size) ==> |c| <= size
  {
    if pieces != [] {
      var candidate := Strip(current + "\n\n" + pieces[0]);
      CandidateConserves(current, pieces[0]);
      hide Strip, NonSpace;
      if current != [] && |candidate| > size {
        MergeFits(pieces[1..], pieces[0], size);
      } else {
        MergeFits(pieces[1..], candidate, size);
      }
    }
  }

  /** Every chunk fits, and together the chunks hold the non-white characters of the text in order. */
  lemma SplitConserves(content: string, size: nat)
    requires size > 0
    ensures forall c :: c in Chunks(content, size) ==> |c| <= size
    ensures NonSpace(Flat(Chunks(content, size))) == NonSpace(content)
  {
    ParagraphsMean(content);
    AllPiecesMean(Paragraphs(content), size);
    MergeConserves(AllPieces(Paragraphs(content), size), "", size);
    MergeFits(AllPieces(Paragraphs(content), size), "", size);
  }

  /** An open chunk is empty or has text in it. */
  predicate Open(current: string) {
    current == [] || !AllSpace(current)
  }

  /** A piece that is only white space never closes a chunk. */
  lemma BlankPieceFits(current: string, piece: string)
    requires AllSpace(piece)
    ensures |Strip(current + "\n\n" + piece)| <= |current|
  {
    var t := current + "\n\n" + piece;
    var lo, hi := StripMeans(t);
    if Strip(t) != [] {
      assert t[hi - 1] == t[lo..hi][hi - lo - 1];
      assert forall k :: |current| + 2 <= k < |t| ==> t[k] == piece[k - |current| - 2];
      assert forall k :: |current| <= k < |t| ==> IsSpace(t[k]);
    }
  }

  lemma {:induction false} MergeNeverBlank(pieces: seq<string>, current: string, size: nat)
    requires |current| <= size && Open(current)
    requires forall p :: p in pieces ==> |p| <= size
    ensures forall c :: c in Merge(pieces, current, size) ==> !AllSpace(c)
  {
    if pieces != [] {
      var candidate := Strip(current + "\n\n" + pieces[0]);
      CandidateConserves(current, pieces[0]);
      if current != [] && |candidate| > size {
        if AllSpace(pieces[0]) { BlankPieceFits(current, pieces[0]); }
        MergeNeverBlank(pieces[1..], pieces[0], size);
      } else {
        MergeNeverBlank(pieces[1..], candidate, size);
      }
    }
  }

  /** No chunk is blank, whatever white space the text holds. */
  lemma NoBlankChunks(content: string, size: nat)
    requires size > 0
    ensures forall c :: c in Chunks(content, size) ==> !AllSpace(c)
  {
    AllPiecesMean(Paragraphs(content), size);
    MergeNeverBlank(AllPieces(Paragraphs(content), size), "", size);
  }

  lemma {:induction false} MergeStartsClean(pieces: seq<string>, current: string, size: nat)
    requires current == [] || Stripped(current)
    ensures var chunks := Merge(pieces, current, size); chunks != [] ==> chunks[0] != [] && !IsSpace(chunks[0][0])
  {
    if pieces != [] {
      var candidate := Strip(current + "\n\n" + pieces[0]);
      CandidateConserves(current, pieces[0]);
      hide Strip;
      if current == [] || |candidate| <= size {
        MergeStartsClean(pieces[1..], candidate, size);
      }
    }
  }

  /** The first chunk never begins with white space; later ones may, where a long paragraph was cut. */
  lemma FirstChunkStartsClean(content: string, size: nat)
    requires size > 0
    ensures var chunks := Chunks(content, size); chunks != [] ==> chunks[0] != [] && !IsSpace(chunks[0][0])
  {
    hide Paragraphs, AllPieces;
    MergeStartsClean(AllPieces(Paragraphs(content), size), "", size);
  }

  // ---------------------------------------------------------------- texts without oversized paragraphs

  lemma {:induction false} WholePieces(paragraphs: seq<string>, size: nat)
    requires size > 0 && forall p :: p in paragraphs ==> 0 < |p| <= size
    ensures AllPieces(paragraphs, size) == paragraphs
  {
    if paragraphs != [] {
      WholePieces(paragraphs[1..], size);
      assert paragraphs == [paragraphs[0]] + paragraphs[1..];
    }
  }

  lemma CandidateIsJoin(current: string, piece: string)
    requires Stripped(piece) && (current == [] || Stripped(current))
    ensures Strip(current + "\n\n" + piece) == if current == [] then piece else current + "\n\n" + piece
  {
    if current == [] {
      StripUndoes("\n\n", piece, "");
      assert current + "\n\n" + piece == "\n\n" + piece + "";
    } else {
      var t := current + "\n\n" + piece;
      StripUndoes("", t, "");
      assert t == "" + t + "";
    }
  }

  lemma {:induction false} MergeJoins(pieces: seq<string>, current: string, size: nat)
    requires (current == [] || Stripped(current)) && forall p :: p in pieces ==> Stripped(p)
    ensures Join(Merge(pieces, current, size), "\n\n") == Join((if current == [] then [] else [current]) + pieces, "\n\n")
    ensures Merge(pieces, current, size) == [] <==> current == [] && pieces == []
    decreases |pieces|
  {
    if pieces != [] {
      CandidateIsJoin(current, pieces[0]);
      var candidate := Strip(current + "\n\n" + pieces[0]);
      if current != [] && |candidate| > size {
        var rest := Merge(pieces[1..], pieces[0], size);
        MergeJoins(pieces[1..], pieces[0], size);
        assert ([current] + rest)[1..] == rest;
        assert [pieces[0]] + pieces[1..] == pieces;
        assert ([current] + pieces)[1..] == pieces;
      } else {
        MergeJoins(pieces[1..], candidate, size);
        JoinFirst(current, pieces);
      }
    } else {
      assert (if current == [] then [] else [current]) + pieces == Merge(pieces, current, size);
    }
  }

  lemma Regroup(a: string, b: string, c: string)
    ensures a + "\n\n" + (b + "\n\n" + c) == a + "\n\n" + b + "\n\n" + c
  {
  }

  lemma JoinOne(s: string, sep: string)
    ensures Join([s], sep) == s
  {
  }

  lemma JoinFirst(current: string, pieces: seq<string>)
    requires pieces != []
    ensures Join([if current == [] then pieces[0] else current + "\n\n" + pieces[0]] + pieces[1..], "\n\n")
         == Join((if current == [] then [] else [current]) + pieces, "\n\n")
  {
    hide Join;
    if current == [] {
      assert [pieces[0]] + pieces[1..] == pieces;
      assert [] + pieces == pieces;
    } else {
      var merged, rest := current + "\n\n" + pieces[0], pieces[1..];
      assert pieces == [pieces[0]] + rest;
      JoinCons(current, pieces, "\n\n");
      if rest == [] {
        assert [merged] + rest == [merged] && pieces == [pieces[0]];
        JoinOne(merged, "\n\n");
        JoinOne(pieces[0], "\n\n");
      } else {
        JoinCons(pieces[0], rest, "\n\n");
        JoinCons(merged, rest, "\n\n");
        Regroup(current, pieces[0], Join(rest, "\n\n"));
      }
    }
  }

  /** No two neighbours would have fitted into one chunk. */
  predicate Tight(chunks: seq<string>, size: nat) {
    forall i :: 0 <= i < |chunks| - 1 ==> |chunks[i]| + 2 + |chunks[i + 1]| > size
  }

  lemma {:induction false} MergeTight(pieces: seq<string>, current: string, size: nat)
    requires (current == [] || Stripped(current)) && forall p :: p in pieces ==> Stripped(p)
    ensures Tight(Merge(pieces, current, size), size)
    ensures current != [] ==> Merge(pieces, current, size) != [] && |Merge(pieces, current, size)[0]| >= |current|
    decreases |pieces|
  {
    if pieces != [] {
      CandidateIsJoin(current, pieces[0]);
      var candidate := Strip(current + "\n\n" + pieces[0]);
      if current != [] && |candidate| > size {
        MergeTight(pieces[1..], pieces[0], size);
      } else {
        MergeTight(pieces[1..], candidate, size);
      }
    }
  }

  /**
    When no paragraph exceeds the chunk size, no paragraph is cut: joined by blank lines the
    chunks are the paragraphs joined by blank lines, and no two neighbours would have fitted together.
  */
  lemma WholeParagraphs(content: string, size: nat)
    requires size > 0 && forall p :: p in Paragraphs(content) ==> |p| <= size
    ensures Join(Chunks(content, size), "\n\n") == Join(Paragraphs(content), "\n\n")
    ensures Tight(Chunks(content, size), size)
  {
    ParagraphsMean(content);
    WholePieces(Paragraphs(content), size);
    MergeJoins(Paragraphs(content), "", size);
    MergeTight(Paragraphs(content), "", size);
    assert [] + Paragraphs(content) == Paragraphs(content);
  }

  // ---------------------------------------------------------------- normalisation

  /** Where `str.splitlines` breaks. */
  predicate LineBreak(c: char) {
    var n := c as int;
    10 <= n <= 13 || 28 <= n <= 30 || n == 0x85 || n == 0x2028 || n == 0x2029
  }

  function LineEnd(s: string): (n: nat)
    ensures n <= |s| && (n < |s| ==> LineBreak(s[n]))
  {
    if s == [] || LineBreak(s[0]) then 0 else 1 + LineEnd(s[1..])
  }

  /** `str.splitlines` */
  function Lines(s: string): seq<string>
    decreases |s|
  {
    var n := LineEnd(s);
    if s == [] then []
    else if n == |s| then [s]
    else if s[n] == '\r' && n + 1 < |s| && s[n + 1] == '\n' then [s[..n]] + Lines(s[n + 2..])
    else [s[..n]] + Lines(s[n + 1..])
  }

  function StripRights(lines: seq<string>): seq<string> {
    if lines == [] then [] else [StripRight(lines[0])] + StripRights(lines[1..])
  }

  function Normalize(content: string): string {
    Join(StripRights(Lines(Strip(content))), "\n")
  }

  lemma {:induction false} LinesConserve(s: string)
    ensures NonSpace(Flat(Lines(s))) == NonSpace(s)
    decreases |s|
  {
    var n := LineEnd(s);
    if s == [] {
      assert Flat([]) == [];
    } else if n == |s| {
      FlatOne(s);
    } else {
      var m := if s[n] == '\r' && n + 1 < |s| && s[n + 1] == '\n' then n + 2 else n + 1;
      assert AllSpace(s[n..m]);
      assert Lines(s) == [s[..n]] + Lines(s[m..]);
      LinesConserve(s[m..]);
      hide Flat, NonSpace, Lines;
      FlatCons(s[..n], Lines(s[m..]));
      NonSpaceConcat(s[..n], Flat(Lines(s[m..])));
      assert s[0..] == s && s[0..n] == s[..n];
      WithoutMiddle(s, 0, n, m);
    }
  }

  lemma {:induction false} StripRightsConserve(lines: seq<string>)
    ensures NonSpace(Join(StripRights(lines), "\n")) == NonSpace(Flat(lines))
  {
    if lines != [] {
      var r := StripRight(lines[0]);
      StripRightMeans(lines[0]);
      NonSpaceConcat(r, lines[0][|r|..]);
      NothingLeft(lines[0][|r|..]);
      assert lines[0] == r + lines[0][|r|..];
      StripRightsConserve(lines[1..]);
      NonSpaceConcat(lines[0], Flat(lines[1..]));
      var rest := StripRights(lines[1..]);
      assert ([r] + rest)[1..] == rest;
      if rest != [] {
        NonSpaceConcat(r + "\n", Join(rest, "\n"));
        NonSpaceConcat(r, "\n");
        NothingLeft("\n");
      }
    }
  }

  /** From the document as given to its chunks, only white space changes. */
  lemma IngestConserves(content: string, size: nat)
    requires size > 0
    ensures NonSpace(Flat(Chunks(Normalize(content), size))) == NonSpace(content)
  {
    StripConserves(content);
    LinesConserve(Strip(content));
    StripRightsConserve(Lines(Strip(content)));
    SplitConserves(Normalize(content), size);
  }
}
