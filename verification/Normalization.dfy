/**
  What the normalisation before splitting does to any text: it strips the text, ends every line
  with a single newline whatever ended it before, and strips the right end of every line.
*/
module Normalization {
  import opened Splitting

  /** One of the line ends of `str.splitlines`. */
  predicate Terminator(t: string) {
    t == "\r\n" || (|t| == 1 && LineBreak(t[0]))
  }

  predicate LineLike(line: string) {
    forall i :: 0 <= i < |line| ==> !LineBreak(line[i])
  }

  /** Lines with their ends between them. */
  function Text(lines: seq<string>, ends: seq<string>): string
    requires |lines| == |ends| + 1
  {
    if ends == [] then lines[0] else lines[0] + ends[0] + Text(lines[1..], ends[1..])
  }

  /** Lines without line breaks, the last not empty, and ends that do not run together into other ends. */
  predicate Layout(lines: seq<string>, ends: seq<string>) {
    && |lines| == |ends| + 1 && lines[|ends|] != ""
    && (forall i :: 0 <= i < |lines| ==> LineLike(lines[i]))
    && (forall i :: 0 <= i < |ends| ==> Terminator(ends[i]))
    && (forall i :: 0 <= i < |ends| - 1 && lines[i + 1] == "" && ends[i] == "\r" ==> ends[i + 1] != "\n")
  }

  lemma {:induction false} LineEndIs(line: string, rest: string)
    requires LineLike(line) && (rest == "" || LineBreak(rest[0]))
    ensures LineEnd(line + rest) == |line|
  {
    if line == "" {
      assert line + rest == rest;
    } else {
      assert (line + rest)[1..] == line[1..] + rest;
      LineEndIs(line[1..], rest);
    }
  }

  lemma LayoutRest(lines: seq<string>, ends: seq<string>)
    requires Layout(lines, ends) && ends != []
    ensures Layout(lines[1..], ends[1..])
    ensures ends[0] == "\r" ==> Text(lines[1..], ends[1..]) != "" && Text(lines[1..], ends[1..])[0] != '\n'
  {
    var more, after := lines[1..], ends[1..];
    assert more[|after|] == lines[|ends|];
    assert forall i :: 0 <= i < |more| ==> more[i] == lines[i + 1];
    assert forall i :: 0 <= i < |after| ==> after[i] == ends[i + 1];
    if ends[0] == "\r" && more[0] != "" {
      assert LineLike(lines[1]) && !LineBreak(more[0][0]);
      assert Text(more, after)[0] == more[0][0];
    }
  }

  lemma Slices(a: string, b: string, c: string)
    ensures (a + b + c)[..|a|] == a && (a + b + c)[|a| + |b|..] == c
    ensures forall k :: 0 <= k < |b| ==> (a + b + c)[|a| + k] == b[k]
    ensures a + b + c == a + (b + c)
  {
  }

  /** One step of `Lines`. */
  lemma LinesStep(s: string, n: nat)
    requires n == LineEnd(s) < |s|
    ensures s[n] == '\r' && n + 1 < |s| && s[n + 1] == '\n' ==> Lines(s) == [s[..n]] + Lines(s[n + 2..])
    ensures !(s[n] == '\r' && n + 1 < |s| && s[n + 1] == '\n') ==> Lines(s) == [s[..n]] + Lines(s[n + 1..])
  {
    hide LineEnd, LineBreak;
  }

  lemma FirstLine(line: string, end: string, rest: string)
    requires LineLike(line) && Terminator(end) && (end == "\r" ==> rest != "" && rest[0] != '\n')
    ensures Lines(line + end + rest) == [line] + Lines(rest)
  {
    var s, n := line + end + rest, |line|;
    hide Lines, LineEnd, LineLike;
    Slices(line, end, rest);
    assert (end + rest)[0] == end[0];
    LineEndIs(line, end + rest);
    LinesStep(s, n);
    assert s[n] == end[0];
    if end == "\r\n" {
      assert s[n + 1] == end[1];
    } else if end == "\r" {
      assert s[n + 1] == s[n + 1..][0];
    } else {
      assert end[0] != '\r';
    }
  }

  lemma LastLine(line: string)
    requires LineLike(line) && line != ""
    ensures Lines(line) == [line]
  {
    LineEndIs(line, "");
    assert line + "" == line;
    hide LineEnd, LineLike;
  }

  lemma TextStep(lines: seq<string>, ends: seq<string>)
    requires |lines| == |ends| + 1
    ensures ends == [] ==> Text(lines, ends) == lines[0] && lines == [lines[0]]
    ensures ends != [] ==> Text(lines, ends) == lines[0] + ends[0] + Text(lines[1..], ends[1..])
  {
  }

  lemma LayoutFirst(lines: seq<string>, ends: seq<string>)
    requires Layout(lines, ends)
    ensures |lines| == |ends| + 1 && LineLike(lines[0])
    ensures ends == [] ==> lines[0] != ""
    ensures ends != [] ==> Terminator(ends[0])
  {
  }

  /** `splitlines` undoes the layout. */
  lemma {:induction false} LinesOfText(lines: seq<string>, ends: seq<string>)
    requires Layout(lines, ends)
    ensures Lines(Text(lines, ends)) == lines
    decreases |ends|
  {
    LayoutFirst(lines, ends);
    hide Lines, Layout, LineLike, Terminator, Text;
    TextStep(lines, ends);
    if ends == [] {
      LastLine(lines[0]);
    } else {
      LayoutRest(lines, ends);
      LinesOfText(lines[1..], ends[1..]);
      FirstLine(lines[0], ends[0], Text(lines[1..], ends[1..]));
      assert [lines[0]] + lines[1..] == lines;
    }
  }

  lemma BreakIsSpace(c: char)
    ensures LineBreak(c) ==> IsSpace(c)
  {
  }

  /** Every text that does not end in white space has such a layout. */
  lemma {:induction false} LayoutOf(s: string) returns (lines: seq<string>, ends: seq<string>)
    requires s != "" && !IsSpace(s[|s| - 1])
    ensures Layout(lines, ends) && Text(lines, ends) == s
    decreases |s|
  {
    var n := LineEnd(s);
    BeforeLineEnd(s);
    BreakIsSpace(s[|s| - 1]);
    if n == |s| {
      lines, ends := [s], [];
      assert s[..n] == s;
    } else {
      var m := if s[n] == '\r' && s[n + 1] == '\n' then n + 2 else n + 1;
      var more, after := LayoutOf(s[m..]);
      lines, ends := [s[..n]] + more, [s[n..m]] + after;
      InThree(s, n, m);
      assert lines[1..] == more && ends[1..] == after;
      assert Terminator(ends[0]);
      hide LineEnd, Terminator, LineLike;
      if ends[0] == "\r" && after != [] && more[0] == "" {
        assert Text(more, after)[0] == after[0][0];
        assert s[m] == s[m..][0];
      }
    }
  }

  lemma InThree(s: string, n: nat, m: nat)
    requires n <= m <= |s|
    ensures s == s[..n] + s[n..m] + s[m..]
  {
  }

  lemma {:induction false} BeforeLineEnd(s: string)
    ensures LineLike(s[..LineEnd(s)])
  {
    if s != "" && !LineBreak(s[0]) {
      BeforeLineEnd(s[1..]);
      var k := LineEnd(s[1..]);
      assert s[..k + 1] == [s[0]] + s[1..][..k];
    }
  }

  /** The line without the white space at its right end. */
  predicate IsTrimmed(line: string, trimmed: string) {
    && trimmed <= line && AllSpace(line[|trimmed|..])
    && (trimmed == "" || !IsSpace(trimmed[|trimmed| - 1]))
  }

  predicate Trimmed(lines: seq<string>, trimmed: seq<string>) {
    |trimmed| == |lines| && forall i :: 0 <= i < |lines| ==> IsTrimmed(lines[i], trimmed[i])
  }

  lemma StripRightTrims(line: string)
    ensures IsTrimmed(line, StripRight(line))
  {
    StripRightMeans(line);
  }

  lemma {:induction false} StripRightsTrim(lines: seq<string>)
    ensures Trimmed(lines, StripRights(lines))
  {
    if lines != [] {
      hide IsTrimmed, StripRight;
      StripRightTrims(lines[0]);
      StripRightsTrim(lines[1..]);
    }
  }

  /** The normalised text of a content whose stripped form has these lines. */
  ghost predicate NormalOf(lines: seq<string>, normal: string) {
    exists trimmed :: Trimmed(lines, trimmed) && normal == Join(trimmed, "\n")
  }

  /** The normalisation, for any layout of the stripped content: the trimmed lines, joined by newlines. */
  lemma NormalizeMeans(content: string, lines: seq<string>, ends: seq<string>)
    requires Layout(lines, ends) && Strip(content) == Text(lines, ends)
    ensures NormalOf(lines, Normalize(content))
  {
    LinesOfText(lines, ends);
    StripRightsTrim(lines);
    hide Trimmed, Layout, Lines, Strip, Text, Join, StripRights;
  }

  /** Every content normalises to the trimmed lines of a layout of it, or is blank and normalises to nothing. */
  lemma NormalizeExactly(content: string) returns (lines: seq<string>, ends: seq<string>)
    ensures AllSpace(content) ==> Normalize(content) == ""
    ensures !AllSpace(content) ==> Layout(lines, ends) && Strip(content) == Text(lines, ends) && NormalOf(lines, Normalize(content))
  {
    lines, ends := [], [];
    var lo, hi := StripMeans(content);
    StripConserves(content);
    NothingLeft(content);
    NothingLeft(Strip(content));
    if AllSpace(content) {
      assert Lines("") == [] && StripRights([]) == [];
    } else {
      lines, ends := LayoutOf(Strip(content));
      hide Layout, Strip, Text, Normalize;
      NormalizeMeans(content, lines, ends);
    }
  }
}
