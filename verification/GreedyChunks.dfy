/**
  The chunks of any text, from the outside: the pieces of its paragraphs in groups, each chunk
  glued from its group as long as that fits, and a new chunk only where it no longer does.
*/
module GreedyChunks {
  import opened Splitting

  /** All pieces of a paragraph but the last are full, and together they are the paragraph. */
  lemma {:induction false} PiecesAreFull(paragraph: string, size: nat)
    requires size > 0
    ensures var pieces := Pieces(paragraph, size);
      Flat(pieces) == paragraph && forall k :: 0 <= k < |pieces| ==> |pieces[k]| <= size && (k < |pieces| - 1 ==> |pieces[k]| == size)
  {
    PiecesConserve(paragraph, size);
    PiecesFit(paragraph, size);
    if |paragraph| > size {
      var rest := Pieces(paragraph[size..], size);
      PiecesAreFull(paragraph[size..], size);
      assert forall k :: 1 <= k < |rest| + 1 ==> Pieces(paragraph, size)[k] == rest[k - 1];
    }
  }

  /** A chunk begun as `start`, after more pieces. */
  function Glued(start: string, more: seq<string>): string
    decreases |more|
  {
    if more == [] then start else Glued(Strip(start + "\n\n" + more[0]), more[1..])
  }

  /** It was within the size after each of them. */
  predicate Fits(start: string, more: seq<string>, size: nat)
    decreases |more|
  {
    more == [] || (|Strip(start + "\n\n" + more[0])| <= size && Fits(Strip(start + "\n\n" + more[0]), more[1..], size))
  }

  function Ungrouped(groups: seq<seq<string>>): seq<string> {
    if groups == [] then [] else groups[0] + Ungrouped(groups[1..])
  }

  /** The chunk is glued from its group, which begins it. */
  predicate GluedFrom(chunk: string, group: seq<string>, size: nat) {
    group != [] && chunk == Glued(group[0], group[1..]) && Fits(group[0], group[1..], size)
  }

  /** The next group's first piece does not fit behind the chunk. */
  predicate Full(chunk: string, next: seq<string>, size: nat) {
    next != [] && |Strip(chunk + "\n\n" + next[0])| > size
  }

  /** `current` goes on with the first group; each later chunk has a group of its own. */
  ghost predicate Grouped(chunks: seq<string>, groups: seq<seq<string>>, current: string, size: nat) {
    && |groups| == |chunks|
    && (chunks != [] ==> chunks[0] == Glued(current, groups[0]) && Fits(current, groups[0], size))
    && (forall i :: 1 <= i < |chunks| ==> GluedFrom(chunks[i], groups[i], size))
    && (forall i :: 1 <= i < |chunks| ==> Full(chunks[i - 1], groups[i], size))
  }

  /** The chunk under way is not blank, or begins with the first piece. */
  predicate Ready(pieces: seq<string>, current: string) {
    if current == [] then pieces != [] ==> !AllSpace(pieces[0]) else !AllSpace(current)
  }

  lemma {:induction false} MergeGroups(pieces: seq<string>, current: string, size: nat) returns (groups: seq<seq<string>>)
    requires |current| <= size && Ready(pieces, current) && forall p :: p in pieces ==> |p| <= size
    ensures Grouped(Merge(pieces, current, size), groups, current, size)
    ensures Ungrouped(groups) == pieces
    decreases |pieces|
  {
    var chunks := Merge(pieces, current, size);
    if pieces == [] {
      groups := if current == [] then [] else [[]];
      assert groups != [] ==> groups[1..] == [];
    } else {
      var first, rest := pieces[0], pieces[1..];
      var candidate := Strip(current + "\n\n" + first);
      CandidateFits(current, first, size);
      if current != [] && |candidate| > size {
        assert chunks == [current] + Merge(rest, first, size);
        assert chunks[1..] == Merge(rest, first, size);
        hide Merge, Grouped, Strip;
        var more := MergeGroups(rest, first, size);
        MergeNotEmpty(rest, first, size);
        groups := OpenGroup(chunks, more, current, first, rest, size);
      } else {
        assert chunks == Merge(rest, candidate, size);
        hide Merge, Grouped, Strip;
        NotBlank(current, first, candidate);
        var more := MergeGroups(rest, candidate, size);
        MergeNotEmpty(rest, candidate, size);
        groups := ExtendGroup(chunks, more, current, first, rest, size);
      }
      assert [first] + rest == pieces;
    }
  }

  lemma CandidateFits(current: string, first: string, size: nat)
    requires |current| <= size && |first| <= size
    ensures var candidate := Strip(current + "\n\n" + first);
      && (current == [] ==> |candidate| <= size) && (AllSpace(first) ==> |candidate| <= size)
  {
    CandidateConserves(current, first);
    if AllSpace(first) { BlankPieceFits(current, first); }
  }

  /** A chunk under way that is not blank stays so with another piece. */
  lemma NotBlank(current: string, piece: string, candidate: string)
    requires candidate == Strip(current + "\n\n" + piece) && (!AllSpace(current) || !AllSpace(piece))
    ensures candidate != [] && !AllSpace(candidate)
  {
    CandidateConserves(current, piece);
    NothingLeft(current);
    NothingLeft(piece);
    NothingLeft(candidate);
  }

  lemma {:induction false} MergeNotEmpty(pieces: seq<string>, current: string, size: nat)
    requires current != [] && !AllSpace(current)
    ensures Merge(pieces, current, size) != []
    decreases |pieces|
  {
    if pieces != [] {
      var candidate := Strip(current + "\n\n" + pieces[0]);
      if |candidate| <= size {
        NotBlank(current, pieces[0], candidate);
        MergeNotEmpty(pieces[1..], candidate, size);
      }
    }
  }

  /** The open chunk is closed, and the piece that did not fit begins the next group. */
  lemma OpenGroup(chunks: seq<string>, more: seq<seq<string>>, current: string, first: string, rest: seq<string>, size: nat)
    returns (groups: seq<seq<string>>)
    requires chunks != [] && chunks[0] == current && Grouped(chunks[1..], more, first, size) && chunks[1..] != []
    requires Ungrouped(more) == rest && |Strip(current + "\n\n" + first)| > size
    ensures Grouped(chunks, groups, current, size) && Ungrouped(groups) == [first] + rest
  {
    var started := [first] + more[0];
    groups := [[]] + ([started] + more[1..]);
    assert started[1..] == more[0];
    hide Glued, Fits, Strip, Ungrouped;
    UngroupedStarted(more, first);
    assert GluedFrom(chunks[1], groups[1], size) && Full(chunks[0], groups[1], size);
    assert chunks[0] == Glued(current, []) && Fits(current, [], size) by { GluedNothing(current, size); }
    forall i | 2 <= i < |chunks|
      ensures GluedFrom(chunks[i], groups[i], size) && Full(chunks[i - 1], groups[i], size)
    {
      assert chunks[i] == chunks[1..][i - 1] && chunks[i - 1] == chunks[1..][i - 2] && groups[i] == more[i - 1];
    }
  }

  lemma UngroupedStarted(more: seq<seq<string>>, first: string)
    requires more != []
    ensures Ungrouped([[]] + ([[first] + more[0]] + more[1..])) == [first] + Ungrouped(more)
  {
    var started, tail := [first] + more[0], more[1..];
    UngroupedCons(started, tail);
    UngroupedCons([], [started] + tail);
    UngroupedCons(more[0], tail);
    assert [more[0]] + tail == more;
    var end := Ungrouped(tail);
    hide Ungrouped;
    Associate([first], more[0], end);
  }

  lemma UngroupedCons(group: seq<string>, rest: seq<seq<string>>)
    ensures Ungrouped([group] + rest) == group + Ungrouped(rest)
  {
    assert ([group] + rest)[1..] == rest;
  }

  lemma GluedNothing(start: string, size: nat)
    ensures Glued(start, []) == start && Fits(start, [], size)
  {
  }

  /** The piece joins the group of the open chunk. */
  lemma ExtendGroup(chunks: seq<string>, more: seq<seq<string>>, current: string, first: string, rest: seq<string>, size: nat)
    returns (groups: seq<seq<string>>)
    requires chunks != [] && Grouped(chunks, more, Strip(current + "\n\n" + first), size)
    requires Ungrouped(more) == rest && |Strip(current + "\n\n" + first)| <= size
    ensures Grouped(chunks, groups, current, size) && Ungrouped(groups) == [first] + rest
  {
    var extended := [first] + more[0];
    groups := [extended] + more[1..];
    assert extended[1..] == more[0] && groups[1..] == more[1..];
    assert forall i :: 1 <= i < |groups| ==> groups[i] == more[i];
    hide GluedFrom, Full, Strip;
  }

  /** The first piece of a text is the beginning of its first paragraph. */
  lemma FirstPieceReady(paragraphs: seq<string>, size: nat)
    requires size > 0 && forall p :: p in paragraphs ==> Stripped(p)
    ensures Ready(AllPieces(paragraphs, size), "")
  {
    if paragraphs != [] {
      assert Stripped(paragraphs[0]);
      var pieces := AllPieces(paragraphs, size);
      assert pieces[0][0] == paragraphs[0][0];
    }
  }

  /**
    For every text and size: the pieces of its paragraphs, in groups, make its chunks. Each chunk
    is its group's pieces joined by blank lines and stripped, never longer than the size on the
    way, and the first piece of the next group would have made it longer.
  */
  lemma ChunksAreGreedy(content: string, size: nat) returns (groups: seq<seq<string>>)
    requires size > 0
    ensures Grouped(Chunks(content, size), groups, "", size)
    ensures Ungrouped(groups) == AllPieces(Paragraphs(content), size)
  {
    ParagraphsMean(content);
    AllPiecesMean(Paragraphs(content), size);
    FirstPieceReady(Paragraphs(content), size);
    hide Merge, AllPieces, Paragraphs, Spaced, Grouped;
    groups := MergeGroups(AllPieces(Paragraphs(content), size), "", size);
  }
}
