/**
  The knowledge index of `LocalKnowledgeRetriever`: which chunks `ingest` leaves behind, over
  any number of ingests. The digest is a parameter; where it matters it is taken to be injective.
*/
module Knowledge {
  import opened Wrappers
  import opened Text
  import opened Splitting
  import opened PlainParagraphs

  datatype Metadata = Metadata(sourceType: string, sourceUri: string, version: string, title: string, contentHash: string)
  datatype Document = Document(id: string, content: string, metadata: Metadata)
  datatype Chunk = Chunk(documentId: string, chunkId: string, ordinal: nat, content: string, metadata: Metadata)
  datatype Index = Index(documents: map<string, Document>, chunks: map<string, Chunk>)

  type Digest = string -> string

  ghost predicate Injective(h: Digest) {
    forall a, b :: h(a) == h(b) ==> a == b
  }

  function Identity(h: Digest, d: Document): string {
    d.metadata.sourceType + "|" + d.metadata.sourceUri + "|" + d.metadata.version + "|" + h(Normalize(d.content))
  }

  function DocumentId(h: Digest, d: Document): string {
    if d.id != "" then d.id else "kdoc-" + h(Identity(h, d))
  }

  function Stored(h: Digest, d: Document): Document {
    Document(DocumentId(h, d), Normalize(d.content), d.metadata.(contentHash := h(Normalize(d.content))))
  }

  function Preimage(document: string, ordinal: nat, content: string): string {
    document + "|" + Decimal(ordinal) + "|" + content
  }

  function ChunkId(h: Digest, document: string, ordinal: nat, content: string): string {
    "kchunk-" + h(Preimage(document, ordinal, content))
  }

  /** The chunks of a stored document, numbered. */
  function Numbered(h: Digest, d: Document, size: nat): seq<Chunk>
    requires size > 0
  {
    var parts := Chunks(d.content, size);
    seq(|parts|, i requires 0 <= i < |parts| => Chunk(d.id, ChunkId(h, d.id, i, parts[i]), i, parts[i], d.metadata))
  }

  function Without(chunks: map<string, Chunk>, id: string): map<string, Chunk> {
    map key | key in chunks && chunks[key].documentId != id :: chunks[key]
  }

  function AddAll(chunks: map<string, Chunk>, more: seq<Chunk>): map<string, Chunk> {
    if more == [] then chunks else AddAll(chunks, more[..|more| - 1])[more[|more| - 1].chunkId := more[|more| - 1]]
  }

  function Ingested(h: Digest, size: nat, ix: Index, d: Document): Index
    requires size > 0
  {
    var s := Stored(h, d);
    Index(ix.documents[s.id := s], AddAll(Without(ix.chunks, s.id), Numbered(h, s, size)))
  }

  // ---------------------------------------------------------------- what an ingest leaves

  /** The given id, or a digest of source type, source uri, version and the digest of the normalised text. */
  predicate NamedFor(h: Digest, d: Document, id: string) {
    && (d.id != "" ==> id == d.id)
    && (d.id == "" ==>
          id == "kdoc-" + h(d.metadata.sourceType + "|" + d.metadata.sourceUri + "|" + d.metadata.version + "|" + h(Normalize(d.content))))
  }

  /** The document's latest text, normalised, under its id; no other document is touched. */
  predicate StoredAs(h: Digest, d: Document, id: string, now: map<string, Document>, was: map<string, Document>) {
    now == was[id := Document(id, Normalize(d.content), d.metadata.(contentHash := h(Normalize(d.content))))]
  }

  /** The chunks of the normalised text in order, each under the digest of document, ordinal and text. */
  predicate Cut(h: Digest, d: Document, id: string, size: nat, added: seq<Chunk>)
    requires size > 0
  {
    && |added| == |Chunks(Normalize(d.content), size)|
    && forall i :: 0 <= i < |added| ==>
         && added[i].documentId == id && added[i].ordinal == i && added[i].content == Chunks(Normalize(d.content), size)[i]
         && added[i].chunkId == "kchunk-" + h(id + "|" + Decimal(i) + "|" + added[i].content)
         && added[i].metadata == d.metadata.(contentHash := h(Normalize(d.content)))
  }

  predicate AddedUnder(added: seq<Chunk>, key: string) {
    exists i :: 0 <= i < |added| && added[i].chunkId == key
  }

  /** Under a key added last comes the added chunk; under any other key, the earlier chunk unless it was of this document. */
  ghost predicate Replaced(was: map<string, Chunk>, now: map<string, Chunk>, id: string, added: seq<Chunk>) {
    && (forall key :: key in now <==> AddedUnder(added, key) || (key in was && was[key].documentId != id))
    && (forall key :: key in now && !AddedUnder(added, key) ==> now[key] == was[key])
    && (forall i :: 0 <= i < |added| && !AddedUnder(added[i + 1..], added[i].chunkId) ==> now[added[i].chunkId] == added[i])
  }

  lemma {:induction false} AddedReplace(was: map<string, Chunk>, id: string, added: seq<Chunk>)
    ensures Replaced(was, AddAll(Without(was, id), added), id, added)
  {
    if added != [] {
      var n := |added| - 1;
      var front, last := added[..n], added[n];
      AddedReplace(was, id, front);
      UnderMore(front, last);
      assert front + [last] == added;
      var now := AddAll(Without(was, id), added);
      forall i | 0 <= i < |added| && !AddedUnder(added[i + 1..], added[i].chunkId)
        ensures now[added[i].chunkId] == added[i]
      {
        if i < n {
          assert added[i + 1..] == front[i + 1..] + [last];
          UnderMore(front[i + 1..], last);
        }
      }
    }
  }

  lemma UnderMore(front: seq<Chunk>, last: Chunk)
    ensures forall key :: AddedUnder(front + [last], key) <==> AddedUnder(front, key) || key == last.chunkId
  {
    forall key
      ensures AddedUnder(front + [last], key) <==> AddedUnder(front, key) || key == last.chunkId
    {
      assert (front + [last])[|front|] == last;
      if AddedUnder(front, key) {
        var i :| 0 <= i < |front| && front[i].chunkId == key;
        assert (front + [last])[i] == front[i];
      }
    }
  }

  /** Everything one ingest does: naming, storing, cutting and replacing. */
  ghost predicate Leaves(h: Digest, d: Document, size: nat, wasDocuments: map<string, Document>, wasChunks: map<string, Chunk>,
                         documents: map<string, Document>, chunks: map<string, Chunk>, added: seq<Chunk>)
    requires size > 0
  {
    exists id :: NamedFor(h, d, id) && StoredAs(h, d, id, documents, wasDocuments) && Cut(h, d, id, size, added) && Replaced(wasChunks, chunks, id, added)
  }

  lemma CutsInOrder(h: Digest, d: Document, size: nat)
    requires size > 0
    ensures NamedFor(h, d, DocumentId(h, d))
    ensures Cut(h, d, DocumentId(h, d), size, Numbered(h, Stored(h, d), size))
  {
    hide Chunks, Normalize;
  }

  lemma LeavesUnder(h: Digest, d: Document, size: nat, id: string, wasDocuments: map<string, Document>, wasChunks: map<string, Chunk>,
                  documents: map<string, Document>, chunks: map<string, Chunk>, added: seq<Chunk>)
    requires size > 0
    requires NamedFor(h, d, id) && StoredAs(h, d, id, documents, wasDocuments) && Cut(h, d, id, size, added) && Replaced(wasChunks, chunks, id, added)
    ensures Leaves(h, d, size, wasDocuments, wasChunks, documents, chunks, added)
  {
    hide NamedFor, StoredAs, Cut, Replaced;
  }

  // ---------------------------------------------------------------- the retriever

  class LocalKnowledgeRetriever {
    const chunkSize: nat
    const digest: Digest
    var documents: map<string, Document>
    var chunks: map<string, Chunk>

    constructor (size: nat, h: Digest)
      requires 100 <= size <= 4000
      ensures chunkSize == size && digest == h && documents == map[] && chunks == map[]
    {
      chunkSize := size;
      digest := h;
      documents := map[];
      chunks := map[];
    }

    /** `ingest` */
    method Ingest(document: Document) returns (added: seq<Chunk>)
      requires chunkSize > 0
      modifies `documents, `chunks
      ensures Index(documents, chunks) == Ingested(digest, chunkSize, old(Index(documents, chunks)), document)
      ensures added == Numbered(digest, Stored(digest, document), chunkSize)
      ensures Leaves(digest, document, chunkSize, old(documents), old(chunks), documents, chunks, added)
    {
      hide Chunks, Normalize, Leaves, Replaced, Cut, NamedFor;
      var normalized := Normalize(document.content);
      var contentHash := digest(normalized);
      var documentId := DocumentId(digest, document);
      var stored := Document(documentId, normalized, document.metadata.(contentHash := contentHash));
      ghost var goal := Numbered(digest, stored, chunkSize);

      var oldIds := set key | key in chunks && chunks[key].documentId == documentId;
      chunks := chunks - oldIds;
      assert chunks == Without(old(chunks), documentId);
      ghost var kept := chunks;
      added := [];
      var contents := Split(normalized, chunkSize);
      for ordinal := 0 to |contents|
        invariant added == goal[..ordinal]
        invariant chunks == AddAll(kept, goal[..ordinal])
        invariant documents == old(documents)
      {
        var chunk := Chunk(documentId, ChunkId(digest, documentId, ordinal, contents[ordinal]), ordinal,
                           contents[ordinal], stored.metadata);
        assert goal[..ordinal + 1] == goal[..ordinal] + [chunk];
        assert goal[..ordinal + 1][..ordinal] == goal[..ordinal];
        chunks := chunks[chunk.chunkId := chunk];
        added := added + [chunk];
      }
      assert goal[..|contents|] == goal;
      documents := documents[documentId := stored];
      AddedReplace(old(chunks), documentId, goal);
      CutsInOrder(digest, document, chunkSize);
      LeavesUnder(digest, document, chunkSize, documentId, old(documents), old(chunks), documents, chunks, added);
    }
  }

  /** The constructor refuses sizes outside 100..4000. */
  method Open(size: int, h: Digest) returns (r: Option<LocalKnowledgeRetriever>)
    ensures r.Some? <==> 100 <= size <= 4000
    ensures r.Some? ==> r.value.chunkSize == size && r.value.documents == map[] && r.value.chunks == map[]
  {
    if size < 100 || size > 4000 {
      return None;
    }
    var retriever := new LocalKnowledgeRetriever(size, h);
    return Some(retriever);
  }

  // ---------------------------------------------------------------- chunk identities

  lemma {:induction false} FirstSeparator(a: string, b: string, c: string, d: string)
    requires a + "|" + b == c + "|" + d && '|' !in a && '|' !in c
    ensures a == c && b == d
  {
    var s := a + "|" + b;
    assert s[|a|] == '|' && s[|c|] == '|' by { assert (c + "|" + d)[|c|] == '|'; }
    assert forall k :: 0 <= k < |a| ==> s[k] == a[k];
    assert forall k :: 0 <= k < |c| ==> s[k] == c[k];
    assert a == s[..|a|] && c == s[..|c|];
    assert b == s[|a| + 1..] && d == s[|c| + 1..];
  }

  lemma DecimalInjective(m: nat, n: nat)
    requires Decimal(m) == Decimal(n)
    ensures m == n
  {
    ParsePrinted(m);
    ParsePrinted(n);
  }

  /** Within one document, ordinal and content are recovered from the hashed text. */
  lemma PreimageInjective(d: string, i: nat, a: string, j: nat, b: string)
    requires Preimage(d, i, a) == Preimage(d, j, b)
    ensures i == j && a == b
  {
    var tail := |d| + 1;
    assert Preimage(d, i, a)[tail..] == Decimal(i) + "|" + a;
    assert Preimage(d, j, b)[tail..] == Decimal(j) + "|" + b;
    PrintedDigits(i, '|');
    PrintedDigits(j, '|');
    FirstSeparator(Decimal(i), a, Decimal(j), b);
    DecimalInjective(i, j);
  }

  /** `d` followed by an ordinal can be read off the front of `e`. */
  predicate ShadowsAt(d: string, ordinal: nat, e: string) {
    d + "|" + Decimal(ordinal) + "|" <= e + "|"
  }

  function Front(d: string, ordinal: nat): string {
    d + "|" + Decimal(ordinal) + "|"
  }

  /** What remains of `e` and the bar after it, behind `d` and the ordinal. */
  function Remainder(d: string, ordinal: nat, e: string): string
    requires ShadowsAt(d, ordinal, e)
  {
    (e + "|")[|Front(d, ordinal)|..]
  }

  /**
    `d` followed by the ordinal can be read off the front of `e`, what remains of `e` leaves room
    in a chunk of `size` for an ordinal, a bar and a character, and a first chunk can begin with it.
  */
  predicate ShadowsWithin(d: string, ordinal: nat, e: string, size: nat) {
    && ShadowsAt(d, ordinal, e)
    && var rest := Remainder(d, ordinal, e);
    && |rest| + 3 <= size && (ordinal == 0 && rest != [] ==> !IsSpace(rest[0]))
  }

  ghost predicate Shadows(d: string, e: string, size: nat) {
    exists ordinal :: ShadowsWithin(d, ordinal, e, size)
  }

  /** The content is that of chunk `ordinal` of some document. */
  ghost predicate IsChunk(content: string, size: nat, ordinal: nat)
    requires size > 0
  {
    exists text :: ChunkOf(text, size, ordinal, content)
  }

  predicate ChunkOf(text: string, size: nat, ordinal: nat, content: string)
    requires size > 0
  {
    ordinal < |Chunks(Normalize(text), size)| && Chunks(Normalize(text), size)[ordinal] == content
  }

  ghost predicate Collide(d: string, i: nat, a: string, e: string, j: nat, b: string) {
    Preimage(d, i, a) == Preimage(e, j, b)
  }

  ghost predicate ChunksCollide(d: string, i: nat, a: string, e: string, j: nat, b: string, size: nat)
    requires size > 0
  {
    IsChunk(a, size, i) && IsChunk(b, size, j) && Collide(d, i, a, e, j, b)
  }

  /** Some chunk of a document `d` and some chunk of a document `e` have one identity. */
  ghost predicate CanCollide(d: string, e: string, size: nat)
    requires size > 0
  {
    exists i, a, j, b :: ChunksCollide(d, i, a, e, j, b, size)
  }

  /** What every chunk is like: not empty, not too long, and the first does not begin with white space. */
  predicate ChunkLike(content: string, size: nat, ordinal: nat) {
    1 <= |content| <= size && (ordinal == 0 ==> !IsSpace(content[0]))
  }

  lemma ChunksAreChunkLike(content: string, size: nat, k: nat)
    requires size > 0 && k < |Chunks(content, size)|
    ensures ChunkLike(Chunks(content, size)[k], size, k)
  {
    SplitConserves(content, size);
    NoBlankChunks(content, size);
    FirstChunkStartsClean(content, size);
    hide Chunks;
    var c := Chunks(content, size)[k];
    assert c in Chunks(content, size);
    assert !AllSpace(c);
  }

  lemma IsChunkLike(content: string, size: nat, ordinal: nat)
    requires size > 0 && IsChunk(content, size, ordinal)
    ensures ChunkLike(content, size, ordinal)
  {
    var text :| ChunkOf(text, size, ordinal, content);
    hide Chunks, Normalize, ChunkLike;
    ChunksAreChunkLike(Normalize(text), size, ordinal);
  }

  /** The ordinal of the shorter identifier's chunk ends within the longer identifier and its bar. */
  lemma FrontEnds(d: string, i: nat, a: string, e: string, tail: string)
    requires Preimage(d, i, a) == e + "|" + tail && |d| < |e|
    ensures |Front(d, i)| <= |e| + 1
  {
    var s := e + "|" + tail;
    var n := |d| + 1 + |Decimal(i)|;
    assert s[|e|] == '|';
    PrintedDigits(i, '|');
    assert s == d + "|" + Decimal(i) + "|" + a;
    assert forall k :: |d| + 1 <= k < n ==> s[k] == Decimal(i)[k - |d| - 1];
  }

  lemma PrefixOfBoth(x: string, a: string, y: string, tail: string)
    requires x + a == y + tail && |x| <= |y|
    ensures x <= y
  {
    assert x == (x + a)[..|x|] && y == (y + tail)[..|y|];
    assert (y + tail)[..|y|][..|x|] == (y + tail)[..|x|];
  }

  /** The longer identifier is shadowed, and the other's chunk begins with the remainder. */
  lemma ShorterShadows(d: string, i: nat, a: string, e: string, j: nat, b: string)
    requires Collide(d, i, a, e, j, b) && |d| < |e|
    ensures ShadowsAt(d, i, e) && a == Remainder(d, i, e) + (Decimal(j) + "|" + b)
  {
    var tail := Decimal(j) + "|" + b;
    assert Preimage(e, j, b) == e + "|" + tail;
    FrontEnds(d, i, a, e, tail);
    assert Preimage(d, i, a) == Front(d, i) + a;
    PrefixOfBoth(Front(d, i), a, e + "|", tail);
    BehindFront(d, i, a, e, tail);
  }

  lemma BehindFront(d: string, i: nat, a: string, e: string, tail: string)
    requires ShadowsAt(d, i, e) && Preimage(d, i, a) == e + "|" + tail
    ensures a == Remainder(d, i, e) + tail
  {
    var front := Front(d, i);
    assert Preimage(d, i, a) == front + a;
    assert e + "|" == front + Remainder(d, i, e);
    assert (front + a)[|front|..] == a;
    assert (front + Remainder(d, i, e) + tail)[|front|..] == Remainder(d, i, e) + tail;
  }

  lemma DecimalNotEmpty(n: nat)
    ensures |Decimal(n)| >= 1
  {
  }

  lemma CollisionShadows(d: string, i: nat, a: string, e: string, j: nat, b: string, size: nat)
    requires ChunkLike(a, size, i) && ChunkLike(b, size, j) && Collide(d, i, a, e, j, b)
    ensures d == e || Shadows(d, e, size) || Shadows(e, d, size)
  {
    DecimalNotEmpty(i);
    DecimalNotEmpty(j);
    if |d| < |e| {
      ShorterShadows(d, i, a, e, j, b);
      assert ShadowsWithin(d, i, e, size);
    } else if |e| < |d| {
      ShorterShadows(e, j, b, d, i, a);
      assert ShadowsWithin(e, j, d, size);
    } else {
      assert Preimage(d, i, a)[..|d|] == d && Preimage(e, j, b)[..|e|] == e;
    }
  }

  /** Only documents with one identifier, or one shadowing the other, can share a chunk identity, whatever their identifiers. */
  lemma CollideOnly(d: string, e: string, size: nat)
    requires size > 0 && CanCollide(d, e, size)
    ensures d == e || Shadows(d, e, size) || Shadows(e, d, size)
  {
    hide Shadows, IsChunk, Collide, ChunkLike;
    var i, a, j, b :| ChunksCollide(d, i, a, e, j, b, size);
    IsChunkLike(a, size, i);
    IsChunkLike(b, size, j);
    CollisionShadows(d, i, a, e, j, b, size);
  }

  // ---------------------------------------------------------------- documents that do share an identity

  predicate OneLine(id: string) {
    forall k :: 0 <= k < |id| ==> !LineBreak(id[k])
  }

  /** The chunk of `d` that is confused with the one-letter chunk of `e`. */
  function Confused(d: string, i: nat, e: string): string
    requires ShadowsAt(d, i, e)
  {
    Remainder(d, i, e) + "0|x"
  }

  lemma ConfusedCloses(d: string, i: nat, e: string, size: nat)
    requires ShadowsWithin(d, i, e, size) && OneLine(e)
    ensures Closing(Confused(d, i, e), size) && (i == 0 ==> !IsSpace(Confused(d, i, e)[0]))
  {
    var front, rest := Front(d, i), Remainder(d, i, e);
    assert e + "|" == front + rest;
    assert forall k :: 0 <= k < |rest| ==> rest[k] == (e + "|")[|front| + k];
  }

  lemma ConfusedCollides(d: string, i: nat, e: string)
    requires ShadowsAt(d, i, e)
    ensures Collide(d, i, Confused(d, i, e), e, 0, "x")
  {
    var front, rest := Front(d, i), Remainder(d, i, e);
    assert e + "|" == front + rest;
    assert Decimal(0) == "0";
    assert Preimage(e, 0, "x") == e + "|" + "0" + "|" + "x" == front + rest + "0|x";
    assert Preimage(d, i, rest + "0|x") == front + (rest + "0|x");
  }

  /** A long line has the content as chunk `ordinal`. */
  lemma TextHasChunk(content: string, size: nat, ordinal: nat)
    requires size > 0 && Closing(content, size) && (ordinal == 0 ==> !IsSpace(content[0]))
    ensures ChunkOf(LongLine(size, ordinal, content), size, ordinal, content)
  {
    hide Chunks, Normalize, LongLine, LongPieces;
    ChunksOfLongLine(size, ordinal, content);
  }

  lemma OneLetterIsChunk(size: nat)
    requires size > 0
    ensures ChunkOf("x", size, 0, "x")
  {
    PlainText("x", size);
    hide Chunks, Normalize;
  }

  lemma ShadowCollides(d: string, e: string, size: nat)
    requires size > 0 && Shadows(d, e, size) && OneLine(e)
    ensures exists i, a :: ChunksCollide(d, i, a, e, 0, "x", size)
  {
    var i :| ShadowsWithin(d, i, e, size);
    var a := Confused(d, i, e);
    ConfusedCloses(d, i, e, size);
    ConfusedCollides(d, i, e);
    TextHasChunk(a, size, i);
    OneLetterIsChunk(size);
    hide ChunkOf, Confused, ShadowsWithin, Collide;
    assert ChunksCollide(d, i, a, e, 0, "x", size);
  }

  /** Chunks of two documents can have one identity exactly when one's identifier shadows the other's. */
  lemma CollideExactly(d: string, e: string, size: nat)
    requires size > 0 && OneLine(d) && OneLine(e)
    ensures CanCollide(d, e, size) <==> d == e || Shadows(d, e, size) || Shadows(e, d, size)
  {
    hide Shadows, IsChunk, OneLine, ChunkOf, Preimage;
    if CanCollide(d, e, size) {
      CollideOnly(d, e, size);
    }
    if d == e {
      OneLetterIsChunk(size);
      ChunkIsChunk("x", size, 0, "x");
      assert ChunksCollide(d, 0, "x", e, 0, "x", size);
    } else if Shadows(d, e, size) {
      ShadowCollides(d, e, size);
    } else if Shadows(e, d, size) {
      ShadowCollides(e, d, size);
      var i, a :| ChunksCollide(e, i, a, d, 0, "x", size);
      assert ChunksCollide(d, 0, "x", e, i, a, size);
    }
  }

  lemma ChunkIsChunk(text: string, size: nat, ordinal: nat, content: string)
    requires size > 0 && ChunkOf(text, size, ordinal, content)
    ensures IsChunk(content, size, ordinal)
  {
    hide ChunkOf;
  }

  lemma ShadowHasBar(d: string, i: nat, e: string)
    requires ShadowsAt(d, i, e)
    ensures '|' in e
  {
    var front := d + "|" + Decimal(i) + "|";
    assert front[|d|] == '|' && |front| > |d| + 1;
    assert (e + "|")[|d|] == front[|d|];
    assert e[|d|] == '|';
  }

  /** Identifiers without a bar are never shadowed. */
  lemma BarFreeIsApart(d: string, e: string, size: nat)
    requires '|' !in e
    ensures !Shadows(d, e, size)
  {
    forall i ensures !ShadowsAt(d, i, e) {
      if ShadowsAt(d, i, e) { ShadowHasBar(d, i, e); }
    }
  }

  // ---------------------------------------------------------------- the index agrees with its documents

  predicate Indexed(h: Digest, size: nat, ix: Index, id: string)
    requires size > 0 && id in ix.documents
  {
    var chunks := Numbered(h, ix.documents[id], size);
    && ix.documents[id].id == id
    && forall i :: 0 <= i < |chunks| ==> chunks[i].chunkId in ix.chunks && ix.chunks[chunks[i].chunkId] == chunks[i]
  }

  predicate Backed(h: Digest, size: nat, ix: Index, key: string)
    requires size > 0 && key in ix.chunks
  {
    var c := ix.chunks[key];
    && c.chunkId == key && c.documentId in ix.documents
    && c.ordinal < |Numbered(h, ix.documents[c.documentId], size)|
    && c == Numbered(h, ix.documents[c.documentId], size)[c.ordinal]
  }

  /** The chunks are exactly the numbered splits of the stored documents. */
  predicate Agrees(h: Digest, size: nat, ix: Index)
    requires size > 0
  {
    && (forall id :: id in ix.documents ==> Indexed(h, size, ix, id))
    && (forall key :: key in ix.chunks ==> Backed(h, size, ix, key))
  }

  ghost predicate Apart(ids: set<string>, size: nat) {
    forall d, e :: d in ids && e in ids && d != e ==> !Shadows(d, e, size)
  }

  predicate DistinctIds(more: seq<Chunk>) {
    forall i, j :: 0 <= i < j < |more| ==> more[i].chunkId != more[j].chunkId
  }

  /** The new chunks are there. */
  predicate Arrived(all: map<string, Chunk>, more: seq<Chunk>) {
    forall i :: 0 <= i < |more| ==> more[i].chunkId in all && all[more[i].chunkId] == more[i]
  }

  predicate Names(more: seq<Chunk>, key: string) {
    exists i :: 0 <= i < |more| && more[i].chunkId == key
  }

  /** Chunks with other identities stay. */
  predicate Kept(chunks: map<string, Chunk>, all: map<string, Chunk>, more: seq<Chunk>) {
    forall key :: key in chunks && !Names(more, key) ==> key in all && all[key] == chunks[key]
  }

  /** Nothing else appears. */
  predicate NothingElse(chunks: map<string, Chunk>, all: map<string, Chunk>, more: seq<Chunk>) {
    forall key :: key in all ==> (key in chunks && all[key] == chunks[key]) || (all[key] in more && all[key].chunkId == key)
  }

  lemma {:induction false} AllArrive(chunks: map<string, Chunk>, more: seq<Chunk>)
    requires DistinctIds(more)
    ensures Arrived(AddAll(chunks, more), more)
    decreases |more|
  {
    if more != [] { AllArrive(chunks, more[..|more| - 1]); }
  }

  lemma {:induction false} OthersAreKept(chunks: map<string, Chunk>, more: seq<Chunk>, key: string)
    requires key in chunks && !Names(more, key)
    ensures key in AddAll(chunks, more) && AddAll(chunks, more)[key] == chunks[key]
    decreases |more|
  {
    if more != [] {
      assert forall i :: 0 <= i < |more| - 1 ==> more[..|more| - 1][i] == more[i];
      OthersAreKept(chunks, more[..|more| - 1], key);
    }
  }

  lemma {:induction false} OnlyTheseAppear(chunks: map<string, Chunk>, more: seq<Chunk>, key: string)
    requires key in AddAll(chunks, more)
    ensures var all := AddAll(chunks, more);
      (key in chunks && all[key] == chunks[key]) || (all[key] in more && all[key].chunkId == key)
    decreases |more|
  {
    if more != [] && key != more[|more| - 1].chunkId { OnlyTheseAppear(chunks, more[..|more| - 1], key); }
  }

  lemma AddAllMeans(chunks: map<string, Chunk>, more: seq<Chunk>)
    requires DistinctIds(more)
    ensures var all := AddAll(chunks, more); Arrived(all, more) && Kept(chunks, all, more) && NothingElse(chunks, all, more)
  {
    var all := AddAll(chunks, more);
    AllArrive(chunks, more);
    hide AddAll, Arrived, Names;
    forall key | key in chunks && !Names(more, key) ensures key in all && all[key] == chunks[key] {
      OthersAreKept(chunks, more, key);
    }
    forall key | key in all ensures (key in chunks && all[key] == chunks[key]) || (all[key] in more && all[key].chunkId == key) {
      OnlyTheseAppear(chunks, more, key);
    }
  }

  lemma NumberedDistinct(h: Digest, d: Document, size: nat)
    requires size > 0 && Injective(h)
    ensures DistinctIds(Numbered(h, d, size))
  {
    hide Chunks;
    var chunks := Numbered(h, d, size);
    forall i, j | 0 <= i < j < |chunks| ensures chunks[i].chunkId != chunks[j].chunkId {
      if chunks[i].chunkId == chunks[j].chunkId {
        SamePreimage(h, d.id, i, chunks[i].content, d.id, j, chunks[j].content);
        PreimageInjective(d.id, i, chunks[i].content, j, chunks[j].content);
      }
    }
  }

  lemma SamePreimage(h: Digest, d: string, i: nat, a: string, e: string, j: nat, b: string)
    requires Injective(h) && ChunkId(h, d, i, a) == ChunkId(h, e, j, b)
    ensures Collide(d, i, a, e, j, b)
  {
    assert ChunkId(h, d, i, a)[7..] == h(Preimage(d, i, a));
    assert ChunkId(h, e, j, b)[7..] == h(Preimage(e, j, b));
  }

  lemma NumberedChunkLike(h: Digest, d: Document, size: nat, k: nat)
    requires size > 0 && k < |Numbered(h, d, size)|
    ensures ChunkLike(Numbered(h, d, size)[k].content, size, k)
  {
    hide Chunks, ChunkLike;
    ChunksAreChunkLike(d.content, size, k);
  }

  lemma OthersKeep(h: Digest, size: nat, ix: Index, id: string, other: string, key: string, s: Document, k: nat)
    requires size > 0 && Injective(h) && id != other && !Shadows(id, other, size) && !Shadows(other, id, size)
    requires key in ix.chunks && Backed(h, size, ix, key) && ix.chunks[key].documentId == other
    requires other in ix.documents && ix.documents[other].id == other
    requires s.id == id && k < |Numbered(h, s, size)|
    ensures Numbered(h, s, size)[k].chunkId != key
  {
    var c, x := ix.chunks[key], Numbered(h, s, size)[k];
    NumberedChunkLike(h, ix.documents[other], size, c.ordinal);
    NumberedChunkLike(h, s, size, k);
    hide Chunks, Shadows, ChunkLike;
    if x.chunkId == key {
      SamePreimage(h, other, c.ordinal, c.content, id, k, x.content);
      CollisionShadows(other, c.ordinal, c.content, id, k, x.content, size);
    }
  }

  /** Chunks of other documents are as they were. */
  predicate OthersKept(ix: Index, jx: Index, id: string) {
    forall key :: key in ix.chunks && ix.chunks[key].documentId != id ==> key in jx.chunks && jx.chunks[key] == ix.chunks[key]
  }

  lemma IngestKeepsOthers(h: Digest, size: nat, ix: Index, d: Document)
    requires size > 0 && Injective(h) && Agrees(h, size, ix)
    requires Apart(ix.documents.Keys + {DocumentId(h, d)}, size)
    ensures OthersKept(ix, Ingested(h, size, ix, d), DocumentId(h, d))
  {
    var s := Stored(h, d);
    var jx := Ingested(h, size, ix, d);
    var more := Numbered(h, s, size);
    NumberedDistinct(h, s, size);
    AddAllMeans(Without(ix.chunks, s.id), more);
    assert s.id in ix.documents.Keys + {DocumentId(h, d)};
    hide Chunks, Normalize, Shadows, Injective, AddAll;
    forall key | key in ix.chunks && ix.chunks[key].documentId != s.id ensures key in jx.chunks && jx.chunks[key] == ix.chunks[key] {
      assert Backed(h, size, ix, key);
      var other := ix.chunks[key].documentId;
      assert Indexed(h, size, ix, other);
      assert other in ix.documents.Keys + {DocumentId(h, d)};
      hide Backed, Indexed, Numbered;
      forall k | 0 <= k < |more| ensures more[k].chunkId != key { OthersKeep(h, size, ix, s.id, other, key, s, k); }
    }
  }

  lemma IndexedAfter(h: Digest, size: nat, ix: Index, jx: Index, s: Document, id: string)
    requires size > 0 && jx.documents == ix.documents[s.id := s] && id in jx.documents
    requires OthersKept(ix, jx, s.id) && Arrived(jx.chunks, Numbered(h, s, size))
    requires id != s.id ==> Indexed(h, size, ix, id)
    ensures Indexed(h, size, jx, id)
  {
    hide Chunks, ChunkId;
  }

  lemma IngestKeepsIndexed(h: Digest, size: nat, ix: Index, d: Document)
    requires size > 0 && Injective(h) && Agrees(h, size, ix)
    requires OthersKept(ix, Ingested(h, size, ix, d), DocumentId(h, d))
    ensures var jx := Ingested(h, size, ix, d); forall id :: id in jx.documents ==> Indexed(h, size, jx, id)
  {
    var s := Stored(h, d);
    var jx := Ingested(h, size, ix, d);
    NumberedDistinct(h, s, size);
    AddAllMeans(Without(ix.chunks, s.id), Numbered(h, s, size));
    hide Numbered, Normalize, Injective, AddAll, Arrived, Kept, NothingElse, OthersKept, Indexed, Backed;
    forall id | id in jx.documents ensures Indexed(h, size, jx, id) {
      IndexedAfter(h, size, ix, jx, s, id);
    }
  }

  lemma BackedAfter(h: Digest, size: nat, ix: Index, jx: Index, s: Document, key: string)
    requires size > 0 && jx.documents == ix.documents[s.id := s] && key in jx.chunks
    requires NothingElse(Without(ix.chunks, s.id), jx.chunks, Numbered(h, s, size))
    requires key in ix.chunks ==> Backed(h, size, ix, key)
    ensures Backed(h, size, jx, key)
  {
    hide Chunks, ChunkId;
    var more := Numbered(h, s, size);
    if jx.chunks[key] in more && jx.chunks[key].chunkId == key {
      var i :| 0 <= i < |more| && more[i] == jx.chunks[key];
    }
  }

  lemma IngestKeepsBacked(h: Digest, size: nat, ix: Index, d: Document)
    requires size > 0 && Injective(h) && Agrees(h, size, ix)
    ensures var jx := Ingested(h, size, ix, d); forall key :: key in jx.chunks ==> Backed(h, size, jx, key)
  {
    var s := Stored(h, d);
    var jx := Ingested(h, size, ix, d);
    NumberedDistinct(h, s, size);
    AddAllMeans(Without(ix.chunks, s.id), Numbered(h, s, size));
    hide Numbered, Normalize, Injective, AddAll, Arrived, Kept, NothingElse, Without, Indexed, Backed;
    forall key | key in jx.chunks ensures Backed(h, size, jx, key) {
      BackedAfter(h, size, ix, jx, s, key);
    }
  }

  /** Ingesting keeps the index exactly the chunks of the current documents. */
  lemma IngestKeepsAgreement(h: Digest, size: nat, ix: Index, d: Document)
    requires size > 0 && Injective(h) && Agrees(h, size, ix)
    requires Apart(ix.documents.Keys + {DocumentId(h, d)}, size)
    ensures Agrees(h, size, Ingested(h, size, ix, d))
  {
    IngestKeepsOthers(h, size, ix, d);
    hide Apart, Injective, OthersKept, Indexed, Backed, Ingested;
    IngestKeepsIndexed(h, size, ix, d);
    IngestKeepsBacked(h, size, ix, d);
  }

  /** Two indexes over the same documents are the same index. */
  lemma SameDocumentsSameIndex(h: Digest, size: nat, ix: Index, jx: Index)
    requires size > 0 && Agrees(h, size, ix) && Agrees(h, size, jx) && ix.documents == jx.documents
    ensures ix == jx
  {
    hide Numbered;
    forall key | key in ix.chunks ensures key in jx.chunks && jx.chunks[key] == ix.chunks[key] {
      assert Backed(h, size, ix, key);
      assert Indexed(h, size, jx, ix.chunks[key].documentId);
    }
    forall key | key in jx.chunks ensures key in ix.chunks {
      assert Backed(h, size, jx, key);
      assert Indexed(h, size, ix, jx.chunks[key].documentId);
    }
  }

  predicate Within(a: map<string, Chunk>, b: map<string, Chunk>) {
    forall key :: key in a ==> key in b && b[key] == a[key]
  }

  lemma {:induction false} AddKnown(chunks: map<string, Chunk>, more: seq<Chunk>, full: map<string, Chunk>)
    requires Within(chunks, full)
    requires forall c :: c in more ==> c.chunkId in full && full[c.chunkId] == c
    ensures Within(AddAll(chunks, more), full)
    decreases |more|
  {
    if more != [] {
      assert more[|more| - 1] in more;
      AddKnown(chunks, more[..|more| - 1], full);
    }
  }

  lemma {:induction false} AddReaches(chunks: map<string, Chunk>, more: seq<Chunk>, c: Chunk)
    requires c.chunkId in chunks || c in more
    ensures c.chunkId in AddAll(chunks, more)
    decreases |more|
  {
    if more != [] {
      assert more == more[..|more| - 1] + [more[|more| - 1]];
      if c.chunkId in chunks || c in more[..|more| - 1] { AddReaches(chunks, more[..|more| - 1], c); }
    }
  }

  lemma SameChunks(a: map<string, Chunk>, b: map<string, Chunk>)
    requires Within(a, b) && forall key :: key in b ==> key in a
    ensures a == b
  {
  }

  /** The chunks of a stored document are known, and a chunk of it is one of them. */
  lemma StoredIsKnown(h: Digest, size: nat, ix: Index, id: string)
    requires size > 0 && Agrees(h, size, ix) && id in ix.documents
    ensures forall c :: c in Numbered(h, ix.documents[id], size) ==> c.chunkId in ix.chunks && ix.chunks[c.chunkId] == c
  {
    hide Numbered;
    assert Indexed(h, size, ix, id);
  }

  lemma ChunkIsNumbered(h: Digest, size: nat, ix: Index, key: string)
    requires size > 0 && key in ix.chunks && Backed(h, size, ix, key)
    ensures ix.chunks[key].documentId in ix.documents && ix.chunks[key].chunkId == key
    ensures ix.chunks[key] in Numbered(h, ix.documents[ix.chunks[key].documentId], size)
  {
    hide Numbered;
  }

  /** Re-ingesting an unchanged document changes nothing. */
  lemma ReingestIsNoOp(h: Digest, size: nat, ix: Index, d: Document)
    requires size > 0 && Agrees(h, size, ix)
    requires DocumentId(h, d) in ix.documents && ix.documents[DocumentId(h, d)] == Stored(h, d)
    ensures Ingested(h, size, ix, d) == ix
  {
    var s := Stored(h, d);
    var more := Numbered(h, s, size);
    StoredIsKnown(h, size, ix, s.id);
    assert Within(Without(ix.chunks, s.id), ix.chunks);
    AddKnown(Without(ix.chunks, s.id), more, ix.chunks);
    forall key | key in ix.chunks ensures key in AddAll(Without(ix.chunks, s.id), more) {
      hide Numbered, Normalize, AddAll, Within;
      assert Backed(h, size, ix, key);
      hide Agrees, Backed;
      ChunkIsNumbered(h, size, ix, key);
      AddReaches(Without(ix.chunks, s.id), more, ix.chunks[key]);
    }
    hide Agrees, Numbered, Normalize, AddAll, Within, Without;
    SameChunks(AddAll(Without(ix.chunks, s.id), more), ix.chunks);
  }

  // ---------------------------------------------------------------- histories

  function After(h: Digest, size: nat, history: seq<Document>): Index
    requires size > 0
  {
    if history == [] then Index(map[], map[])
    else Ingested(h, size, After(h, size, history[..|history| - 1]), history[|history| - 1])
  }

  function Ids(h: Digest, history: seq<Document>): set<string> {
    set d | d in history :: DocumentId(h, d)
  }

  /** The last version ingested of each document. */
  function Latest(h: Digest, history: seq<Document>): map<string, Document> {
    map id | id in Ids(h, history) :: LastVersion(h, history, id)
  }

  function LastVersion(h: Digest, history: seq<Document>, id: string): Document
    requires id in Ids(h, history)
  {
    var last := history[|history| - 1];
    if DocumentId(h, last) == id then Stored(h, last)
    else
      assert history == history[..|history| - 1] + [last];
      LastVersion(h, history[..|history| - 1], id)
  }

  lemma LatestOneMore(h: Digest, before: seq<Document>, last: Document)
    ensures Latest(h, before + [last]) == Latest(h, before)[DocumentId(h, last) := Stored(h, last)]
    ensures Ids(h, before + [last]) == Ids(h, before) + {DocumentId(h, last)}
  {
    hide Stored, DocumentId;
    var history := before + [last];
    assert history[..|history| - 1] == before;
    forall id | id in Ids(h, history) ensures id in Ids(h, before) + {DocumentId(h, last)} {
      var d :| d in history && DocumentId(h, d) == id;
      assert d in before || d == last;
    }
    forall id | id in Ids(h, before) + {DocumentId(h, last)} ensures id in Ids(h, history) {
      if id == DocumentId(h, last) {
        assert last in history;
      } else {
        var d :| d in before && DocumentId(h, d) == id;
        assert d in history;
      }
    }
  }

  /** After any ingests, in any order and with any repeats, the index is that of the last versions. */
  lemma {:induction false} HistoryAgrees(h: Digest, size: nat, history: seq<Document>)
    requires size > 0 && Injective(h) && Apart(Ids(h, history), size)
    ensures Agrees(h, size, After(h, size, history))
    ensures After(h, size, history).documents == Latest(h, history)
    decreases |history|
  {
    hide Numbered, Normalize, Injective, AddAll, Shadows, Stored, DocumentId, Indexed, Backed;
    if history != [] {
      var last := history[|history| - 1];
      var before := history[..|history| - 1];
      assert history == before + [last];
      LatestOneMore(h, before, last);
      hide Ids, Latest;
      HistoryAgrees(h, size, before);
      assert Latest(h, before).Keys == Ids(h, before) by { LatestKeys(h, before); }
      IngestKeepsAgreement(h, size, After(h, size, before), last);
      StoredId(h, last);
    }
  }

  lemma LatestKeys(h: Digest, history: seq<Document>)
    ensures Latest(h, history).Keys == Ids(h, history)
  {
  }

  lemma StoredId(h: Digest, d: Document)
    ensures Stored(h, d).id == DocumentId(h, d)
  {
  }

  /** Histories that end in the same versions end in the same index. */
  lemma OrderOfIngestsDoesNotMatter(h: Digest, size: nat, one: seq<Document>, other: seq<Document>)
    requires size > 0 && Injective(h) && Apart(Ids(h, one), size) && Apart(Ids(h, other), size)
    requires Latest(h, one) == Latest(h, other)
    ensures After(h, size, one) == After(h, size, other)
  {
    HistoryAgrees(h, size, one);
    HistoryAgrees(h, size, other);
    hide Agrees, Numbered, After;
    SameDocumentsSameIndex(h, size, After(h, size, one), After(h, size, other));
  }

  // ---------------------------------------------------------------- the separator inside identifiers

  lemma OneChunk(h: Digest, d: Document, size: nat)
    requires d.id != "" && Plain(d.content) && |d.content| <= size
    ensures Stored(h, d).id == d.id && |Numbered(h, Stored(h, d), size)| == 1
    ensures Numbered(h, Stored(h, d), size)[0].documentId == d.id
    ensures Numbered(h, Stored(h, d), size)[0].chunkId == ChunkId(h, d.id, 0, d.content)
  {
    PlainText(d.content, size);
    hide Chunks, Normalize;
  }

  lemma AddOne(chunks: map<string, Chunk>, more: seq<Chunk>)
    requires |more| == 1
    ensures AddAll(chunks, more) == chunks[more[0].chunkId := more[0]]
  {
    assert more[..0] == [];
  }

  lemma OneMoreIngest(h: Digest, size: nat, history: seq<Document>, d: Document)
    requires size > 0
    ensures After(h, size, history + [d]) == Ingested(h, size, After(h, size, history), d)
  {
    hide Ingested;
    assert (history + [d])[..|history|] == history;
  }

  lemma TwoIngests(h: Digest, size: nat, d: Document, e: Document)
    requires size > 0
    ensures After(h, size, [d, e]) == Ingested(h, size, Ingested(h, size, Index(map[], map[]), d), e)
  {
    hide Ingested;
    assert After(h, size, []) == Index(map[], map[]);
    OneMoreIngest(h, size, [], d);
    OneMoreIngest(h, size, [d], e);
    assert [] + [d] == [d] && [d] + [e] == [d, e];
  }

  /** The chunk of the document ingested last stands under its identity. */
  lemma LastOneStands(h: Digest, size: nat, ix: Index, e: Document)
    requires e.id != "" && Plain(e.content) && |e.content| <= size
    ensures var jx := Ingested(h, size, ix, e); var key := ChunkId(h, e.id, 0, e.content);
      key in jx.chunks && jx.chunks[key].documentId == e.id
    ensures var jx := Ingested(h, size, ix, e);
      forall id :: id in ix.documents && id != e.id ==> id in jx.documents && jx.documents[id] == ix.documents[id]
  {
    OneChunk(h, e, size);
    hide Stored, Numbered, Plain, ChunkId;
    AddOne(Without(ix.chunks, e.id), Numbered(h, Stored(h, e), size));
  }

  /** A chunk of the first document with the identity of the second document's only chunk is lost, whatever the digest. */
  lemma LosesAChunk(h: Digest, size: nat, d: Document, e: Document, i: nat, a: string)
    requires size > 0 && d.id != "" && e.id != "" && d.id != e.id && Plain(e.content) && |e.content| <= size
    requires ChunkOf(d.content, size, i, a) && Collide(d.id, i, a, e.id, 0, e.content)
    ensures !Agrees(h, size, After(h, size, [d, e]))
  {
    TwoIngests(h, size, d, e);
    var ix := Ingested(h, size, Index(map[], map[]), d);
    StoredChunk(h, size, d, i, a);
    assert ChunkId(h, d.id, i, a) == ChunkId(h, e.id, 0, e.content);
    hide Preimage, ChunkId, Stored, Numbered, After, Plain, ChunkOf;
    assert d.id in ix.documents && ix.documents[d.id] == Stored(h, d);
    LastOneStands(h, size, ix, e);
    hide Ingested;
    assert !Indexed(h, size, Ingested(h, size, ix, e), d.id);
  }

  lemma StoredChunk(h: Digest, size: nat, d: Document, i: nat, a: string)
    requires size > 0 && d.id != "" && ChunkOf(d.content, size, i, a)
    ensures Stored(h, d).id == d.id && i < |Numbered(h, Stored(h, d), size)|
    ensures var c := Numbered(h, Stored(h, d), size)[i]; c.documentId == d.id && c.chunkId == ChunkId(h, d.id, i, a)
  {
    hide Chunks, Normalize;
  }

  /** The shortest case: an identifier that goes on with a bar and a zero. */
  lemma BarLosesAChunk(h: Digest, size: nat, d: Document, e: Document)
    requires d.id != "" && Plain(e.content) && |e.content| + 2 <= size
    requires d.content == "0|" + e.content && e.id == d.id + "|0"
    ensures Shadows(d.id, e.id, size) && !Agrees(h, size, After(h, size, [d, e]))
  {
    BarCollides(d.id, e.id, e.content, size);
    PlainText(d.content, size);
    hide Chunks, Normalize, Plain, Collide, Shadows;
    LosesAChunk(h, size, d, e, 0, d.content);
  }

  lemma BarCollides(d: string, e: string, text: string, size: nat)
    requires e == d + "|0" && Plain(text) && |text| + 2 <= size
    ensures Shadows(d, e, size) && Collide(d, 0, "0|" + text, e, 0, text) && Plain("0|" + text)
  {
    assert Decimal(0) == "0";
    assert e + "|" == Front(d, 0);
    assert ShadowsAt(d, 0, e) && Remainder(d, 0, e) == "";
    assert ShadowsWithin(d, 0, e, size);
    assert Preimage(d, 0, "0|" + text) == Front(d, 0) + ("0|" + text);
    assert Preimage(e, 0, text) == e + "|" + "0" + "|" + text;
  }

  /** Whatever is ingested under these identifiers, the index stays exactly the chunks of the documents. */
  ghost predicate Safe(h: Digest, size: nat, ids: set<string>)
    requires size > 0
  {
    forall history :: Ids(h, history) <= ids ==> Agrees(h, size, After(h, size, history))
  }

  /** One identifier shadowing another makes a history that loses a chunk. */
  lemma ShadowIsUnsafe(h: Digest, size: nat, ids: set<string>, d: string, e: string)
    requires size > 0 && d in ids && e in ids && d != "" && e != "" && d != e && Shadows(d, e, size) && OneLine(e)
    ensures !Safe(h, size, ids)
  {
    hide *;
    ShadowCollides(d, e, size);
    var i, a :| ChunksCollide(d, i, a, e, 0, "x", size);
    var text := SomeText(d, i, a, e, size);
    var m := Metadata("", "", "", "", "");
    var first, second := Document(d, text, m), Document(e, "x", m);
    OneLetterIsPlain();
    LosesAChunk(h, size, first, second, i, a);
    TwoIds(h, first, second, ids);
    UnsafeBy(h, size, ids, [first, second]);
  }

  lemma SomeText(d: string, i: nat, a: string, e: string, size: nat) returns (text: string)
    requires size > 0 && ChunksCollide(d, i, a, e, 0, "x", size)
    ensures ChunkOf(text, size, i, a) && Collide(d, i, a, e, 0, "x")
  {
    hide ChunkOf, Collide;
    text :| ChunkOf(text, size, i, a);
  }

  lemma OneLetterIsPlain()
    ensures Plain("x")
  {
  }

  lemma TwoIds(h: Digest, d: Document, e: Document, ids: set<string>)
    requires d.id in ids && e.id in ids && d.id != "" && e.id != ""
    ensures Ids(h, [d, e]) <= ids
  {
    forall id | id in Ids(h, [d, e]) ensures id in ids {
      var x :| x in [d, e] && DocumentId(h, x) == id;
    }
  }

  lemma UnsafeBy(h: Digest, size: nat, ids: set<string>, history: seq<Document>)
    requires size > 0 && Ids(h, history) <= ids && !Agrees(h, size, After(h, size, history))
    ensures !Safe(h, size, ids)
  {
    hide Ids, Agrees, After;
  }

  /**
    The index is right after every history over a set of one-line identifiers exactly when none
    of them shadows another within the chunk size.
  */
  lemma SafeExactly(h: Digest, size: nat, ids: set<string>)
    requires size > 0 && Injective(h) && "" !in ids && forall id :: id in ids ==> OneLine(id)
    ensures Safe(h, size, ids) <==> Apart(ids, size)
  {
    hide OneLine, Agrees, After, Injective, Shadows;
    if Apart(ids, size) {
      forall history | Ids(h, history) <= ids ensures Agrees(h, size, After(h, size, history)) {
        assert Apart(Ids(h, history), size);
        hide Apart;
        HistoryAgrees(h, size, history);
      }
    } else {
      var d, e :| d in ids && e in ids && d != e && Shadows(d, e, size);
      ShadowIsUnsafe(h, size, ids, d, e);
    }
  }
}
