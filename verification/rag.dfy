// The retrieval pipeline (backend/app/core/rag.py): one vector collection
// per user, named after the user's email; a PDF's text is split into
// chunks that are stored with ids and metadata; a query searches the
// asking user's collection, optionally restricted to some documents, and
// reports which documents the retrieved chunks came from.
//
// Reading the PDF, the text splitter, the embedding model, the similarity
// search and the language model are not part of this model: the page
// texts, the splitter, the search hits and the generated answer are
// parameters.

module Rag {
  import opened Common

  const CollectionPrefix: string := "user_"
  const ChunkInfix: string := "_chunk_"
  const NoDocumentsPrefix: string := "No documents found for user "

  datatype ChunkMetadata = ChunkMetadata(documentId: string, chunkIndex: nat, userId: string)
  datatype StoredChunk = StoredChunk(id: string, text: string, metadata: ChunkMetadata)
  /** A collection keeps the user id it was created for, and its chunks. */
  datatype Collection = Collection(ownerId: string, chunks: seq<StoredChunk>)
  /** The metadata filter `{"document_id": {"$in": ids}}`. */
  datatype WhereFilter = DocumentIdIn(ids: seq<string>)
  /** What `query` returns, or the message of the exception it raises. */
  datatype QueryOutcome = Answered(answer: string, sources: seq<string>) | Raised(message: string)

  // ---------------------------------------------------------------
  // Collection names
  // ---------------------------------------------------------------

  /** `f"user_{user_id.replace('@', '_').replace('.', '_')}"`. */
  function CollectionName(userId: string): (r: string)
    ensures StartsWith(r, CollectionPrefix) && |r| == |CollectionPrefix| + |userId|
    ensures '@' !in r && '.' !in r
    ensures forall i :: 0 <= i < |userId| && userId[i] != '@' && userId[i] != '.' ==>
              r[|CollectionPrefix| + i] == userId[i]
  {
    CollectionPrefix + ReplaceChar(ReplaceChar(userId, '@', '_'), '.', '_')
  }

  /** Two users get the same collection exactly when their ids agree once
      '@' and '.' are both read as '_'. */
  lemma SameCollectionIff(a: string, b: string)
    ensures CollectionName(a) == CollectionName(b) <==>
              ReplaceChar(ReplaceChar(a, '@', '_'), '.', '_') == ReplaceChar(ReplaceChar(b, '@', '_'), '.', '_')
  {
    var ra := ReplaceChar(ReplaceChar(a, '@', '_'), '.', '_');
    var rb := ReplaceChar(ReplaceChar(b, '@', '_'), '.', '_');
    if CollectionName(a) == CollectionName(b) {
      assert ra == CollectionName(a)[|CollectionPrefix|..];
      assert rb == CollectionName(b)[|CollectionPrefix|..];
    }
  }

  /** Distinct accounts can share one collection: the name does not tell
      "x.y@mail.com" from "x_y@mail.com". */
  lemma DistinctUsersShareCollection()
    ensures "x.y@mail.com" != "x_y@mail.com"
    ensures CollectionName("x.y@mail.com") == CollectionName("x_y@mail.com")
  {
    assert "x.y@mail.com"[1] != "x_y@mail.com"[1];
    assert ReplaceChar(ReplaceChar("x.y@mail.com", '@', '_'), '.', '_') == "x_y_mail_com";
    assert ReplaceChar(ReplaceChar("x_y@mail.com", '@', '_'), '.', '_') == "x_y_mail_com";
  }

  // ---------------------------------------------------------------
  // Text extraction
  // ---------------------------------------------------------------

  /** The pages' texts joined in page order. */
  function Concat(pages: seq<string>): (r: string)
    ensures pages == [] ==> r == ""
    ensures pages != [] ==> EndsWith(r, pages[|pages| - 1])
  {
    if pages == [] then "" else Concat(pages[..|pages| - 1]) + pages[|pages| - 1]
  }

  lemma {:induction false} ConcatAppend(a: seq<string>, b: seq<string>)
    ensures Concat(a + b) == Concat(a) + Concat(b)
    decreases |b|
  {
    if b == [] {
      assert a + b == a;
    } else {
      var init, last := b[..|b| - 1], b[|b| - 1];
      assert (a + b)[..|a + b| - 1] == a + init && (a + b)[|a + b| - 1] == last;
      ConcatAppend(a, init);
      calc {
        Concat(a + b);
        Concat(a + init) + last;
        Concat(a) + Concat(init) + last;
        Concat(a) + (Concat(init) + last);
        Concat(a) + Concat(b);
      }
    }
  }

  /** Every page's text appears in the extracted text, at the offset given
      by the pages before it. */
  lemma ConcatHoldsPage(pages: seq<string>, k: nat)
    requires k < |pages|
    ensures var offset := |Concat(pages[..k])|;
            offset + |pages[k]| <= |Concat(pages)|
            && Concat(pages)[offset..offset + |pages[k]|] == pages[k]
  {
    assert pages == pages[..k] + [pages[k]] + pages[k + 1..];
    ConcatAppend(pages[..k] + [pages[k]], pages[k + 1..]);
    ConcatAppend(pages[..k], [pages[k]]);
    assert Concat([pages[k]]) == Concat([]) + pages[k];
  }

  /** `_extract_text_from_pdf`, given the text of each page. */
  method ExtractText(pages: seq<string>) returns (text: string)
    ensures text == Concat(pages)
  {
    text := "";
    var i := 0;
    while i < |pages|
      invariant 0 <= i <= |pages|
      invariant text == Concat(pages[..i])
    {
      assert pages[..i + 1][..i] == pages[..i];
      text := text + pages[i];
      i := i + 1;
    }
    assert pages[..|pages|] == pages;
  }

  // ---------------------------------------------------------------
  // Chunk ids and metadata
  // ---------------------------------------------------------------

  /** Python's `str` of a non-negative int. */
  function DecimalString(n: nat): (r: string)
    ensures r != [] && forall c :: c in r ==> '0' <= c <= '9'
    ensures |r| == 1 <==> n < 10
  {
    if n < 10 then [(48 + n) as char] else DecimalString(n / 10) + [(48 + n % 10) as char]
  }

  /** Different numbers render differently. */
  lemma {:induction false} DecimalStringInjective(a: nat, b: nat)
    requires DecimalString(a) == DecimalString(b)
    ensures a == b
    decreases a
  {
    var s := DecimalString(a);
    if a >= 10 && b >= 10 {
      assert s[|s| - 1] == (48 + a % 10) as char == (48 + b % 10) as char;
      assert DecimalString(a / 10) == s[..|s| - 1] == DecimalString(b / 10);
      DecimalStringInjective(a / 10, b / 10);
    }
  }

  /** `f"{document_id}_chunk_{i}"`. */
  function ChunkId(documentId: string, i: nat): (r: string)
    ensures StartsWith(r, documentId + ChunkInfix)
  {
    documentId + ChunkInfix + DecimalString(i)
  }

  /** The chunks of one document get pairwise distinct ids. */
  lemma ChunkIdsDistinct(documentId: string, i: nat, j: nat)
    requires i != j
    ensures ChunkId(documentId, i) != ChunkId(documentId, j)
  {
    var p := documentId + ChunkInfix;
    if ChunkId(documentId, i) == ChunkId(documentId, j) {
      assert DecimalString(i) == ChunkId(documentId, i)[|p|..];
      assert DecimalString(j) == ChunkId(documentId, j)[|p|..];
      DecimalStringInjective(i, j);
    }
  }

  /** The chunks `process_pdf` adds for one document: chunk i gets id
      `ChunkId(documentId, i)` and metadata naming the document, its index
      and the uploading user. */
  function NewChunks(chunks: seq<string>, documentId: string, userId: string): (r: seq<StoredChunk>)
    ensures |r| == |chunks|
    ensures forall i :: 0 <= i < |r| ==> r[i].text == chunks[i] && r[i].metadata.documentId == documentId
    ensures forall i :: 0 <= i < |r| ==> r[i].metadata.userId == userId && r[i].metadata.chunkIndex == i
    ensures forall i :: 0 <= i < |r| ==> r[i].id == ChunkId(documentId, i)
  {
    seq(|chunks|, i requires 0 <= i < |chunks| =>
      StoredChunk(ChunkId(documentId, i), chunks[i], ChunkMetadata(documentId, i, userId)))
  }

  lemma NewChunksHaveDistinctIds(chunks: seq<string>, documentId: string, userId: string)
    ensures NoDuplicates(seq(|chunks|, i requires 0 <= i < |chunks| => NewChunks(chunks, documentId, userId)[i].id))
  {
    var r := NewChunks(chunks, documentId, userId);
    forall i, j | 0 <= i < j < |chunks|
      ensures r[i].id != r[j].id
    {
      ChunkIdsDistinct(documentId, i, j);
    }
  }

  // ---------------------------------------------------------------
  // Query filter and sources
  // ---------------------------------------------------------------

  /** The `where` filter: none unless at least one document id is given. */
  function WhereFor(documentIds: Option<seq<string>>): (r: Option<WhereFilter>)
    ensures r.Some? <==> documentIds.Some? && |documentIds.value| > 0
    ensures r.Some? ==> r.value.ids == documentIds.value
  {
    if documentIds.Some? && |documentIds.value| > 0 then Some(DocumentIdIn(documentIds.value)) else None
  }

  predicate Satisfies(filter: Option<WhereFilter>, m: ChunkMetadata)
  {
    match filter
    case None => true
    case Some(DocumentIdIn(ids)) => m.documentId in ids
  }

  /** `list(set(...))` over the hits' document ids; the order of a Python set
      is not specified, so first-occurrence order is chosen here. */
  function Sources(hits: seq<StoredChunk>): (r: seq<string>)
    ensures NoDuplicates(r) && |r| <= |hits|
    ensures forall d :: d in r <==> exists h :: h in hits && h.metadata.documentId == d
  {
    if hits == [] then []
    else
      var rest := Sources(hits[..|hits| - 1]);
      var last := hits[|hits| - 1];
      assert forall h :: h in hits <==> h in hits[..|hits| - 1] || h == last;
      if last.metadata.documentId in rest then rest else rest + [last.metadata.documentId]
  }

  /** When the search honours the filter, a query scoped to some documents
      reports only documents among them. */
  lemma SourcesWithinSelection(hits: seq<StoredChunk>, documentIds: seq<string>)
    requires |documentIds| > 0
    requires forall h :: h in hits ==> Satisfies(WhereFor(Some(documentIds)), h.metadata)
    ensures forall d :: d in Sources(hits) ==> d in documentIds
  {
  }

  // ---------------------------------------------------------------
  // The vector store
  // ---------------------------------------------------------------

  class VectorStore {
    var collections: map<string, Collection>

    constructor ()
      ensures collections == map[]
    {
      collections := map[];
    }

    /** `process_pdf`: the text is split, the user's collection is fetched or
        created (recording the user id), the new chunks are appended, and the
        number of chunks is returned. */
    method ProcessPdf(pages: seq<string>, split: string -> seq<string>, userId: string, documentId: string)
      returns (count: nat)
      modifies this
      ensures count == |split(Concat(pages))|
      ensures var name := CollectionName(userId);
              var existing := if name in old(collections) then old(collections)[name] else Collection(userId, []);
              collections == old(collections)[name := Collection(existing.ownerId,
                                                           existing.chunks + NewChunks(split(Concat(pages)), documentId, userId))]
    {
      var text := ExtractText(pages);
      var chunks := split(text);
      var name := CollectionName(userId);
      var collection := if name in collections then collections[name] else Collection(userId, []);
      collections := collections[name := Collection(collection.ownerId, collection.chunks + NewChunks(chunks, documentId, userId))];
      count := |chunks|;
    }

    /** `query`, given what the similarity search returned (`hits`) and the
        generated `answer`: a user without a collection gets an error, any
        other user the answer and the documents the hits came from. */
    method Query(userId: string, documentIds: Option<seq<string>>, hits: seq<StoredChunk>, answer: string)
      returns (outcome: QueryOutcome)
      ensures CollectionName(userId) !in collections <==> outcome.Raised?
      ensures outcome.Raised? ==> outcome.message == NoDocumentsPrefix + userId
      ensures outcome.Answered? ==> outcome.answer == answer && outcome.sources == Sources(hits)
    {
      var name := CollectionName(userId);
      if name !in collections {
        return Raised(NoDocumentsPrefix + userId);
      }
      outcome := Answered(answer, Sources(hits));
    }
  }

  /** After one user uploads, another user whose id maps to the same name
      can query without an error, and the collection they search holds the
      first user's chunks. */
  method UploadThenQueryAsOther(store: VectorStore, pages: seq<string>, split: string -> seq<string>,
                                owner: string, other: string, documentId: string)
    returns (outcome: QueryOutcome)
    requires CollectionName(owner) == CollectionName(other)
    modifies store
    ensures outcome.Answered?
    ensures CollectionName(other) in store.collections
    ensures forall c :: c in NewChunks(split(Concat(pages)), documentId, owner) ==>
              c in store.collections[CollectionName(other)].chunks
  {
    var _ := store.ProcessPdf(pages, split, owner, documentId);
    outcome := store.Query(other, None, [], "");
  }
}
