// The document list panel (frontend/src/components/DocumentList.tsx):
// the selection toggle handed to the chat panel, the filename search, and
// the local list update after a delete.

module DocumentList {
  import opened Common
  import opened ApiTypes

  /** `s.filter(x => x !== id)`. */
  function RemoveAll(s: seq<string>, id: string): (r: seq<string>)
    ensures id !in r
    ensures forall x :: x in r <==> x in s && x != id
  {
    if s == [] then []
    else (if s[0] != id then [s[0]] else []) + RemoveAll(s[1..], id)
  }

  lemma {:induction false} RemoveAllAppend(a: seq<string>, b: seq<string>, id: string)
    ensures RemoveAll(a + b, id) == RemoveAll(a, id) + RemoveAll(b, id)
  {
    if a == [] {
      assert a + b == b;
    } else {
      assert (a + b)[1..] == a[1..] + b;
      RemoveAllAppend(a[1..], b, id);
    }
  }

  lemma {:induction false} RemoveAllAbsent(s: seq<string>, id: string)
    requires id !in s
    ensures RemoveAll(s, id) == s
  {
    if s != [] {
      RemoveAllAbsent(s[1..], id);
    }
  }

  /** Removing keeps a duplicate-free list duplicate-free. */
  lemma {:induction false} RemoveAllKeepsNoDuplicates(s: seq<string>, id: string)
    requires NoDuplicates(s)
    ensures NoDuplicates(RemoveAll(s, id))
  {
    if s != [] {
      RemoveAllKeepsNoDuplicates(s[1..], id);
      var rest := RemoveAll(s[1..], id);
      assert s[0] !in s[1..];
      assert s[0] !in rest;
    }
  }

  /** The list the selection callback receives when `id` is clicked: every
      occurrence removed if it was selected, otherwise appended at the end. */
  function Toggled(selectedIds: seq<string>, id: string): (r: seq<string>)
    ensures id in selectedIds ==> id !in r && forall x :: x in r <==> x in selectedIds && x != id
    ensures id !in selectedIds ==> r == selectedIds + [id]
  {
    if id in selectedIds then RemoveAll(selectedIds, id) else selectedIds + [id]
  }

  /** `handleSelect`: nothing is reported unless the list is selectable and
      has a callback. */
  function HandleSelect(selectable: bool, hasCallback: bool, selectedIds: seq<string>, id: string): (r: Option<seq<string>>)
    ensures r.Some? <==> selectable && hasCallback
    ensures r.Some? ==> r.value == Toggled(selectedIds, id)
  {
    if !selectable || !hasCallback then None else Some(Toggled(selectedIds, id))
  }

  /** Selecting an unselected document and then clicking it again gives back
      the original selection. */
  lemma ToggleTwice(selectedIds: seq<string>, id: string)
    requires id !in selectedIds
    ensures Toggled(Toggled(selectedIds, id), id) == selectedIds
  {
    RemoveAllAppend(selectedIds, [id], id);
    RemoveAllAbsent(selectedIds, id);
    assert RemoveAll([id], id) == [];
  }

  /** A selection built by toggling never holds an id twice. */
  lemma ToggleKeepsNoDuplicates(selectedIds: seq<string>, id: string)
    requires NoDuplicates(selectedIds)
    ensures NoDuplicates(Toggled(selectedIds, id))
  {
    if id in selectedIds {
      RemoveAllKeepsNoDuplicates(selectedIds, id);
    }
  }

  // ---------------------------------------------------------------
  // Search
  // ---------------------------------------------------------------

  /** The filename contains the query, both lower-cased; the empty query
      matches every document. */
  predicate MatchesQuery(doc: Document, query: string): (r: bool)
    ensures query == "" ==> r
  {
    ContainsEmpty(Lower(doc.filename));
    Contains(Lower(doc.filename), Lower(query))
  }

  /** `filteredDocs`: the documents whose lower-cased filename contains the
      lower-cased query. */
  function FilterDocs(documents: seq<Document>, query: string): (r: seq<Document>)
    ensures |r| <= |documents|
    ensures forall d :: d in r <==> d in documents && MatchesQuery(d, query)
  {
    if documents == [] then []
    else (if MatchesQuery(documents[0], query) then [documents[0]] else []) + FilterDocs(documents[1..], query)
  }

  /** The search keeps the documents in their listed order. */
  lemma {:induction false} FilterDocsAppend(a: seq<Document>, b: seq<Document>, query: string)
    ensures FilterDocs(a + b, query) == FilterDocs(a, query) + FilterDocs(b, query)
  {
    if a == [] {
      assert a + b == b;
    } else {
      assert (a + b)[1..] == a[1..] + b;
      FilterDocsAppend(a[1..], b, query);
    }
  }

  /** An empty search shows every document. */
  lemma {:induction false} EmptyQueryKeepsAll(documents: seq<Document>)
    ensures FilterDocs(documents, "") == documents
  {
    if documents != [] {
      ContainsEmpty(Lower(documents[0].filename));
      EmptyQueryKeepsAll(documents[1..]);
    }
  }

  /** The search ignores the case of ASCII letters in the query. */
  lemma QueryCaseIgnored(doc: Document, query: string)
    ensures MatchesQuery(doc, query) == MatchesQuery(doc, Lower(query))
  {
    assert Lower(Lower(query)) == Lower(query);
  }

  /** `prev.filter(d => d.id !== id)`. */
  function WithoutDocument(documents: seq<Document>, id: string): (r: seq<Document>)
    ensures forall d :: d in r <==> d in documents && d.id != id
    ensures |r| <= |documents|
  {
    if documents == [] then []
    else (if documents[0].id != id then [documents[0]] else []) + WithoutDocument(documents[1..], id)
  }

  lemma {:induction false} WithoutDocumentAppend(a: seq<Document>, b: seq<Document>, id: string)
    ensures WithoutDocument(a + b, id) == WithoutDocument(a, id) + WithoutDocument(b, id)
  {
    if a == [] {
      assert a + b == b;
    } else {
      assert (a + b)[1..] == a[1..] + b;
      WithoutDocumentAppend(a[1..], b, id);
    }
  }

  // ---------------------------------------------------------------
  // The component's state
  // ---------------------------------------------------------------

  class DocumentListView {
    var documents: seq<Document>
    var isLoading: bool
    var deleteDocId: Option<string>
    var isDeleting: bool

    constructor ()
      ensures documents == [] && isLoading && deleteDocId == None && !isDeleting
    {
      documents, isLoading, deleteDocId, isDeleting := [], true, None, false;
    }

    /** `fetchDocuments` up to the awaited listing: loading starts and
        nothing else changes. */
    method BeginFetch()
      modifies this`isLoading
      ensures isLoading
    {
      isLoading := true;
    }

    /** `fetchDocuments` once the listing settles: the list is replaced on
        success and kept (with a toast) on failure; loading ends either way. */
    method FinishFetch(outcome: Outcome<seq<Document>>) returns (failureToast: bool)
      modifies this`documents, this`isLoading
      ensures !isLoading
      ensures failureToast <==> outcome.Rejected?
      ensures documents == (if outcome.Resolved? then outcome.value else old(documents))
    {
      failureToast := outcome.Rejected?;
      if outcome.Resolved? {
        documents := outcome.value;
      }
      isLoading := false;
    }

    /** Opening (or cancelling) the confirmation dialog. */
    method SetDeleteDocId(id: Option<string>)
      modifies this`deleteDocId
      ensures deleteDocId == id
    {
      deleteDocId := id;
    }

    /** `handleDelete` up to the awaited request: nothing happens without a
        (truthy) pending id; otherwise the delete starts and its id is returned. */
    method BeginDelete() returns (target: Option<string>)
      modifies this`isDeleting
      ensures target == (if Truthy(deleteDocId) then deleteDocId else None)
      ensures isDeleting == (Truthy(deleteDocId) || old(isDeleting))
    {
      if !Truthy(deleteDocId) {
        return None;
      }
      isDeleting := true;
      target := deleteDocId;
    }

    /** `handleDelete` after the request settles: on success every document
        with that id leaves the list, on failure the list is kept; the dialog
        closes and the delete ends in both cases. */
    method FinishDelete(target: string, outcome: Outcome<()>) returns (failureToast: bool)
      modifies this`documents, this`isDeleting, this`deleteDocId
      ensures failureToast <==> outcome.Rejected?
      ensures documents == (if outcome.Resolved? then WithoutDocument(old(documents), target) else old(documents))
      ensures !isDeleting && deleteDocId == None
    {
      failureToast := outcome.Rejected?;
      if outcome.Resolved? {
        documents := WithoutDocument(documents, target);
      }
      isDeleting := false;
      deleteDocId := None;
    }
  }
}
