// The dashboard's counters (frontend/src/pages/DashboardPage.tsx).

module DashboardPage {
  import opened Common
  import opened ApiTypes

  datatype Stats = Stats(totalDocuments: nat, totalChunks: nat, totalChats: nat)

  /** `documents.reduce((sum, doc) => sum + doc.num_chunks, 0)`: a left fold. */
  function TotalChunks(documents: seq<Document>): (r: nat)
    ensures documents == [] ==> r == 0
    ensures forall k :: 0 <= k < |documents| ==> documents[k].numChunks <= r
  {
    if documents == [] then 0
    else TotalChunks(documents[..|documents| - 1]) + documents[|documents| - 1].numChunks
  }

  /** The chunk total adds up over any split of the list. */
  lemma {:induction false} TotalChunksAppend(a: seq<Document>, b: seq<Document>)
    ensures TotalChunks(a + b) == TotalChunks(a) + TotalChunks(b)
    decreases |b|
  {
    if b != [] {
      var init := b[..|b| - 1];
      assert (a + b)[..|a + b| - 1] == a + init;
      TotalChunksAppend(a, init);
    } else {
      assert a + b == a;
    }
  }

  /** Each document contributes its chunks once, wherever it is listed. */
  lemma {:induction false} TotalChunksCons(d: Document, rest: seq<Document>)
    ensures TotalChunks([d] + rest) == d.numChunks + TotalChunks(rest)
  {
    TotalChunksAppend([d], rest);
    assert [d][..0] == [];
  }

  /** The counters computed from a listing and a history: the number of
      documents, the sum of their chunk counts (whose meaning
      `TotalChunksAppend` and `TotalChunksCons` state) and the number of
      exchanges; a failed history request counts as an empty history. */
  function ComputeStats(documents: seq<Document>, history: Outcome<seq<ChatHistoryItem>>): (r: Stats)
    ensures r.totalDocuments == |documents|
    ensures r.totalChats == (if history.Resolved? then |history.value| else 0)
    ensures r.totalChunks == TotalChunks(documents)
    ensures documents == [] ==> r.totalChunks == 0
  {
    Stats(|documents|, TotalChunks(documents), if history.Resolved? then |history.value| else 0)
  }

  class Dashboard {
    var stats: Option<Stats>
    var isLoading: bool

    constructor ()
      ensures stats == None && isLoading
    {
      stats, isLoading := None, true;
    }

    /** `fetchStats` once both requests settle: the counters are set when the
        listing succeeds and stay as they were when it fails; loading ends in
        both cases. */
    method FetchStats(documents: Outcome<seq<Document>>, history: Outcome<seq<ChatHistoryItem>>)
      modifies this
      ensures !isLoading
      ensures documents.Resolved? ==> stats == Some(ComputeStats(documents.value, history))
      ensures documents.Rejected? ==> stats == old(stats)
    {
      if documents.Resolved? {
        stats := Some(ComputeStats(documents.value, history));
      }
      isLoading := false;
    }

    /** `handleUploadComplete`: the document and chunk counters are
        recomputed from a fresh listing, the chat counter is kept, and absent
        counters stay absent. A failed listing is not caught there, so
        nothing changes. */
    method HandleUploadComplete(documents: Outcome<seq<Document>>)
      modifies this`stats
      ensures documents.Rejected? || old(stats).None? ==> stats == old(stats)
      ensures documents.Resolved? && old(stats).Some? ==>
        stats == Some(Stats(|documents.value|, TotalChunks(documents.value), old(stats).value.totalChats))
    {
      if documents.Resolved? && stats.Some? {
        stats := Some(stats.value.(totalDocuments := |documents.value|, totalChunks := TotalChunks(documents.value)));
      }
    }
  }
}
