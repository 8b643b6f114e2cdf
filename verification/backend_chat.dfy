// The server's chat endpoints (backend/app/api/chat.py) over an in-memory
// chat_history collection. A query asks the retrieval pipeline for an
// answer and records the exchange; the history endpoint lists a user's
// exchanges newest first, at most `limit` of them.
//
// Clock readings and the ObjectId the database assigns on insert are
// parameters; `render` is `str` on an ObjectId.

module ChatApi {
  import opened Common
  import opened Http
  import Rag

  const QueryErrorPrefix: string := "Error processing query: "
  const DefaultHistoryLimit: int := 50

  datatype ChatRequest = ChatRequest(message: string, documentIds: Option<seq<string>>)
  datatype ChatResponse = ChatResponse(answer: string, sources: seq<string>, timestamp: int)
  /** A stored exchange; `oid` stands for the database's ObjectId. */
  datatype ChatEntry = ChatEntry(oid: nat, userId: string, question: string, answer: string,
                                 sources: seq<string>, documentIds: Option<seq<string>>, timestamp: int)
  /** An exchange as the history endpoint returns it, with its id as a string. */
  datatype HistoryItem = HistoryItem(id: string, userId: string, question: string, answer: string,
                                     sources: seq<string>, documentIds: Option<seq<string>>, timestamp: int)

  // ---------------------------------------------------------------
  // Selecting and ordering a user's history
  // ---------------------------------------------------------------

  /** `find({"user_id": user})`. */
  function OwnedBy(entries: seq<ChatEntry>, user: string): (r: seq<ChatEntry>)
    ensures |r| <= |entries|
    ensures forall e :: e in r <==> e in entries && e.userId == user
    ensures multiset(r) <= multiset(entries)
  {
    if entries == [] then []
    else
      assert entries == [entries[0]] + entries[1..];
      (if entries[0].userId == user then [entries[0]] else []) + OwnedBy(entries[1..], user)
  }

  predicate NewestFirstOrder(s: seq<ChatEntry>)
  {
    forall i, j :: 0 <= i < j < |s| ==> s[i].timestamp >= s[j].timestamp
  }

  /** The tail and every prefix of an ordered list are ordered, and a
      prefix holds some of its entries. */
  lemma OrderedParts(s: seq<ChatEntry>, k: nat)
    requires NewestFirstOrder(s) && k <= |s|
    ensures NewestFirstOrder(s[..k]) && multiset(s[..k]) <= multiset(s)
    ensures s != [] ==> NewestFirstOrder(s[1..])
  {
    assert s == s[..k] + s[k..];
  }

  /** An entry at least as new as the head of an ordered list may go first. */
  lemma OrderedCons(x: ChatEntry, t: seq<ChatEntry>)
    requires NewestFirstOrder(t)
    requires t != [] ==> x.timestamp >= t[0].timestamp
    ensures NewestFirstOrder([x] + t)
  {
    forall i, j | 0 <= i < j < |[x] + t|
      ensures ([x] + t)[i].timestamp >= ([x] + t)[j].timestamp
    {
      if i == 0 {
        assert x.timestamp >= t[0].timestamp >= t[j - 1].timestamp;
      }
    }
  }

  /** Inserting into a list ordered newest first keeps it so ordered. */
  function Insert(e: ChatEntry, s: seq<ChatEntry>): (r: seq<ChatEntry>)
    requires NewestFirstOrder(s)
    ensures multiset(r) == multiset(s) + multiset{e}
    ensures NewestFirstOrder(r)
  {
    if s == [] || e.timestamp >= s[0].timestamp then
      OrderedCons(e, s);
      [e] + s
    else
      OrderedParts(s, 0);
      var rest := Insert(e, s[1..]);
      assert s == [s[0]] + s[1..];
      assert rest[0] in multiset(s[1..]) + multiset{e};
      assert rest[0].timestamp <= s[0].timestamp by {
        if rest[0] != e {
          assert rest[0] in s[1..];
        }
      }
      OrderedCons(s[0], rest);
      [s[0]] + rest
  }

  /** `sort("timestamp", -1)`: the same entries, newest first. Entries with
      equal timestamps may come in any order in the database; this model
      fixes one. */
  function SortNewestFirst(s: seq<ChatEntry>): (r: seq<ChatEntry>)
    ensures multiset(r) == multiset(s)
    ensures NewestFirstOrder(r)
  {
    if s == [] then []
    else
      assert s == [s[0]] + s[1..];
      Insert(s[0], SortNewestFirst(s[1..]))
  }

  /** The entries the history endpoint returns, before their ids are
      rendered: the user's entries, newest first, cut to `limit`. */
  function Newest(entries: seq<ChatEntry>, user: string, limit: nat): (r: seq<ChatEntry>)
    ensures |r| == Min(limit, |OwnedBy(entries, user)|)
  {
    var sorted := SortNewestFirst(OwnedBy(entries, user));
    assert |sorted| == |multiset(sorted)| == |OwnedBy(entries, user)|;
    sorted[..Min(limit, |sorted|)]
  }

  /** The listed entries belong to the user, come newest first and are drawn
      from the stored ones. */
  lemma NewestIsOwnedAndOrdered(entries: seq<ChatEntry>, user: string, limit: nat)
    ensures NewestFirstOrder(Newest(entries, user, limit))
    ensures multiset(Newest(entries, user, limit)) <= multiset(entries)
    ensures forall e :: e in Newest(entries, user, limit) ==> e.userId == user
  {
    var owned := OwnedBy(entries, user);
    var sorted := SortNewestFirst(owned);
    var k := Min(limit, |sorted|);
    OrderedParts(sorted, k);
    forall e | e in sorted[..k]
      ensures e.userId == user
    {
      assert e in multiset(owned);
    }
  }

  /** None of the user's entries left out is newer than one listed. */
  lemma NewestAreTheNewest(entries: seq<ChatEntry>, user: string, limit: nat, e: ChatEntry)
    requires e in entries && e.userId == user
    requires e !in Newest(entries, user, limit)
    ensures forall x :: x in Newest(entries, user, limit) ==> x.timestamp >= e.timestamp
  {
    var sorted := SortNewestFirst(OwnedBy(entries, user));
    var k := Min(limit, |sorted|);
    assert e in multiset(sorted);
    var j :| 0 <= j < |sorted| && sorted[j] == e;
    forall i | 0 <= i < k
      ensures sorted[i] != e
    {
      assert sorted[i] == sorted[..k][i];
    }
    forall x | x in sorted[..k]
      ensures x.timestamp >= e.timestamp
    {
      var i :| 0 <= i < k && sorted[..k][i] == x;
    }
  }

  /** An exchange newer than all of the user's others is listed first. */
  lemma {:induction false} StrictlyNewestListedFirst(entries: seq<ChatEntry>, e: ChatEntry, limit: nat)
    requires limit > 0
    requires forall x :: x in entries && x.userId == e.userId ==> x.timestamp < e.timestamp
    ensures Newest(entries + [e], e.userId, limit)[0] == e
  {
    var all := entries + [e];
    var owned := OwnedBy(all, e.userId);
    var sorted := SortNewestFirst(owned);
    HeadOfOrdered(sorted, owned, e);
    var head := sorted[0];
    assert head in all && head.userId == e.userId;
    assert head !in entries;
    assert Newest(all, e.userId, limit)[0] == head;
  }

  /** The head of a newest-first arrangement of some entries is one of them
      and is at least as new as any of them. */
  lemma HeadOfOrdered(sorted: seq<ChatEntry>, owned: seq<ChatEntry>, e: ChatEntry)
    requires multiset(sorted) == multiset(owned) && NewestFirstOrder(sorted) && e in owned
    ensures |sorted| > 0 && sorted[0] in owned && sorted[0].timestamp >= e.timestamp
  {
    assert e in multiset(sorted);
    var j :| 0 <= j < |sorted| && sorted[j] == e;
    assert sorted[0] in multiset(owned);
  }

  /** The record returned for a stored entry. */
  function AsItem(e: ChatEntry, render: nat -> string): (r: HistoryItem)
    ensures r.id == render(e.oid)
    ensures r.userId == e.userId && r.question == e.question && r.answer == e.answer
    ensures r.sources == e.sources && r.documentIds == e.documentIds && r.timestamp == e.timestamp
  {
    HistoryItem(render(e.oid), e.userId, e.question, e.answer, e.sources, e.documentIds, e.timestamp)
  }

  // ---------------------------------------------------------------
  // The collection
  // ---------------------------------------------------------------

  class ChatStore {
    var entries: seq<ChatEntry>

    constructor ()
      ensures entries == []
    {
      entries := [];
    }

    /** `chat_query`, given what the retrieval pipeline did: an answer is
        recorded as exactly one new entry and returned; an exception records
        nothing and becomes a 500 carrying its message. */
    method Query(user: string, request: ChatRequest, rag: Rag.QueryOutcome, oid: nat, storedAt: int, respondedAt: int)
      returns (r: Result<ChatResponse>)
      modifies this
      ensures rag.Raised? ==>
                entries == old(entries) && r == Err(HttpError(InternalServerError, QueryErrorPrefix + rag.message))
      ensures rag.Answered? ==>
                && entries == old(entries) + [ChatEntry(oid, user, request.message, rag.answer, rag.sources, request.documentIds, storedAt)]
                && r == Ok(ChatResponse(rag.answer, rag.sources, respondedAt))
    {
      match rag {
        case Raised(message) =>
          r := Err(HttpError(InternalServerError, QueryErrorPrefix + message));
        case Answered(answer, sources) =>
          entries := entries + [ChatEntry(oid, user, request.message, answer, sources, request.documentIds, storedAt)];
          r := Ok(ChatResponse(answer, sources, respondedAt));
      }
    }

    /** `get_chat_history`: the user's newest `limit` exchanges, newest first,
        each with its ObjectId rendered as a string. */
    method History(user: string, limit: int, render: nat -> string) returns (history: seq<HistoryItem>)
      requires limit > 0
      ensures |history| == Min(limit, |OwnedBy(entries, user)|)
      ensures forall k :: 0 <= k < |history| ==> history[k] == AsItem(Newest(entries, user, limit)[k], render)
      ensures forall k :: 0 <= k < |history| ==> history[k].userId == user
      ensures forall i, j :: 0 <= i < j < |history| ==> history[i].timestamp >= history[j].timestamp
    {
      var selected := Newest(entries, user, limit);
      history := RenderIds(selected, render);
      NewestIsOwnedAndOrdered(entries, user, limit);
      forall k | 0 <= k < |history|
        ensures history[k].userId == user
      {
        assert selected[k] in selected;
      }
    }
  }

  /** The loop that replaces each ObjectId by its string form, in place. */
  method RenderIds(selected: seq<ChatEntry>, render: nat -> string) returns (items: seq<HistoryItem>)
    ensures |items| == |selected|
    ensures forall k :: 0 <= k < |items| ==> items[k] == AsItem(selected[k], render)
    ensures NewestFirstOrder(selected) ==> forall i, j :: 0 <= i < j < |items| ==> items[i].timestamp >= items[j].timestamp
  {
    items := [];
    var i := 0;
    while i < |selected|
      invariant 0 <= i <= |selected|
      invariant |items| == i
      invariant forall k :: 0 <= k < i ==> items[k] == AsItem(selected[k], render)
    {
      items := items + [AsItem(selected[i], render)];
      i := i + 1;
    }
  }

  /** A pipeline error keeps the history unchanged; a successful query
      that is the user's newest exchange heads the next listing. */
  method AskThenList(store: ChatStore, user: string, request: ChatRequest, rag: Rag.QueryOutcome,
                     oid: nat, storedAt: int, respondedAt: int, render: nat -> string)
    returns (response: Result<ChatResponse>, history: seq<HistoryItem>)
    requires forall x :: x in store.entries && x.userId == user ==> x.timestamp < storedAt
    modifies store
    ensures response.Ok? <==> rag.Answered?
    ensures rag.Answered? ==> |history| > 0 && history[0].question == request.message && history[0].answer == rag.answer
  {
    response := store.Query(user, request, rag, oid, storedAt, respondedAt);
    if rag.Answered? {
      var e := ChatEntry(oid, user, request.message, rag.answer, rag.sources, request.documentIds, storedAt);
      StrictlyNewestListedFirst(old(store.entries), e, DefaultHistoryLimit);
      assert e in OwnedBy(store.entries, user);
    }
    history := store.History(user, DefaultHistoryLimit, render);
  }
}
