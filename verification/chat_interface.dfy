// The chat panel's session state (frontend/src/components/ChatInterface.tsx).
//
// The message list is bootstrapped once from the stored history, one
// question/answer pair per record. A submit appends the user's message
// before the request is sent and, if the request resolves, one assistant
// message after it. The awaited request splits a submit into two steps:
// `BeginSubmit` (everything before the `await`) and `Settle` (everything
// after it, including the `finally`).

module ChatInterface {
  import opened Common
  import opened ApiTypes

  datatype Role = UserRole | AssistantRole

  datatype Message = Message(
    id: string,
    role: Role,
    content: string,
    sources: Option<seq<SourceRef>>,
    timestamp: Timestamp)

  const FailureToastTitle: string := "Failed to get response"

  /** The user message a history record expands to. */
  function QuestionMessage(item: ChatHistoryItem): Message
  {
    Message("q-" + item.timestamp, UserRole, item.question, None, item.timestamp)
  }

  /** The assistant message a history record expands to. */
  function AnswerMessage(item: ChatHistoryItem): Message
  {
    Message("a-" + item.timestamp, AssistantRole, item.answer, Some(item.sources), item.timestamp)
  }

  /** The messages a history expands to, in history order. */
  function Expand(history: seq<ChatHistoryItem>): (r: seq<Message>)
    ensures |r| == 2 * |history|
  {
    if history == [] then []
    else
      var last := history[|history| - 1];
      Expand(history[..|history| - 1]) + [QuestionMessage(last), AnswerMessage(last)]
  }

  /** Record k of the history becomes messages 2k (the question) and 2k+1
      (the answer): pairs stay adjacent, user first, and the history order
      is kept as it arrives. */
  lemma {:induction false} ExpandPairs(history: seq<ChatHistoryItem>, k: nat)
    requires k < |history|
    ensures Expand(history)[2 * k] == QuestionMessage(history[k])
    ensures Expand(history)[2 * k + 1] == AnswerMessage(history[k])
    decreases |history|
  {
    var n := |history|;
    if k < n - 1 {
      ExpandPairs(history[..n - 1], k);
    }
  }

  /** The expanded messages alternate user, assistant, user, ... */
  lemma ExpandAlternates(history: seq<ChatHistoryItem>, i: nat)
    requires i < |Expand(history)|
    ensures Expand(history)[i].role == (if i % 2 == 0 then UserRole else AssistantRole)
  {
    ExpandPairs(history, i / 2);
  }

  /** The submit guard: `!input.trim() || isLoading` returns early. */
  predicate CanSubmit(input: string, isLoading: bool): (r: bool)
    ensures isLoading ==> !r
    ensures Blank(input) ==> !r
  {
    TrimEmptyIffBlank(input);
    Trim(input) != "" && !isLoading
  }

  /** A submit proceeds exactly when no request is in flight and the input
      holds some character that is not white space. */
  lemma CanSubmitIff(input: string, isLoading: bool)
    ensures CanSubmit(input, isLoading) <==> !isLoading && !Blank(input)
  {
    TrimEmptyIffBlank(input);
  }

  /** The request body: the query is scoped to the selected documents only
      when at least one is selected. */
  function QueryFor(content: string, selectedDocIds: seq<string>): (r: ChatQuery)
    ensures r.message == content
    ensures r.documentIds.Some? <==> |selectedDocIds| > 0
    ensures r.documentIds.Some? ==> r.documentIds.value == selectedDocIds
  {
    ChatQuery(content, if |selectedDocIds| > 0 then Some(selectedDocIds) else None)
  }

  /** The assistant message appended when a query resolves. */
  function ReplyMessage(response: ChatResponse, clockMillis: string): (r: Message)
    ensures r.role == AssistantRole && r.content == response.answer
    ensures r.sources == Some(response.sources) && r.timestamp == response.timestamp
    ensures StartsWith(r.id, "assistant-")
  {
    Message("assistant-" + clockMillis, AssistantRole, response.answer, Some(response.sources), response.timestamp)
  }

  class ChatSession {
    var messages: seq<Message>
    var input: string
    var isLoading: bool
    var selectedDocIds: seq<string>

    constructor ()
      ensures messages == [] && input == "" && !isLoading && selectedDocIds == []
    {
      messages, input, isLoading, selectedDocIds := [], "", false, [];
    }

    /** `loadHistory`: on success the list becomes the expanded history; a
        failure changes nothing and shows no toast. */
    method LoadHistory(outcome: Outcome<seq<ChatHistoryItem>>)
      modifies this`messages
      ensures outcome.Resolved? ==> messages == Expand(outcome.value)
      ensures outcome.Rejected? ==> messages == old(messages)
    {
      if outcome.Rejected? {
        return;
      }
      var history := outcome.value;
      var formatted: seq<Message> := [];
      var i := 0;
      while i < |history|
        invariant 0 <= i <= |history|
        invariant formatted == Expand(history[..i])
      {
        assert history[..i + 1][..i] == history[..i];
        formatted := formatted + [QuestionMessage(history[i])];
        formatted := formatted + [AnswerMessage(history[i])];
        i := i + 1;
      }
      assert history[..|history|] == history;
      messages := formatted;
    }

    /** The textarea's change handler. */
    method SetInput(text: string)
      modifies this`input
      ensures input == text
    {
      input := text;
    }

    /** The document selector's callback (`onDocumentSelect`). */
    method SetSelectedDocIds(ids: seq<string>)
      modifies this`selectedDocIds
      ensures selectedDocIds == ids
    {
      selectedDocIds := ids;
    }

    /** `handleSubmit` up to the awaited request. Nothing happens when the
        guard fails; otherwise the trimmed input is appended as a user
        message, the input is cleared, a request is marked in flight, and the
        request to send is returned. `clockMillis` and `now` are the two clock
        readings (`Date.now()`, `new Date()`). */
    method BeginSubmit(clockMillis: string, now: Timestamp) returns (request: Option<ChatQuery>)
      modifies this`messages, this`input, this`isLoading
      ensures !CanSubmit(old(input), old(isLoading)) ==>
        request == None && messages == old(messages) && input == old(input) && isLoading == old(isLoading)
      ensures CanSubmit(old(input), old(isLoading)) ==>
        && messages == old(messages) + [Message("user-" + clockMillis, UserRole, Trim(old(input)), None, now)]
        && input == "" && isLoading
        && request == Some(QueryFor(Trim(old(input)), selectedDocIds))
    {
      if !CanSubmit(input, isLoading) {
        return None;
      }
      var userMessage := Message("user-" + clockMillis, UserRole, Trim(input), None, now);
      messages := messages + [userMessage];
      input := "";
      isLoading := true;
      request := Some(QueryFor(userMessage.content, selectedDocIds));
    }

    /** `handleSubmit` after the awaited request: one assistant message on
        success, a toast and no message on failure; in both cases the user
        message stays and the in-flight flag is cleared. */
    method Settle(outcome: Outcome<ChatResponse>, clockMillis: string) returns (failureToast: bool)
      modifies this`messages, this`isLoading
      ensures !isLoading
      ensures failureToast <==> outcome.Rejected?
      ensures outcome.Resolved? ==> messages == old(messages) + [ReplyMessage(outcome.value, clockMillis)]
      ensures outcome.Rejected? ==> messages == old(messages)
    {
      failureToast := false;
      match outcome {
        case Resolved(response) =>
          messages := messages + [ReplyMessage(response, clockMillis)];
        case Rejected(_) =>
          failureToast := true;
      }
      isLoading := false;
    }
  }

  /** A submit made while a request is in flight changes nothing: at most
      one question is awaiting its answer at any time. */
  method SubmitWhileInFlight(session: ChatSession, clockMillis: string, now: Timestamp, text: string)
    returns (first: Option<ChatQuery>, second: Option<ChatQuery>)
    requires !session.isLoading
    modifies session
    ensures first.Some? && second.None?
    ensures |session.messages| == |old(session.messages)| + 1
  {
    var question := "What is X?";
    session.SetInput(question);
    assert !Blank(question) by { assert question[0] == 'W' && !IsJsSpace(question[0]); }
    CanSubmitIff(question, false);
    first := session.BeginSubmit(clockMillis, now);
    assert session.isLoading;
    session.SetInput(text);
    second := session.BeginSubmit(clockMillis, now);
  }
}
