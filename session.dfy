/** The chat session: the mode chosen with the radio button, the message
    history kept across reruns, what one submitted question appends to it,
    and how a rerun replays the history on screen. */
module Chat {
  import opened Util
  import opened Retrieval
  import opened Labels
  import opened Answers

  /** The two values of the answer-mode radio button, labelled
      "社内文書検索" (document search) and "社内問い合わせ" (contact). */
  datatype Mode = DocumentSearchMode | ContactMode

  /** One entry of the message history, tagged by its role. */
  datatype Message = User(text: string) | Assistant(content: Content)

  /** What the retrieval chain returns for a question: the generated answer
      and the ranked source documents. */
  datatype ChainResult = ChainResult(answer: string, sourceDocuments: seq<Document>)

  /** How a submission ends: the input was empty, both turns were appended,
      or document search met an empty document list and stopped after the
      user turn, where main.py indexes the first document without a guard. */
  datatype Outcome = NoInput | Answered | Stopped

  /** The messages one submission of `query` appends, given the mode and the
      chain's result. */
  function TurnMessages(mode: Mode, query: string, result: ChainResult): (turns: seq<Message>)
    ensures |turns| <= 2
    ensures query == "" <==> turns == []
    ensures turns != [] ==> turns[0] == User(query)
  {
    if query == "" then []
    else
      match mode
      case DocumentSearchMode =>
        if result.sourceDocuments == [] then [User(query)]
        else [User(query), Assistant(DocumentSearchContent(result.sourceDocuments))]
      case ContactMode =>
        [User(query), Assistant(ContactContent(result.answer, result.sourceDocuments))]
  }

  /** Every assistant message answers the user message right before it. */
  ghost predicate WellFormed(history: seq<Message>)
  {
    forall i :: 0 <= i < |history| && history[i].Assistant? ==> 0 < i && history[i - 1].User?
  }

  /** A submission keeps the history well formed, starts with the user's
      question, and appends an assistant turn of the selected mode's kind
      exactly when it does not stop early. */
  lemma TurnMessagesShape(history: seq<Message>, mode: Mode, query: string, result: ChainResult)
    requires WellFormed(history)
    ensures WellFormed(history + TurnMessages(mode, query, result))
    ensures query == "" <==> TurnMessages(mode, query, result) == []
    ensures query != "" ==> TurnMessages(mode, query, result)[0] == User(query)
    ensures query != "" ==>
      (|TurnMessages(mode, query, result)| == 2 <==> mode == ContactMode || result.sourceDocuments != [])
    ensures |TurnMessages(mode, query, result)| == 2 ==>
      TurnMessages(mode, query, result)[1].Assistant? &&
      (TurnMessages(mode, query, result)[1].content.DocumentSearch? <==> mode == DocumentSearchMode)
  {
    var t := TurnMessages(mode, query, result);
    var h := history + t;
    forall i | 0 <= i < |h| && h[i].Assistant?
      ensures 0 < i && h[i - 1].User?
    {
      if i >= |history| {
        assert h[i] == t[i - |history|];
        assert i - |history| == 1;
      }
    }
  }

  /** The role of a `st.chat_message` container. */
  datatype Role = UserRole | AssistantRole

  /** What the page shows, one element call at a time; `ChatBubble` opens the
      chat-message container of a role, and the elements after it are drawn
      inside it. */
  datatype Display =
    | ChatBubble(role: Role)
    | Markdown(text: string)
    | Success(text: string)
    | Info(text: string)
    | Divider

  function RoleOf(m: Message): Role
  {
    if m.User? then UserRole else AssistantRole
  }

  function CandidateInfos(subs: seq<Candidate>): (r: seq<Display>)
    ensures |r| == |subs|
    ensures forall k :: 0 <= k < |subs| ==> r[k] == Info(PageLabel(subs[k].source, subs[k].page))
  {
    seq(|subs|, k requires 0 <= k < |subs| => Info(PageLabel(subs[k].source, subs[k].page)))
  }

  function PathInfos(paths: seq<string>): (r: seq<Display>)
    ensures |r| == |paths|
    ensures forall k :: 0 <= k < |paths| ==> r[k] == Info(paths[k])
  {
    seq(|paths|, k requires 0 <= k < |paths| => Info(paths[k]))
  }

  /** How a rerun replays one history entry. */
  function RenderMessage(m: Message): (r: seq<Display>)
    ensures |r| > 1 && r[0] == ChatBubble(RoleOf(m))
    ensures forall k :: 1 <= k < |r| ==> !r[k].ChatBubble?
    ensures m.User? ==> r == [ChatBubble(UserRole), Markdown(m.text)]
    ensures m.Assistant? && m.content.DocumentSearch? ==> r[1] == Markdown(m.content.mainMessage)
    ensures m.Assistant? && m.content.Contact? ==> r[1] == Markdown(m.content.answer)
  {
    match m
    case User(text) => [ChatBubble(UserRole), Markdown(text)]
    case Assistant(DocumentSearch(mainMessage, mainChoice, mainPage, subMessage, subChoices)) =>
      [ChatBubble(AssistantRole), Markdown(mainMessage), Success(PageLabel(mainChoice, mainPage))] +
      (if subMessage != "" then [Markdown(subMessage)] + CandidateInfos(subChoices) else [])
    case Assistant(Contact(answer, message, filePaths)) =>
      [ChatBubble(AssistantRole), Markdown(answer)] +
      (if message != "" then [Divider, Markdown(message)] + PathInfos(filePaths) else [])
  }

  /** The replay of each history entry, in history order. */
  function MessageBlocks(history: seq<Message>): (r: seq<seq<Display>>)
    ensures |r| == |history|
    ensures forall i :: 0 <= i < |history| ==> r[i] == RenderMessage(history[i])
  {
    seq(|history|, i requires 0 <= i < |history| => RenderMessage(history[i]))
  }

  lemma MessageBlocksAppend(a: seq<Message>, b: seq<Message>)
    ensures MessageBlocks(a + b) == MessageBlocks(a) + MessageBlocks(b)
  {
  }

  /** A rerun replays the whole history in order. */
  function RenderHistory(history: seq<Message>): (r: seq<Display>)
    ensures |r| >= |history|
  {
    FlattenLength(MessageBlocks(history));
    Flatten(MessageBlocks(history))
  }

  /** Replaying a longer history first shows everything the shorter one
      showed, then the new entries. */
  lemma RenderHistoryAppend(a: seq<Message>, b: seq<Message>)
    ensures RenderHistory(a + b) == RenderHistory(a) + RenderHistory(b)
  {
    MessageBlocksAppend(a, b);
    FlattenAppend(MessageBlocks(a), MessageBlocks(b));
  }

  /** Replaying after one more entry shows that entry's elements last. */
  lemma RenderHistorySnoc(history: seq<Message>, m: Message)
    ensures RenderHistory(history + [m]) == RenderHistory(history) + RenderMessage(m)
  {
    MessageBlocksAppend(history, [m]);
    FlattenAppend(MessageBlocks(history), MessageBlocks([m]));
    FlattenSnoc([], RenderMessage(m));
    assert MessageBlocks([m]) == [] + [RenderMessage(m)];
  }

  lemma RenderSearchContent(c: Content)
    requires c.DocumentSearch?
    ensures RenderMessage(Assistant(c)) ==
      [ChatBubble(AssistantRole), Markdown(c.mainMessage), Success(PageLabel(c.mainChoice, c.mainPage))] +
      (if c.subMessage != "" then [Markdown(c.subMessage)] + CandidateInfos(c.subChoices) else [])
  {
  }

  /** A replayed document-search turn shows the main message, the main
      choice's label (with the fallback text exactly when the first
      document has no page), and, only when there are sub-choices, the
      second message and one label per sub-choice. */
  lemma RenderDocumentSearchTurn(docs: seq<Document>)
    requires |docs| > 0
    ensures RenderMessage(Assistant(DocumentSearchContent(docs))) ==
      [ChatBubble(AssistantRole), Markdown(MAIN_MESSAGE), Success(PageLabel(docs[0].source, docs[0].page))] +
      (if DocumentSearchContent(docs).subChoices == [] then []
       else [Markdown(SUB_MESSAGE)] + CandidateInfos(DocumentSearchContent(docs).subChoices))
    ensures EndsWith(RenderMessage(Assistant(DocumentSearchContent(docs)))[2].text, FALLBACK_SUFFIX)
      <==> docs[0].page.None?
  {
    var c := DocumentSearchContent(docs);
    RenderSearchContent(c);
    PageLabelFallback(docs[0].source, docs[0].page);
  }

  /** A replayed contact turn shows the answer and, when any document was
      retrieved, a divider, the heading and each cited file once. */
  lemma RenderContactTurn(answer: string, docs: seq<Document>)
    ensures RenderMessage(Assistant(ContactContent(answer, docs))) ==
      [ChatBubble(AssistantRole), Markdown(answer)] +
      (if docs == [] then [] else [Divider, Markdown(SOURCES_HEADING)] + PathInfos(Dedup(Sources(docs))))
  {
    if docs != [] {
      assert docs[0].source in Sources(docs);
    }
  }

  /** The session state: the history starts empty and is only appended to. */
  class Session {
    var messages: seq<Message>
    var mode: Mode

    ghost predicate Valid()
      reads this
    {
      WellFormed(messages)
    }

    constructor (mode: Mode)
      ensures Valid() && messages == [] && this.mode == mode
    {
      messages := [];
      this.mode := mode;
    }

    /** The radio button sets the mode on every rerun. */
    method SelectMode(m: Mode)
      requires Valid()
      modifies this
      ensures Valid() && mode == m && messages == old(messages)
    {
      mode := m;
    }

    /** Handles one chat input: nothing for an empty input; otherwise the
        user turn, then the assistant turn the current mode builds from the
        chain's result. */
    method Submit(query: string, result: ChainResult) returns (outcome: Outcome)
      requires Valid()
      modifies this
      ensures Valid() && mode == old(mode)
      ensures messages == old(messages) + TurnMessages(mode, query, result)
      ensures outcome == NoInput <==> query == ""
      ensures outcome == Stopped <==>
        query != "" && mode == DocumentSearchMode && result.sourceDocuments == []
    {
      TurnMessagesShape(messages, mode, query, result);
      if query == "" {
        return NoInput;
      }
      messages := messages + [User(query)];
      var docs := result.sourceDocuments;
      match mode {
        case DocumentSearchMode =>
          if |docs| == 0 {
            return Stopped;
          }
          var content := BuildDocumentSearch(docs);
          messages := messages + [Assistant(content)];
        case ContactMode =>
          var content := BuildContact(result.answer, docs);
          messages := messages + [Assistant(content)];
      }
      outcome := Answered;
    }
  }
}
