/**
 The chat routes: listing and reading chats, creating a chat behind the
 daily quota, and the two conversation turns — submitting the research
 topic and answering the clarifying questions, the last answer triggering
 research generation by both providers.

 Every handler is a function from the database, the authenticated user and
 the request to the new database and the response. Provider replies and
 the clock are inputs.
 */
module ChatRoutes {
  import opened Js
  import opened Text
  import opened Store
  import OpenAIService
  import GeminiService

  const ChatNotFound := "Chat not found"
  const UserNotFound := "User not found"
  const ChatClosedError := "This chat is completed or has an error. Please start a new chat."
  const DefaultTitle := "New Chat"
  const FallbackReply := "I'm not able to find the answer right now. Please try again."
  const FallbackTitle := "Research Topic..."
  const AcknowledgmentText := "Thank you for" + " your answer." + " Please answer" + " the next" + " question."
  /**
   The fixed first and last paragraphs of the questions message, written as
   short phrases so that their characters stay within the verifier's reach;
   the concatenations spell the two paragraphs exactly.
   */
  const QuestionsIntro := "I'd like to help you" + " refine your research" + " topic. To provide you" + " with the most"
    + " relevant research" + " guidance, I have a" + " few clarifying" + " questions:"
  const QuestionsOutro := "Please answer these" + " questions one by one," + " and I'll create a" + " comprehensive"
    + " research plan for" + " you."
  /** The headings that label each provider's research page, followed by a blank line. */
  const OpenAIHeading := "## ChatGPT (OpenAI) Research"
  const GeminiHeading := "## Gemini (Google) Research"
  const OpenAILabel := OpenAIHeading + "\n\n"
  const GeminiLabel := GeminiHeading + "\n\n"

  datatype Body =
    | Failure(error: string)
    | ChatListing(chats: seq<Chat>)
    | ChatInfo(chat: Chat)
    | MessageListing(messages: seq<Message>)
    | ChatCreated(chat: Chat)
    | ClarifyingQuestions(response: string, questions: seq<string>, title: string)
    | Degraded(response: string, fallbackTitle: Option<string>)
    | Acknowledged(response: string)
    | ResearchPages(openaiResearch: string, geminiResearch: Option<string>)

  datatype Response = Response(status: nat, body: Body)

  datatype Outcome = Outcome(db: Db, response: Response)

  function NotFound(db: Db): Outcome {
    Outcome(db, Response(404, Failure(ChatNotFound)))
  }

  /** The chat a request may act on: it exists and the caller owns it. */
  function OwnedChat(db: Db, userId: nat, chatId: nat): (r: Option<Chat>)
    ensures r.Some? <==> FindChat(db, chatId).Some? && FindChat(db, chatId).value.userId == userId
    ensures r.Some? ==> r == FindChat(db, chatId)
  {
    var c := FindChat(db, chatId);
    if c.Some? && c.value.userId == userId then c else None
  }

  // ---------------------------------------------------------------------
  // Reads
  // ---------------------------------------------------------------------

  /** `GET /`: the caller's chats, newest first. */
  function ListChats(db: Db, userId: nat): (r: Response)
    ensures r.status == 200 && r.body.ChatListing?
    ensures forall c :: c in r.body.chats ==> c.userId == userId
    ensures forall c :: c in db.chats && c.userId == userId ==> c in r.body.chats
    ensures forall i :: 0 <= i < |r.body.chats| ==> r.body.chats[i] in db.chats
    ensures Wf(db) ==> forall i, j :: 0 <= i < j < |r.body.chats| ==> r.body.chats[i].id > r.body.chats[j].id
  {
    var chats := FindChatsByUser(db, userId);
    assert Wf(db) ==> forall i, j :: 0 <= i < j < |chats| ==> chats[i].id > chats[j].id by {
      if Wf(db) { FindChatsByUserNewestFirst(db, userId); }
    }
    Response(200, ChatListing(chats))
  }

  /** `GET /:chatId`: 404 unless the chat exists and is the caller's. */
  function GetChat(db: Db, userId: nat, chatId: nat): (r: Response)
    ensures OwnedChat(db, userId, chatId).None? <==> r == Response(404, Failure("Chat not found"))
    ensures OwnedChat(db, userId, chatId).Some? ==> r == Response(200, ChatInfo(OwnedChat(db, userId, chatId).value))
  {
    match OwnedChat(db, userId, chatId)
    case None => Response(404, Failure(ChatNotFound))
    case Some(c) => Response(200, ChatInfo(c))
  }

  /** `GET /:chatId/messages`: the chat's messages, oldest first, after the ownership check. */
  function GetMessages(db: Db, userId: nat, chatId: nat): (r: Response)
    ensures OwnedChat(db, userId, chatId).None? <==> r == Response(404, Failure("Chat not found"))
    ensures OwnedChat(db, userId, chatId).Some? ==> r.status == 200 && r.body.MessageListing?
    ensures r.body.MessageListing? ==> forall m :: m in r.body.messages ==> m.chatId == chatId
    ensures r.body.MessageListing? ==> forall m :: m in db.messages && m.chatId == chatId ==> m in r.body.messages
    ensures r.body.MessageListing? ==> forall i :: 0 <= i < |r.body.messages| ==> r.body.messages[i] in db.messages
    ensures r.body.MessageListing? && Wf(db) ==>
      forall i, j :: 0 <= i < j < |r.body.messages| ==> r.body.messages[i].id < r.body.messages[j].id
  {
    if OwnedChat(db, userId, chatId).None? then Response(404, Failure(ChatNotFound))
    else
      var messages := MessagesOf(db, chatId);
      assert Wf(db) ==> forall i, j :: 0 <= i < j < |messages| ==> messages[i].id < messages[j].id by {
        if Wf(db) { MessagesOfOldestFirst(db, chatId); }
      }
      Response(200, MessageListing(messages))
  }

  // ---------------------------------------------------------------------
  // Chat creation behind the daily quota
  // ---------------------------------------------------------------------

  /** The limit literal the quota error message names. */
  function LimitInMessage(isPremium: bool): nat {
    if isPremium then 20 else 5
  }

  function QuotaError(limit: nat): string {
    "Daily chat limit reached. You can create " + NatToString(limit) + " chats per day."
  }

  /**
   `POST /`: 404 for an unknown user, 403 when today's quota is used up,
   otherwise one new open chat titled by the request ("New Chat" when the
   title is missing or empty) and today's count incremented once.
   */
  function CreateChat(db: Db, userId: nat, title: Option<string>, day: Day, now: nat): (o: Outcome)
    ensures FindUserById(db, userId).None? ==> o == Outcome(db, Response(404, Failure("User not found")))
    ensures FindUserById(db, userId).Some? && !CanCreateChat(db, userId, FindUserById(db, userId).value.isPremium, day) ==>
      var limit := if FindUserById(db, userId).value.isPremium then 20 else 5;
      o == Outcome(db, Response(403, Failure("Daily chat limit reached. You can create " + NatToString(limit) + " chats per day.")))
    ensures o.response.status == 200 <==>
      FindUserById(db, userId).Some? && CanCreateChat(db, userId, FindUserById(db, userId).value.isPremium, day)
    ensures o.response.status == 200 ==>
      var c := Chat(|db.chats| + 1, userId, if Truthy(title) then title.value else "New Chat", false, false, now);
      && o.db.chats == db.chats + [c]
      && o.response == Response(200, ChatCreated(c))
      && GetTodayCount(o.db, userId, day) == GetTodayCount(db, userId, day) + 1
      && (forall u: nat, d: Day :: (u, d) != (userId, day) ==> GetTodayCount(o.db, u, d) == GetTodayCount(db, u, d))
      && o.db.users == db.users && o.db.messages == db.messages
    ensures Wf(db) ==> Wf(o.db)
  {
    match FindUserById(db, userId)
    case None => Outcome(db, Response(404, Failure(UserNotFound)))
    case Some(user) =>
      if !CanCreateChat(db, userId, user.isPremium, day) then
        Outcome(db, Response(403, Failure(QuotaError(LimitInMessage(user.isPremium)))))
      else
        var (db1, chat) := Store.CreateChat(db, userId, Or(title, DefaultTitle), now);
        var (db2, _) := IncrementTodayCount(db1, userId, day);
        Outcome(db2, Response(200, ChatCreated(chat)))
  }

  // ---------------------------------------------------------------------
  // Research topic
  // ---------------------------------------------------------------------

  /** "{i+1}. q", the line listing question `i`. */
  function NumberedQuestion(i: nat, question: string): string {
    NatToString(i + 1) + ". " + question
  }

  function NumberedQuestions(questions: seq<string>): (r: seq<string>)
    ensures |r| == |questions|
    ensures forall i :: 0 <= i < |r| ==> r[i] == NumberedQuestion(i, questions[i])
  {
    seq(|questions|, i requires 0 <= i < |questions| => NumberedQuestion(i, questions[i]))
  }

  /** The assistant message that lists the clarifying questions. */
  function QuestionsText(questions: seq<string>): string {
    QuestionsIntro + "\n\n" + Join(NumberedQuestions(questions), "\n\n") + "\n\n" + QuestionsOutro
  }

  /**
   The guards every conversation turn runs first: 404 when the chat is
   missing or another user's, 400 when it is completed or errored. Neither
   writes anything.
   */
  function Guard(db: Db, userId: nat, chatId: nat): (r: Option<Response>)
    ensures r == Some(Response(404, Failure("Chat not found"))) <==> OwnedChat(db, userId, chatId).None?
    ensures r == Some(Response(400, Failure(ChatClosedError))) <==>
      OwnedChat(db, userId, chatId).Some? && Closed(OwnedChat(db, userId, chatId).value)
    ensures r.None? <==> OwnedChat(db, userId, chatId).Some? && !Closed(OwnedChat(db, userId, chatId).value)
  {
    match OwnedChat(db, userId, chatId)
    case None => Some(Response(404, Failure(ChatNotFound)))
    case Some(chat) => if Closed(chat) then Some(Response(400, Failure(ChatClosedError))) else None
  }

  /**
   The topic turn on an open chat: the topic as a user message, then, on
   generation success, the new title and one assistant message listing the
   questions, which are returned with the title.
   */
  function TopicAccepted(db: Db, chatId: nat, message: string, title: string, questions: seq<string>, now: nat): (o: Outcome)
    requires FindChat(db, chatId).Some?
    ensures var n := |db.messages|;
      var added := [Message(n + 1, chatId, message, true), Message(n + 2, chatId, QuestionsText(questions), false)];
      o.db.messages == db.messages + added && MessagesOf(o.db, chatId) == MessagesOf(db, chatId) + added
    ensures forall other :: other != chatId ==> MessagesOf(o.db, other) == MessagesOf(db, other)
    ensures FindChat(o.db, chatId) == Some(FindChat(db, chatId).value.(title := title, updatedAt := now))
    ensures |o.db.chats| == |db.chats| && forall other :: other != chatId ==> FindChat(o.db, other) == FindChat(db, other)
    ensures o.response == Response(200, ClarifyingQuestions(QuestionsText(questions), questions, title))
    ensures o.db.users == db.users && o.db.daily == db.daily
    ensures Wf(db) ==> Wf(o.db)
  {
    var m1 := Message(|db.messages| + 1, chatId, message, true);
    var db1 := AppendMessage(db, chatId, message, true);
    var db2 := UpdateTitle(db1, chatId, title, now);
    var text := QuestionsText(questions);
    var m2 := Message(|db.messages| + 2, chatId, text, false);
    var db3 := AppendMessage(db2, chatId, text, false);
    assert db3.messages == db.messages + [m1, m2];
    ListingAfterAppends(db, db3, chatId, [m1, m2]);
    Outcome(db3, Response(200, ClarifyingQuestions(text, questions, title)))
  }

  /**
   A turn that failed to generate: the user's message, then the fixed
   fallback reply, and the chat marked errored.
   */
  function TurnFailed(db: Db, chatId: nat, message: string, fallbackTitle: Option<string>, now: nat): (o: Outcome)
    requires FindChat(db, chatId).Some?
    ensures var n := |db.messages|;
      var added := [Message(n + 1, chatId, message, true), Message(n + 2, chatId, FallbackReply, false)];
      o.db.messages == db.messages + added && MessagesOf(o.db, chatId) == MessagesOf(db, chatId) + added
    ensures forall other :: other != chatId ==> MessagesOf(o.db, other) == MessagesOf(db, other)
    ensures FindChat(o.db, chatId) == Some(FindChat(db, chatId).value.(isCompleted := false, hasError := true, updatedAt := now))
    ensures |o.db.chats| == |db.chats| && forall other :: other != chatId ==> FindChat(o.db, other) == FindChat(db, other)
    ensures StateOf(FindChat(o.db, chatId).value) == Errored
    ensures o.response == Response(200, Degraded(FallbackReply, fallbackTitle))
    ensures o.db.users == db.users && o.db.daily == db.daily
    ensures Wf(db) ==> Wf(o.db)
  {
    var m1 := Message(|db.messages| + 1, chatId, message, true);
    var m2 := Message(|db.messages| + 2, chatId, FallbackReply, false);
    var db1 := AppendMessage(db, chatId, message, true);
    var db2 := AppendMessage(db1, chatId, FallbackReply, false);
    var db3 := MarkAsError(db2, chatId, now);
    assert db3.messages == db.messages + [m1, m2];
    ListingAfterAppends(db, db3, chatId, [m1, m2]);
    Outcome(db3, Response(200, Degraded(FallbackReply, fallbackTitle)))
  }

  /**
   `POST /:chatId/research-topic`. The guards write nothing. On an open
   chat the outcome is the accepted topic when generation succeeded, and
   otherwise the failed turn, which still answers with success and the
   title "Research Topic...".
   */
  function ResearchTopic(db: Db, userId: nat, chatId: nat, message: string,
                         completion: OpenAIService.TitleCompletion, now: nat): (o: Outcome)
    ensures Guard(db, userId, chatId).Some? ==> o == Outcome(db, Guard(db, userId, chatId).value)
    ensures Guard(db, userId, chatId).None? && completion.Parsed? ==>
      o == TopicAccepted(db, chatId, message, completion.title, completion.questions, now)
    ensures Guard(db, userId, chatId).None? && completion.NotParsed? ==>
      o == TurnFailed(db, chatId, message, Some("Research Topic..."), now)
  {
    match Guard(db, userId, chatId)
    case Some(rejection) => Outcome(db, rejection)
    case None =>
      var result := OpenAIService.GenerateTitleAndQuestions(completion);
      if result.success then TopicAccepted(db, chatId, message, result.title, result.questions, now)
      else TurnFailed(db, chatId, message, Some(FallbackTitle), now)
  }

  // ---------------------------------------------------------------------
  // Clarification answers and research generation
  // ---------------------------------------------------------------------

  /**
   The clarification request body. `questionIndex` and `totalQuestions`
   hold the number JavaScript converts each JSON value to for the
   comparison: `null`, `false`, the empty string and a string of only
   whitespace give 0, `true` gives 1, and a numeric string gives its
   value. They are None only when that conversion gives NaN (a missing
   field, or a string that is neither blank nor numeric), which makes the
   comparison false.
   */
  datatype AnswerRequest = AnswerRequest(
    message: string,
    questionIndex: Option<int>,
    totalQuestions: Option<int>,
    originalTopic: string,
    questions: Option<seq<string>>,
    answers: Option<seq<string>>)

  /**
   What the two concurrent provider calls produced, and whether the join of
   the two calls rejected (which leaves both results at `{success: false}`).
   The source never takes that path: the OpenAI call catches its own errors
   and returns a failure, and the Gemini call is wrapped in a `.catch`. The
   flag is kept so the route's try/catch around the join has its branch.
   */
  datatype ProviderCalls = ProviderCalls(
    openai: OpenAIService.Completion,
    geminiConfigured: bool,
    gemini: OpenAIService.Completion,
    joinRejected: bool)

  /** `questionIndex >= totalQuestions - 1`. */
  predicate IsLastAnswer(req: AnswerRequest) {
    req.questionIndex.Some? && req.totalQuestions.Some? && req.questionIndex.value >= req.totalQuestions.value - 1
  }

  /** The primary (OpenAI) research page, when that call settled with success. */
  function PrimaryPage(req: AnswerRequest, calls: ProviderCalls): (r: Option<string>)
    ensures r.Some? <==>
      !calls.joinRejected && calls.openai.Completed? && OpenAIService.QaContext(req.questions, req.answers).Some?
    ensures r.Some? ==> r.value == Trim(calls.openai.text)
  {
    if calls.joinRejected then None
    else
      match OpenAIService.GenerateResearchPage(req.originalTopic, req.questions, req.answers, calls.openai)
      case PageReady(page, _, _, _) => Some(page)
      case PageFailed(_) => None
  }

  /** The secondary (Gemini) page, when that call succeeded with a non-empty page. */
  function SecondaryPage(calls: ProviderCalls): (r: Option<string>)
    ensures r.Some? <==> !calls.joinRejected && calls.geminiConfigured && calls.gemini.Completed? && calls.gemini.text != ""
    ensures r.Some? ==> r.value == calls.gemini.text
  {
    if calls.joinRejected then None
    else
      match GeminiService.GenerateResearchPage(calls.geminiConfigured, calls.gemini)
      case GeminiPage(page) => if page != "" then Some(page) else None
      case GeminiFailed(_) => None
  }

  function Labeled(heading: string, page: string): string {
    heading + page
  }

  /** An answer before the last one: the answer, then the fixed acknowledgment; the chat is untouched. */
  function AnswerAcknowledged(db: Db, chatId: nat, message: string): (o: Outcome)
    ensures var n := |db.messages|;
      var added := [Message(n + 1, chatId, message, true), Message(n + 2, chatId, AcknowledgmentText, false)];
      o.db.messages == db.messages + added && MessagesOf(o.db, chatId) == MessagesOf(db, chatId) + added
    ensures forall other :: other != chatId ==> MessagesOf(o.db, other) == MessagesOf(db, other)
    ensures o.db.chats == db.chats && o.db.users == db.users && o.db.daily == db.daily
    ensures o.response == Response(200, Acknowledged(AcknowledgmentText))
    ensures Wf(db) ==> Wf(o.db)
  {
    var m1 := Message(|db.messages| + 1, chatId, message, true);
    var m2 := Message(|db.messages| + 2, chatId, AcknowledgmentText, false);
    var db1 := AppendMessage(db, chatId, message, true);
    var db2 := AppendMessage(db1, chatId, AcknowledgmentText, false);
    assert db2.messages == db.messages + [m1, m2];
    ListingAfterAppends(db, db2, chatId, [m1, m2]);
    Outcome(db2, Response(200, Acknowledged(AcknowledgmentText)))
  }

  /** The research pages posted by a completed turn: the primary page, then the secondary one when there is one. */
  function PagesPosted(chatId: nat, firstId: nat, primary: string, secondary: Option<string>): seq<Message> {
    [Message(firstId, chatId, primary, false)] + (if secondary.Some? then [Message(firstId + 1, chatId, secondary.value, false)] else [])
  }

  /**
   The message writes of a completed research turn: the answer, the primary
   page, then the secondary page only when there is one.
   */
  function PostPages(db: Db, chatId: nat, message: string, primary: string, secondary: Option<string>): (r: Db)
    ensures var added := [Message(|db.messages| + 1, chatId, message, true)] + PagesPosted(chatId, |db.messages| + 2, primary, secondary);
      r.messages == db.messages + added
    ensures r.users == db.users && r.chats == db.chats && r.daily == db.daily
    ensures Wf(db) ==> Wf(r)
  {
    var db1 := AppendMessage(db, chatId, message, true);
    var db2 := AppendMessage(db1, chatId, primary, false);
    if secondary.Some? then AppendMessage(db2, chatId, secondary.value, false) else db2
  }

  /**
   The last answer when the primary provider succeeded: the answer, the
   OpenAI-labelled page, then the Gemini-labelled page only when there is
   one, and the chat marked completed.
   */
  function ResearchCompleted(db: Db, chatId: nat, message: string, primary: string, secondary: Option<string>, now: nat): (o: Outcome)
    requires FindChat(db, chatId).Some?
    ensures var n := |db.messages|;
      var added := [Message(n + 1, chatId, message, true), Message(n + 2, chatId, OpenAILabel + primary, false)]
        + (if secondary.Some? then [Message(n + 3, chatId, GeminiLabel + secondary.value, false)] else []);
      o.db.messages == db.messages + added && MessagesOf(o.db, chatId) == MessagesOf(db, chatId) + added
    ensures forall other :: other != chatId ==> MessagesOf(o.db, other) == MessagesOf(db, other)
    ensures FindChat(o.db, chatId) == Some(FindChat(db, chatId).value.(isCompleted := true, hasError := false, updatedAt := now))
    ensures |o.db.chats| == |db.chats| && forall other :: other != chatId ==> FindChat(o.db, other) == FindChat(db, other)
    ensures StateOf(FindChat(o.db, chatId).value) == Completed
    ensures o.response == Response(200, ResearchPages(
      OpenAILabel + primary,
      if secondary.Some? then Some(GeminiLabel + secondary.value) else None))
    ensures o.db.users == db.users && o.db.daily == db.daily
    ensures Wf(db) ==> Wf(o.db)
  {
    var openaiLabeled := Labeled(OpenAILabel, primary);
    var geminiLabeled := if secondary.Some? then Some(Labeled(GeminiLabel, secondary.value)) else None;
    var db3 := PostPages(db, chatId, message, openaiLabeled, geminiLabeled);
    var db4 := MarkAsCompleted(db3, chatId, now);
    var n := |db.messages|;
    var added := [Message(n + 1, chatId, message, true), Message(n + 2, chatId, OpenAILabel + primary, false)]
      + (if secondary.Some? then [Message(n + 3, chatId, GeminiLabel + secondary.value, false)] else []);
    assert [Message(n + 1, chatId, message, true)] + PagesPosted(chatId, n + 2, openaiLabeled, geminiLabeled) == added;
    ListingAfterAppends(db, db4, chatId, added);
    Outcome(db4, Response(200, ResearchPages(openaiLabeled, geminiLabeled)))
  }

  /**
   `POST /:chatId/clarification-answer`. The guards write nothing. On an
   open chat an answer before the last is acknowledged; the last answer
   completes the research when the primary provider succeeded (with the
   secondary's page only when it has one) and otherwise fails the turn.
   */
  function ClarificationAnswer(db: Db, userId: nat, chatId: nat, req: AnswerRequest,
                               calls: ProviderCalls, now: nat): (o: Outcome)
    ensures Guard(db, userId, chatId).Some? ==> o == Outcome(db, Guard(db, userId, chatId).value)
    ensures Guard(db, userId, chatId).None? && !IsLastAnswer(req) ==>
      o == AnswerAcknowledged(db, chatId, req.message)
    ensures Guard(db, userId, chatId).None? && IsLastAnswer(req) && PrimaryPage(req, calls).Some? ==>
      o == ResearchCompleted(db, chatId, req.message, PrimaryPage(req, calls).value, SecondaryPage(calls), now)
    ensures Guard(db, userId, chatId).None? && IsLastAnswer(req) && PrimaryPage(req, calls).None? ==>
      o == TurnFailed(db, chatId, req.message, None, now)
  {
    match Guard(db, userId, chatId)
    case Some(rejection) => Outcome(db, rejection)
    case None =>
      if !IsLastAnswer(req) then AnswerAcknowledged(db, chatId, req.message)
      else
        match PrimaryPage(req, calls)
        case Some(page) => ResearchCompleted(db, chatId, req.message, page, SecondaryPage(calls), now)
        case None => TurnFailed(db, chatId, req.message, None, now)
  }
}
