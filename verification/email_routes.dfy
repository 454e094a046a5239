/**
 The email routes: mailing a chat's research report, regenerating the
 Gemini section when the chat has none, and reporting the caller's daily
 chat count. Neither route writes to the database; the Gemini reply and
 the mailer's outcome are inputs.
 */
module EmailRoutes {
  import opened Js
  import opened Text
  import opened Lists
  import opened Store
  import ChatRoutes
  import GeminiService

  /** The headings the report extraction searches for. */
  const OpenAIPrefix := "## ChatGPT (OpenAI) Research"
  const GeminiPrefix := "## Gemini (Google) Research"
  /** The heading a regenerated Gemini page is labelled with. */
  const RegeneratedLabel := GeminiPrefix + "\n\n"
  const NoGeminiContent := GeminiPrefix + "\n\nNo Gemini content available."
  const DefaultTopic := "Research Topic"

  // ---------------------------------------------------------------------
  // Extracting the report from the chat's messages
  // ---------------------------------------------------------------------

  function IsAi(m: Message): bool { !m.isUser }
  function IsUser(m: Message): bool { m.isUser }

  function StartsWith(prefix: string): Message -> bool {
    (m: Message) => prefix <= m.content
  }

  /** An assistant message whose text starts with `prefix`. */
  function Labelled(prefix: string): Message -> bool {
    Both(IsAi, StartsWith(prefix))
  }

  /**
   The message mailed as the report: the first assistant message carrying
   the OpenAI heading, else the first assistant message; none only when
   the chat has no assistant message at all.
   */
  function ReportMessage(ms: seq<Message>): (r: Option<Message>)
    ensures r.None? <==> forall i :: 0 <= i < |ms| ==> ms[i].isUser
    ensures r.Some? ==> r.value in ms && !r.value.isUser
    ensures (exists i :: 0 <= i < |ms| && !ms[i].isUser && OpenAIPrefix <= ms[i].content) ==>
      r.Some? && OpenAIPrefix <= r.value.content
    ensures forall i :: FirstIndex(ms, Labelled(OpenAIPrefix), i) ==> r == Some(ms[i])
    ensures (forall i :: 0 <= i < |ms| ==> !Labelled(OpenAIPrefix)(ms[i])) ==>
      forall i :: FirstIndex(ms, IsAi, i) ==> r == Some(ms[i])
  {
    var ai := Filter(ms, IsAi);
    var labelled := Find(ai, StartsWith(OpenAIPrefix));
    FindFilter(ms, IsAi, StartsWith(OpenAIPrefix));
    FindFirstIndex(ms, Labelled(OpenAIPrefix));
    if labelled.Some? then labelled
    else if |ai| > 0 then
      FindInFilterNone(ms, IsAi, StartsWith(OpenAIPrefix));
      FilterHead(ms, IsAi);
      FindFirstIndex(ms, IsAi);
      Some(ai[0])
    else
      assert forall i :: 0 <= i < |ms| ==> ms[i] !in ai;
      None
  }

  /** The stored Gemini page: the first assistant message carrying the Gemini heading. */
  function GeminiMessage(ms: seq<Message>): (r: Option<Message>)
    ensures r.Some? ==> r.value in ms && !r.value.isUser && GeminiPrefix <= r.value.content
    ensures r.None? <==> forall i :: 0 <= i < |ms| ==> ms[i].isUser || !(GeminiPrefix <= ms[i].content)
    ensures forall i :: FirstIndex(ms, Labelled(GeminiPrefix), i) ==> r == Some(ms[i])
  {
    var ai := Filter(ms, IsAi);
    var r := Find(ai, StartsWith(GeminiPrefix));
    FindFilter(ms, IsAi, StartsWith(GeminiPrefix));
    FindFirstIndex(ms, Labelled(GeminiPrefix));
    if r.None? then
      FindInFilterNone(ms, IsAi, StartsWith(GeminiPrefix));
      r
    else r
  }

  /** The first assistant message's text, "" when there is none. */
  function FirstAiContent(ms: seq<Message>): string {
    var ai := Filter(ms, IsAi);
    if |ai| > 0 then ai[0].content else ""
  }

  /** The topic: the first user message's text, or "Research Topic" when that is missing or empty. */
  function OriginalTopic(ms: seq<Message>): (r: string)
    ensures r != ""
    ensures r == DefaultTopic || exists i :: 0 <= i < |ms| && ms[i].isUser && ms[i].content == r
    ensures forall i :: FirstIndex(ms, IsUser, i) ==> r == (if ms[i].content != "" then ms[i].content else DefaultTopic)
    ensures (forall i :: 0 <= i < |ms| ==> !ms[i].isUser) ==> r == DefaultTopic
  {
    var users := Filter(ms, IsUser);
    FilterHead(ms, IsUser);
    FindFirstIndex(ms, IsUser);
    if |users| > 0 && users[0].content != "" then users[0].content else DefaultTopic
  }

  /** The texts of the messages, in order. */
  function Contents(ms: seq<Message>): (r: seq<string>)
    ensures |r| == |ms|
    ensures forall i :: 0 <= i < |r| ==> r[i] == ms[i].content
  {
    if |ms| == 0 then [] else [ms[0].content] + Contents(ms[1..])
  }

  /** The answers: every user message after the first, in order. */
  function UserAnswers(ms: seq<Message>): (r: seq<string>)
    ensures var users := Filter(ms, IsUser);
      |r| == if |users| == 0 then 0 else |users| - 1
    ensures forall i :: 0 <= i < |r| ==> r[i] == Filter(ms, IsUser)[i + 1].content
  {
    var users := Filter(ms, IsUser);
    if |users| == 0 then []
    else Contents(users[1..])
  }

  // ---------------------------------------------------------------------
  // Recovering the clarifying questions from the questions message
  // ---------------------------------------------------------------------

  /** The line matches `^\d+\.\s`: digits, a dot, then one whitespace character. */
  predicate IsNumberedLine(line: string) {
    var k := LeadingDigits(line);
    k >= 1 && k + 2 <= |line| && line[k] == '.' && IsJsSpace(line[k + 1])
  }

  /** The line with its `^\d+\.\s` prefix removed. */
  function StripNumber(line: string): string
    requires IsNumberedLine(line)
  {
    line[LeadingDigits(line) + 2..]
  }

  /**
   The clarifying questions read back from the first assistant message:
   its numbered lines, prefixes removed, in order.
   */
  function RecoverQuestions(firstAi: string): (r: seq<string>)
    ensures firstAi == "" ==> r == []
    ensures forall i :: 0 <= i < |r| ==> '\n' !in r[i]
  {
    if firstAi == "" then []
    else
      var lines := Filter(Split(firstAi, '\n'), IsNumberedLine);
      seq(|lines|, i requires 0 <= i < |lines| => StripNumber(lines[i]))
  }

  /** A numbered question line is recognised, and stripping it gives back the question. */
  lemma NumberedQuestionRecognised(i: nat, q: string)
    ensures IsNumberedLine(ChatRoutes.NumberedQuestion(i, q))
    ensures StripNumber(ChatRoutes.NumberedQuestion(i, q)) == q
  {
    var d := NatToString(i + 1);
    var line := ChatRoutes.NumberedQuestion(i, q);
    assert line == d + (". " + q);
    LeadingDigitsOf(d, ". " + q);
    assert line[|d|] == '.' && line[|d| + 1] == ' ';
    assert line[|d| + 2..] == q;
  }

  /** Filtering the spaced lines keeps exactly the original lines when only they pass. */
  lemma {:induction false} FilterSpaced(xs: seq<string>, p: string -> bool)
    requires forall i :: 0 <= i < |xs| ==> p(xs[i])
    requires !p("")
    ensures Filter(Spaced(xs), p) == xs
    decreases |xs|
  {
    if |xs| == 1 {
      assert Filter(xs[1..], p) == [];
    } else if |xs| > 1 {
      var pair: seq<string> := [xs[0], ""];
      calc {
        Filter(Spaced(xs), p);
        Filter(pair + Spaced(xs[1..]), p);
        { FilterAppend(pair, Spaced(xs[1..]), p); }
        Filter(pair, p) + Filter(Spaced(xs[1..]), p);
        { FilterSpaced(xs[1..], p); FilterPair(xs[0], p); }
        [xs[0]] + xs[1..];
      }
      assert xs == [xs[0]] + xs[1..];
    }
  }

  /** A line that passes, followed by an empty line that does not, filters to the line. */
  lemma FilterPair(x: string, p: string -> bool)
    requires p(x) && !p("")
    ensures Filter([x, ""], p) == [x]
  {
    assert [x, ""][1..] == [""];
    assert [""][1..] == [];
  }

  /** The questions message, as the lines it splits into. */
  lemma QuestionsTextLines(qs: seq<string>)
    ensures ChatRoutes.QuestionsText(qs) ==
      Join([ChatRoutes.QuestionsIntro, ""] + Spaced(ChatRoutes.NumberedQuestions(qs)) + ["", ChatRoutes.QuestionsOutro], "\n")
  {
    var intro, outro := ChatRoutes.QuestionsIntro, ChatRoutes.QuestionsOutro;
    var numbered := ChatRoutes.NumberedQuestions(qs);
    var spaced := Spaced(numbered);
    var head: seq<string>, tail: seq<string> := [intro, ""], ["", outro];
    assert head + spaced + tail == head + (spaced + tail);
    calc {
      Join(head + (spaced + tail), "\n");
      { JoinAppend(head, spaced + tail, "\n"); }
      Join(head, "\n") + "\n" + Join(spaced + tail, "\n");
      { JoinAppend(spaced, tail, "\n"); }
      Join(head, "\n") + "\n" + (Join(spaced, "\n") + "\n" + Join(tail, "\n"));
      { JoinSpaced(numbered, '\n'); JoinPair(intro, ""); JoinPair("", outro); }
      (intro + "\n" + "") + "\n" + (Join(numbered, "\n\n") + "\n" + ("" + "\n" + outro));
      intro + "\n\n" + Join(numbered, "\n\n") + "\n\n" + outro;
    }
  }

  lemma JoinPair(a: string, b: string)
    ensures Join([a, b], "\n") == a + "\n" + b
  {
    assert [a, b][1..] == [b];
  }

  /** The first paragraph of the questions message is one line, and not a numbered one. */
  lemma IntroPlain()
    ensures '\n' !in ChatRoutes.QuestionsIntro
    ensures !IsNumberedLine(ChatRoutes.QuestionsIntro)
  {
    assert ChatRoutes.QuestionsIntro[0] == 'I';
    LeadingDigitsOf("", ChatRoutes.QuestionsIntro);
  }

  /** The last paragraph of the questions message is one line, and not a numbered one. */
  lemma OutroPlain()
    ensures '\n' !in ChatRoutes.QuestionsOutro
    ensures !IsNumberedLine(ChatRoutes.QuestionsOutro)
  {
    assert ChatRoutes.QuestionsOutro[0] == 'P';
    LeadingDigitsOf("", ChatRoutes.QuestionsOutro);
  }

  /** Both paragraphs of the questions message are single lines. */
  lemma FixedLinesSingle()
    ensures '\n' !in ChatRoutes.QuestionsIntro && '\n' !in ChatRoutes.QuestionsOutro
  {
    IntroPlain();
    OutroPlain();
  }

  /** Every numbered question line is free of line breaks when its question is. */
  lemma NumberedLinesSingle(qs: seq<string>)
    requires forall i :: 0 <= i < |qs| ==> '\n' !in qs[i]
    ensures var numbered := ChatRoutes.NumberedQuestions(qs);
      forall i :: 0 <= i < |numbered| ==> '\n' !in numbered[i]
  {
    var numbered := ChatRoutes.NumberedQuestions(qs);
    forall i | 0 <= i < |numbered| ensures '\n' !in numbered[i] {
      var d := NatToString(i + 1);
      assert numbered[i] == d + ". " + qs[i];
      assert '\n' !in d;
    }
  }

  /** Neither paragraph of the questions message, nor a blank line, is a numbered line. */
  lemma FixedLinesNotNumbered()
    ensures !IsNumberedLine(ChatRoutes.QuestionsIntro) && !IsNumberedLine(ChatRoutes.QuestionsOutro) && !IsNumberedLine("")
  {
    IntroPlain();
    OutroPlain();
  }

  /** The lines of the questions message: its two paragraphs around the numbered lines, blank lines between. */
  function QuestionsLines(qs: seq<string>): seq<string> {
    [ChatRoutes.QuestionsIntro, ""] + Spaced(ChatRoutes.NumberedQuestions(qs)) + ["", ChatRoutes.QuestionsOutro]
  }

  /** Every numbered question line is recognised as numbered. */
  lemma NumberedLinesNumbered(qs: seq<string>)
    ensures var numbered := ChatRoutes.NumberedQuestions(qs);
      forall i :: 0 <= i < |numbered| ==> IsNumberedLine(numbered[i])
  {
    var numbered := ChatRoutes.NumberedQuestions(qs);
    forall i | 0 <= i < |numbered| ensures IsNumberedLine(numbered[i]) {
      NumberedQuestionRecognised(i, qs[i]);
    }
  }

  /** Stripping every numbered question line gives back its question. */
  lemma NumberedLinesStripped(qs: seq<string>)
    ensures var numbered := ChatRoutes.NumberedQuestions(qs);
      forall i :: 0 <= i < |numbered| ==> IsNumberedLine(numbered[i]) && StripNumber(numbered[i]) == qs[i]
  {
    var numbered := ChatRoutes.NumberedQuestions(qs);
    forall i | 0 <= i < |numbered| ensures IsNumberedLine(numbered[i]) && StripNumber(numbered[i]) == qs[i] {
      NumberedQuestionRecognised(i, qs[i]);
    }
  }

  /** Splitting the questions message at line breaks gives its lines. */
  lemma SplitQuestionsText(qs: seq<string>)
    requires forall i :: 0 <= i < |qs| ==> '\n' !in qs[i]
    ensures Split(ChatRoutes.QuestionsText(qs), '\n') == QuestionsLines(qs)
  {
    var lines := QuestionsLines(qs);
    var spaced := Spaced(ChatRoutes.NumberedQuestions(qs));
    FixedLinesSingle();
    NumberedLinesSingle(qs);
    forall i | 0 <= i < |lines| ensures '\n' !in lines[i] {
      if 2 <= i < 2 + |spaced| {
        assert lines[i] == spaced[i - 2];
      }
    }
    QuestionsTextLines(qs);
    SplitJoin(lines, '\n');
  }

  /** Of the lines of the questions message, exactly the numbered question lines are numbered. */
  lemma FilterQuestionsLines(qs: seq<string>)
    ensures Filter(QuestionsLines(qs), IsNumberedLine) == ChatRoutes.NumberedQuestions(qs)
  {
    var numbered := ChatRoutes.NumberedQuestions(qs);
    var head: seq<string>, tail: seq<string> := [ChatRoutes.QuestionsIntro, ""], ["", ChatRoutes.QuestionsOutro];
    FixedLinesNotNumbered();
    NumberedLinesNumbered(qs);
    calc {
      Filter(QuestionsLines(qs), IsNumberedLine);
      Filter(head + Spaced(numbered) + tail, IsNumberedLine);
      { FilterAppend(head + Spaced(numbered), tail, IsNumberedLine);
        FilterAppend(head, Spaced(numbered), IsNumberedLine); }
      Filter(head, IsNumberedLine) + Filter(Spaced(numbered), IsNumberedLine) + Filter(tail, IsNumberedLine);
      { FilterNone(head, IsNumberedLine); FilterNone(tail, IsNumberedLine); FilterSpaced(numbered, IsNumberedLine); }
      [] + numbered + [];
    }
  }

  /**
   Reading the questions back from the message that listed them gives the
   questions, provided none of them contains a line break.
   */
  lemma RecoverQuestionsRoundTrip(qs: seq<string>)
    requires forall i :: 0 <= i < |qs| ==> '\n' !in qs[i]
    ensures RecoverQuestions(ChatRoutes.QuestionsText(qs)) == qs
  {
    var text := ChatRoutes.QuestionsText(qs);
    IntroPlain();
    assert text != "" by {
      assert |ChatRoutes.QuestionsIntro| > 0;
    }
    SplitQuestionsText(qs);
    FilterQuestionsLines(qs);
    NumberedLinesStripped(qs);
  }

  // ---------------------------------------------------------------------
  // POST /:chatId/send-email
  // ---------------------------------------------------------------------

  /** What the Gemini adapter is asked to regenerate from. */
  datatype GeminiRequest = GeminiRequest(originalTopic: string, questions: seq<string>, answers: seq<string>)

  /** The report handed to the mailer: recipient, the two sections and the topic. */
  datatype Mail = Mail(to: string, chatgptContent: string, geminiContent: string, originalTopic: string)

  /** What the mailer reported; a throw carries its message. */
  datatype MailOutcome = Delivered(messageId: string, summary: string) | MailFailed(details: string)

  datatype EmailBody =
    | EmailError(error: string)
    | EmailErrorDetails(error: string, details: string)
    | ReportSent(message: string, messageId: string, summary: string)
    | ChatCounts(todayCount: nat, maxChats: nat, isPremium: bool)

  datatype EmailResponse = EmailResponse(status: nat, body: EmailBody)

  /** The response, with the Gemini request and the mail the route made, if any. */
  datatype SendResult = SendResult(response: EmailResponse, regeneration: Option<GeminiRequest>, mail: Option<Mail>)

  function Rejected(status: nat, error: string): SendResult {
    SendResult(EmailResponse(status, EmailError(error)), None, None)
  }

  /**
   The checks before anything is sent, in order: the chat is the caller's,
   the caller has an email address, the chat has messages, and one of them
   is from the assistant.
   */
  function SendGuard(db: Db, userId: nat, chatId: nat): (r: Option<SendResult>)
    ensures r.None? <==>
      && ChatRoutes.OwnedChat(db, userId, chatId).Some?
      && FindUserById(db, userId).Some? && FindUserById(db, userId).value.email != ""
      && MessagesOf(db, chatId) != []
      && ReportMessage(MessagesOf(db, chatId)).Some?
    ensures ChatRoutes.OwnedChat(db, userId, chatId).None? ==> r == Some(Rejected(404, "Chat not found"))
    ensures ChatRoutes.OwnedChat(db, userId, chatId).Some? && (FindUserById(db, userId).None? || FindUserById(db, userId).value.email == "") ==>
      r == Some(Rejected(400, "User email not found"))
    ensures ChatRoutes.OwnedChat(db, userId, chatId).Some? && FindUserById(db, userId).Some? && FindUserById(db, userId).value.email != "" ==>
      && (MessagesOf(db, chatId) == [] ==> r == Some(Rejected(400, "No messages found in chat")))
      && (MessagesOf(db, chatId) != [] && ReportMessage(MessagesOf(db, chatId)).None? ==>
            r == Some(Rejected(400, "No research report found")))
    ensures r.Some? ==> r.value.mail.None? && r.value.regeneration.None? && r.value.response.status in {400, 404}
  {
    if ChatRoutes.OwnedChat(db, userId, chatId).None? then Some(Rejected(404, ChatRoutes.ChatNotFound))
    else if FindUserById(db, userId).None? || FindUserById(db, userId).value.email == "" then
      Some(Rejected(400, "User email not found"))
    else if MessagesOf(db, chatId) == [] then Some(Rejected(400, "No messages found in chat"))
    else if ReportMessage(MessagesOf(db, chatId)).None? then Some(Rejected(400, "No research report found"))
    else None
  }

  /**
   The Gemini section of the report: the stored Gemini page when the chat
   has one; otherwise a regeneration is requested from the recovered
   questions and answers, and its page is labelled, or the placeholder is
   used when it fails.
   */
  function GeminiSection(ms: seq<Message>, configured: bool, call: GeminiService.Completion): (r: (string, Option<GeminiRequest>))
    ensures r.1.Some? <==> GeminiMessage(ms).None?
    ensures GeminiMessage(ms).Some? ==> r.0 == GeminiMessage(ms).value.content
    ensures GeminiMessage(ms).None? ==>
      r.1 == Some(GeminiRequest(OriginalTopic(ms), RecoverQuestions(FirstAiContent(ms)), UserAnswers(ms)))
    ensures GeminiMessage(ms).None? && configured && call.Completed? ==> r.0 == RegeneratedLabel + call.text
    ensures GeminiMessage(ms).None? && !(configured && call.Completed?) ==> r.0 == NoGeminiContent
  {
    var stored := GeminiMessage(ms);
    var content := if stored.Some? then stored.value.content else "";
    if content != "" then (content, None)
    else
      assert stored.None?;
      var request := GeminiRequest(OriginalTopic(ms), RecoverQuestions(FirstAiContent(ms)), UserAnswers(ms));
      var regenerated :=
        match GeminiService.GenerateResearchPage(configured, call)
        case GeminiPage(page) => RegeneratedLabel + page
        case GeminiFailed(_) => "";
      (if regenerated != "" then regenerated else NoGeminiContent, Some(request))
  }

  /**
   `POST /:chatId/send-email`: after the checks, one mail to the caller's
   address carrying the report message, the Gemini section and the topic;
   the mailer's outcome decides between 200 and 500.
   */
  function SendEmail(db: Db, userId: nat, chatId: nat, geminiConfigured: bool,
                     geminiCall: GeminiService.Completion, outcome: MailOutcome): (r: SendResult)
    ensures SendGuard(db, userId, chatId).Some? ==> r == SendGuard(db, userId, chatId).value
    ensures r.mail.Some? <==> SendGuard(db, userId, chatId).None?
    ensures r.mail.Some? ==> var ms := MessagesOf(db, chatId);
      r.mail.value == Mail(FindUserById(db, userId).value.email, ReportMessage(ms).value.content,
                           GeminiSection(ms, geminiConfigured, geminiCall).0, OriginalTopic(ms))
      && r.regeneration == GeminiSection(ms, geminiConfigured, geminiCall).1
    ensures r.mail.Some? && outcome.Delivered? ==>
      r.response == EmailResponse(200, ReportSent("Research report sent successfully", outcome.messageId, outcome.summary))
    ensures r.mail.Some? && outcome.MailFailed? ==>
      r.response == EmailResponse(500, EmailErrorDetails("Failed to send research report", outcome.details))
  {
    match SendGuard(db, userId, chatId)
    case Some(rejection) => rejection
    case None =>
      var ms := MessagesOf(db, chatId);
      var user := FindUserById(db, userId).value;
      var (gemini, request) := GeminiSection(ms, geminiConfigured, geminiCall);
      var mail := Mail(user.email, ReportMessage(ms).value.content, gemini, OriginalTopic(ms));
      var response :=
        match outcome
        case Delivered(id, summary) => EmailResponse(200, ReportSent("Research report sent successfully", id, summary))
        case MailFailed(details) => EmailResponse(500, EmailErrorDetails("Failed to send research report", details));
      SendResult(response, request, Some(mail))
  }

  /** The email's Gemini section always opens with the Gemini heading. */
  lemma GeminiSectionHeaded(ms: seq<Message>, configured: bool, call: GeminiService.Completion)
    ensures GeminiPrefix <= GeminiSection(ms, configured, call).0
  {
    var section := GeminiSection(ms, configured, call).0;
    if GeminiMessage(ms).None? {
      assert section == GeminiPrefix + (section[|GeminiPrefix|..]);
    }
  }

  /** The chat routes label their pages with the headings this route searches for. */
  lemma LabelsAgree()
    ensures OpenAIPrefix <= ChatRoutes.OpenAILabel
    ensures GeminiPrefix <= ChatRoutes.GeminiLabel
    ensures RegeneratedLabel == ChatRoutes.GeminiLabel
  {
    assert ChatRoutes.OpenAIHeading == OpenAIPrefix && ChatRoutes.GeminiHeading == GeminiPrefix;
  }

  // ---------------------------------------------------------------------
  // GET /user/chat-count
  // ---------------------------------------------------------------------

  /** `GET /user/chat-count`: 401 for an unknown user, else today's count and the tier's limit. */
  function ChatCount(db: Db, userId: nat, day: Day): (r: EmailResponse)
    ensures FindUserById(db, userId).None? <==> r == EmailResponse(401, EmailError("Unauthorized"))
    ensures FindUserById(db, userId).Some? ==> var premium := FindUserById(db, userId).value.isPremium;
      r == EmailResponse(200, ChatCounts(GetTodayCount(db, userId, day), if premium then 20 else 5, premium))
  {
    match FindUserById(db, userId)
    case None => EmailResponse(401, EmailError("Unauthorized"))
    case Some(user) => EmailResponse(200, ChatCounts(GetTodayCount(db, userId, day), if user.isPremium then 20 else 5, user.isPremium))
  }
}
