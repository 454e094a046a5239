/**
 The transcript a chat leaves behind, as the email route reads it back:
 the topic, the clarifying questions and the answers the chat route wrote.
 */
module Transcript {
  import opened Js
  import opened Lists
  import opened Store
  import opened ChatRoutes
  import OpenAIService
  import EmailRoutes

  /** What the email route reads from a chat holding one user message and one reply. */
  lemma ExtractFromFirstTurn(m1: Message, m2: Message)
    requires m1.isUser && !m2.isUser && m1.content != ""
    ensures EmailRoutes.OriginalTopic([m1, m2]) == m1.content
    ensures EmailRoutes.FirstAiContent([m1, m2]) == m2.content
    ensures EmailRoutes.UserAnswers([m1, m2]) == []
  {
    assert [m1, m2] == [m1] + [m2];
    FilterAppend([m1], [m2], EmailRoutes.IsUser);
    FilterAppend([m1], [m2], EmailRoutes.IsAi);
  }

  /** The user and assistant messages after one more turn: one more of each, at the end. */
  lemma FilterAfterTurn(before: seq<Message>, u: Message, a: Message)
    requires u.isUser && !a.isUser
    ensures Filter(before + [u, a], EmailRoutes.IsUser) == Filter(before, EmailRoutes.IsUser) + [u]
    ensures Filter(before + [u, a], EmailRoutes.IsAi) == Filter(before, EmailRoutes.IsAi) + [a]
  {
    assert before + [u, a] == before + [u] + [a];
    FilterSnoc(before, u, EmailRoutes.IsUser);
    FilterSnoc(before + [u], a, EmailRoutes.IsUser);
    FilterSnoc(before, u, EmailRoutes.IsAi);
    FilterSnoc(before + [u], a, EmailRoutes.IsAi);
  }

  /** One more user message after at least one adds exactly its text to the answers. */
  lemma AnswersAfterTurn(before: seq<Message>, after: seq<Message>, u: Message)
    requires Filter(after, EmailRoutes.IsUser) == Filter(before, EmailRoutes.IsUser) + [u]
    requires |Filter(before, EmailRoutes.IsUser)| > 0
    ensures EmailRoutes.UserAnswers(after) == EmailRoutes.UserAnswers(before) + [u.content]
  {
    var users := Filter(before, EmailRoutes.IsUser);
    var r := EmailRoutes.UserAnswers(after);
    var expected := EmailRoutes.UserAnswers(before) + [u.content];
    assert |r| == |expected|;
    forall k | 0 <= k < |r| ensures r[k] == expected[k] {
      if k < |users| - 1 {
        assert r[k] == Filter(after, EmailRoutes.IsUser)[k + 1].content;
      }
    }
  }

  /**
   What the email route reads after one more user message and reply, which
   is how an acknowledged answer extends the listing: one more answer, the
   same topic, the same questions.
   */
  lemma ExtractAfterTurn(before: seq<Message>, after: seq<Message>, u: Message, a: Message)
    requires after == before + [u, a] && u.isUser && !a.isUser
    requires exists m :: m in before && m.isUser
    requires exists m :: m in before && !m.isUser
    ensures EmailRoutes.UserAnswers(after) == EmailRoutes.UserAnswers(before) + [u.content]
    ensures EmailRoutes.OriginalTopic(after) == EmailRoutes.OriginalTopic(before)
    ensures EmailRoutes.FirstAiContent(after) == EmailRoutes.FirstAiContent(before)
  {
    var m :| m in before && m.isUser;
    assert EmailRoutes.IsUser(m);
    var m' :| m' in before && !m'.isUser;
    assert EmailRoutes.IsAi(m');
    FilterAfterTurn(before, u, a);
    AnswersAfterTurn(before, after, u);
  }

  /**
   After an accepted topic on a chat with no messages yet, the email route
   recovers the topic as written, the clarifying questions as generated,
   and no answers.
   */
  lemma TopicThenEmail(db: Db, userId: nat, chatId: nat, message: string, title: string, qs: seq<string>, now: nat)
    requires Guard(db, userId, chatId).None?
    requires MessagesOf(db, chatId) == []
    requires message != ""
    requires forall i :: 0 <= i < |qs| ==> '\n' !in qs[i]
    ensures var o := ResearchTopic(db, userId, chatId, message, OpenAIService.Parsed(title, qs), now);
      var ms := MessagesOf(o.db, chatId);
      && EmailRoutes.OriginalTopic(ms) == message
      && EmailRoutes.RecoverQuestions(EmailRoutes.FirstAiContent(ms)) == qs
      && EmailRoutes.UserAnswers(ms) == []
  {
    var n := |db.messages|;
    var m1 := Message(n + 1, chatId, message, true);
    var m2 := Message(n + 2, chatId, QuestionsText(qs), false);
    var o := ResearchTopic(db, userId, chatId, message, OpenAIService.Parsed(title, qs), now);
    assert o == TopicAccepted(db, chatId, message, title, qs, now);
    assert MessagesOf(o.db, chatId) == [m1, m2];
    ExtractFromFirstTurn(m1, m2);
    EmailRoutes.RecoverQuestionsRoundTrip(qs);
  }

  /** The messages the research step appends: the answer, the OpenAI page and, when there is one, the Gemini page. */
  function ResearchMessages(chatId: nat, n: nat, message: string, primary: string, secondary: Option<string>): seq<Message> {
    [Message(n + 1, chatId, message, true), Message(n + 2, chatId, OpenAILabel + primary, false)]
      + (if secondary.Some? then [Message(n + 3, chatId, GeminiLabel + secondary.value, false)] else [])
  }

  /**
   The email route finds the pages the research step wrote: after a listing
   with no labelled page yet, the report is the OpenAI page and the Gemini
   page is found exactly when one was written.
   */
  lemma ResearchPagesFound(before: seq<Message>, chatId: nat, n: nat, message: string, primary: string, secondary: Option<string>)
    requires forall i :: 0 <= i < |before| ==>
      !EmailRoutes.Labelled(EmailRoutes.OpenAIPrefix)(before[i]) && !EmailRoutes.Labelled(EmailRoutes.GeminiPrefix)(before[i])
    ensures var ms := before + ResearchMessages(chatId, n, message, primary, secondary);
      && EmailRoutes.ReportMessage(ms) == Some(Message(n + 2, chatId, OpenAILabel + primary, false))
      && EmailRoutes.GeminiMessage(ms) ==
           if secondary.Some? then Some(Message(n + 3, chatId, GeminiLabel + secondary.value, false)) else None
  {
    var ms := before + ResearchMessages(chatId, n, message, primary, secondary);
    var k := |before|;
    assert ms[k].isUser;
    assert ms[k + 1] == Message(n + 2, chatId, OpenAILabel + primary, false);
    assert EmailRoutes.OpenAIPrefix <= ms[k + 1].content;
    assert ms[k + 1].content[3] == 'C' && EmailRoutes.GeminiPrefix[3] == 'G';
    assert FirstIndex(ms, EmailRoutes.Labelled(EmailRoutes.OpenAIPrefix), k + 1);
    if secondary.Some? {
      assert ms[k + 2] == Message(n + 3, chatId, GeminiLabel + secondary.value, false);
      assert EmailRoutes.GeminiPrefix <= ms[k + 2].content;
      assert FirstIndex(ms, EmailRoutes.Labelled(EmailRoutes.GeminiPrefix), k + 2);
    } else {
      assert |ms| == k + 2;
      assert forall i :: 0 <= i < |ms| ==> ms[i].isUser || !(EmailRoutes.GeminiPrefix <= ms[i].content);
    }
  }

  /**
   A chat that had its topic accepted and then its research completed
   reports the OpenAI page it was given, and has a stored Gemini page
   exactly when the research step wrote one.
   */
  lemma ResearchAfterTopic(db: Db, chatId: nat, topic: string, title: string, qs: seq<string>, now: nat,
                           answer: string, primary: string, secondary: Option<string>, later: nat)
    requires FindChat(db, chatId).Some? && MessagesOf(db, chatId) == []
    ensures var o1 := TopicAccepted(db, chatId, topic, title, qs, now);
      var ms := MessagesOf(ResearchCompleted(o1.db, chatId, answer, primary, secondary, later).db, chatId);
      && EmailRoutes.ReportMessage(ms) == Some(Message(|o1.db.messages| + 2, chatId, OpenAILabel + primary, false))
      && EmailRoutes.GeminiMessage(ms).Some? == secondary.Some?
      && (secondary.Some? ==> EmailRoutes.GeminiMessage(ms).value.content == GeminiLabel + secondary.value)
  {
    var o1 := TopicAccepted(db, chatId, topic, title, qs, now);
    var n := |db.messages|;
    var before := [Message(n + 1, chatId, topic, true), Message(n + 2, chatId, QuestionsText(qs), false)];
    assert MessagesOf(o1.db, chatId) == before;
    var m := |o1.db.messages|;
    var o2 := ResearchCompleted(o1.db, chatId, answer, primary, secondary, later);
    assert MessagesOf(o2.db, chatId) == before + ResearchMessages(chatId, m, answer, primary, secondary);
    assert QuestionsText(qs)[0] == 'I';
    ResearchPagesFound(before, chatId, m, answer, primary, secondary);
  }
}
