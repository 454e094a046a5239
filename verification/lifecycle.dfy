/**
 Properties of the chat lifecycle across requests: any sequence of chat
 requests keeps the database invariant, a completed or errored chat never
 changes again, the daily counter never passes the tier's limit, and the
 places that state the limits agree.
 */
module Lifecycle {
  import opened Js
  import opened Lists
  import opened Store
  import opened ChatRoutes
  import OpenAIService
  import Constants

  /** One chat request, with everything the handler takes as input. */
  datatype Event =
    | CreateEvent(userId: nat, title: Option<string>, day: Day, now: nat)
    | TopicEvent(userId: nat, chatId: nat, message: string, completion: OpenAIService.TitleCompletion, now: nat)
    | AnswerEvent(userId: nat, chatId: nat, req: AnswerRequest, calls: ProviderCalls, now: nat)

  function Step(db: Db, e: Event): Outcome {
    match e
    case CreateEvent(userId, title, day, now) => ChatRoutes.CreateChat(db, userId, title, day, now)
    case TopicEvent(userId, chatId, message, completion, now) => ResearchTopic(db, userId, chatId, message, completion, now)
    case AnswerEvent(userId, chatId, req, calls, now) => ClarificationAnswer(db, userId, chatId, req, calls, now)
  }

  /** The database after handling the requests one after another. */
  function Run(db: Db, es: seq<Event>): Db
    decreases |es|
  {
    if |es| == 0 then db else Run(Step(db, es[0]).db, es[1..])
  }

  // ---------------------------------------------------------------------
  // The invariant
  // ---------------------------------------------------------------------

  /** Every chat request keeps the invariant and leaves the users alone. */
  lemma StepPreservesWf(db: Db, e: Event)
    requires Wf(db)
    ensures Wf(Step(db, e).db)
    ensures Step(db, e).db.users == db.users
  {
  }

  /** Any sequence of chat requests keeps the invariant; no chat is ever both completed and errored. */
  lemma {:induction false} RunPreservesWf(db: Db, es: seq<Event>)
    requires Wf(db)
    ensures Wf(Run(db, es))
    ensures forall i :: 0 <= i < |Run(db, es).chats| ==> !(Run(db, es).chats[i].isCompleted && Run(db, es).chats[i].hasError)
    ensures Run(db, es).users == db.users
    decreases |es|
  {
    if |es| > 0 {
      StepPreservesWf(db, es[0]);
      RunPreservesWf(Step(db, es[0]).db, es[1..]);
    }
  }

  // ---------------------------------------------------------------------
  // Terminal states absorb
  // ---------------------------------------------------------------------

  /** A request about some other chat leaves this chat's row and messages alone. */
  lemma StepOtherChat(db: Db, e: Event, chatId: nat)
    requires Wf(db) && FindChat(db, chatId).Some?
    requires e.CreateEvent? || e.chatId != chatId
    ensures FindChat(Step(db, e).db, chatId) == FindChat(db, chatId)
    ensures MessagesOf(Step(db, e).db, chatId) == MessagesOf(db, chatId)
  {
    if e.CreateEvent? {
      var o := Step(db, e);
      assert o.db.chats == db.chats || o.db.chats[..|db.chats|] == db.chats;
      assert o.db.messages == db.messages;
    }
  }

  /** A request about a closed chat is refused and writes nothing. */
  lemma StepClosedChat(db: Db, e: Event, chatId: nat)
    requires Wf(db) && FindChat(db, chatId).Some? && Closed(FindChat(db, chatId).value)
    requires !e.CreateEvent? && e.chatId == chatId
    ensures Step(db, e).db == db
    ensures Step(db, e).response.status in {400, 404}
  {
  }

  /**
   Once a chat is completed or errored, no sequence of requests changes
   its row or its messages.
   */
  lemma {:induction false} ClosedChatIsFinal(db: Db, es: seq<Event>, chatId: nat)
    requires Wf(db) && FindChat(db, chatId).Some? && Closed(FindChat(db, chatId).value)
    ensures FindChat(Run(db, es), chatId) == FindChat(db, chatId)
    ensures MessagesOf(Run(db, es), chatId) == MessagesOf(db, chatId)
    decreases |es|
  {
    if |es| > 0 {
      var e := es[0];
      if e.CreateEvent? || e.chatId != chatId {
        StepOtherChat(db, e, chatId);
      } else {
        StepClosedChat(db, e, chatId);
      }
      StepPreservesWf(db, e);
      ClosedChatIsFinal(Step(db, e).db, es[1..], chatId);
    }
  }

  // ---------------------------------------------------------------------
  // The daily quota
  // ---------------------------------------------------------------------

  /** Every chat request keeps a (user, day) count within the user's limit. */
  lemma StepWithinQuota(db: Db, e: Event, userId: nat, day: Day)
    requires FindUserById(db, userId).Some?
    requires GetTodayCount(db, userId, day) <= MaxChats(FindUserById(db, userId).value.isPremium)
    ensures Step(db, e).db.users == db.users
    ensures GetTodayCount(Step(db, e).db, userId, day) <= MaxChats(FindUserById(db, userId).value.isPremium)
  {
  }

  /**
   Under any sequence of requests, a count that starts within the user's
   daily limit stays within it: sequential creates never exceed 20 chats a
   day for a premium user and 5 otherwise.
   */
  lemma {:induction false} RunWithinQuota(db: Db, es: seq<Event>, userId: nat, day: Day)
    requires FindUserById(db, userId).Some?
    requires GetTodayCount(db, userId, day) <= MaxChats(FindUserById(db, userId).value.isPremium)
    ensures GetTodayCount(Run(db, es), userId, day) <= MaxChats(FindUserById(db, userId).value.isPremium)
    decreases |es|
  {
    if |es| > 0 {
      StepWithinQuota(db, es[0], userId, day);
      RunWithinQuota(Step(db, es[0]).db, es[1..], userId, day);
    }
  }

  /** Requests that are all creates by one user on one day. */
  predicate CreatesBy(es: seq<Event>, userId: nat, day: Day) {
    forall i :: 0 <= i < |es| ==> es[i].CreateEvent? && es[i].userId == userId && es[i].day == day
  }

  /**
   `k` creates in a row by an existing user on one day: the count climbs
   by one per create until it reaches the limit and then stays there.
   */
  lemma {:induction false} CreatesFillQuota(db: Db, es: seq<Event>, userId: nat, day: Day)
    requires FindUserById(db, userId).Some? && CreatesBy(es, userId, day)
    requires GetTodayCount(db, userId, day) <= MaxChats(FindUserById(db, userId).value.isPremium)
    ensures var limit := MaxChats(FindUserById(db, userId).value.isPremium);
      var c := GetTodayCount(db, userId, day) + |es|;
      GetTodayCount(Run(db, es), userId, day) == if c <= limit then c else limit
    decreases |es|
  {
    if |es| > 0 {
      StepWithinQuota(db, es[0], userId, day);
      assert CreatesBy(es[1..], userId, day) by {
        forall i | 0 <= i < |es[1..]| ensures es[1..][i] == es[i + 1] { }
      }
      CreatesFillQuota(Step(db, es[0]).db, es[1..], userId, day);
    }
  }

  /** The limits in the configuration, the counter query, the quota message and the count route agree. */
  lemma LimitsAgree(isPremium: bool)
    ensures Constants.GetChatLimit(isPremium) == MaxChats(isPremium)
    ensures LimitInMessage(isPremium) == MaxChats(isPremium)
    ensures MaxChats(isPremium) == if isPremium then 20 else 5
  {
  }
}
