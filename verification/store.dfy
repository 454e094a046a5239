/**
 The persistence layer: the `users`, `chats`, `messages` and
 `user_daily_chats` tables and the queries the handlers issue against them,
 as pure functions over an immutable database value.

 Rows get SERIAL identifiers: the row at index `i` of a table has id `i + 1`,
 so creation order is sequence order. The UTC calendar day is a parameter,
 and `now` stands for `CURRENT_TIMESTAMP`.
 */
module Store {
  import opened Js
  import opened Lists

  type Day = nat

  datatype User = User(
    id: nat,
    username: string,
    email: string,
    passwordHash: string,
    isPremium: bool,
    updatedAt: nat)

  datatype Chat = Chat(
    id: nat,
    userId: nat,
    title: string,
    isCompleted: bool,
    hasError: bool,
    updatedAt: nat)

  datatype Message = Message(id: nat, chatId: nat, content: string, isUser: bool)

  datatype Db = Db(
    users: seq<User>,
    chats: seq<Chat>,
    messages: seq<Message>,
    daily: map<(nat, Day), nat>)

  /** The three states the two flags of a chat encode. */
  datatype ChatState = Open | Completed | Errored

  function StateOf(c: Chat): ChatState {
    if c.isCompleted then Completed else if c.hasError then Errored else Open
  }

  /** A chat that accepts no further turns. */
  predicate Closed(c: Chat) {
    c.isCompleted || c.hasError
  }

  function ChatKey(c: Chat): int { c.id }
  function MessageKey(m: Message): int { m.id }

  /**
   The database invariant: identifiers follow creation order and no chat
   is both completed and errored.
   */
  ghost predicate Wf(db: Db) {
    && (forall i :: 0 <= i < |db.users| ==> db.users[i].id == i + 1)
    && (forall i :: 0 <= i < |db.chats| ==> db.chats[i].id == i + 1)
    && (forall i :: 0 <= i < |db.messages| ==> db.messages[i].id == i + 1)
    && (forall i :: 0 <= i < |db.chats| ==> !(db.chats[i].isCompleted && db.chats[i].hasError))
  }

  /** The empty database satisfies the invariant. */
  function Empty(): (db: Db)
    ensures Wf(db)
    ensures db.users == [] && db.chats == [] && db.messages == [] && db.daily == map[]
  {
    Db([], [], [], map[])
  }

  // ---------------------------------------------------------------------
  // userQueries
  // ---------------------------------------------------------------------

  /** `findById`. */
  function FindUserById(db: Db, id: nat): (r: Option<User>)
    ensures Wf(db) ==> (r.Some? <==> exists i :: 0 <= i < |db.users| && db.users[i].id == id)
    ensures r.Some? ==> r.value in db.users && (Wf(db) ==> r.value.id == id)
  {
    if 1 <= id <= |db.users| then Some(db.users[id - 1]) else None
  }

  function UsernameIs(name: string): User -> bool {
    (u: User) => u.username == name
  }

  function EmailIs(email: string): User -> bool {
    (u: User) => u.email == email
  }

  /**
   `findByUsername`: `rows[0]` of an unordered `SELECT`; the model takes
   the earliest matching row.
   */
  function FindUserByUsername(db: Db, name: string): (r: Option<User>)
    ensures r.None? <==> forall u :: u in db.users ==> u.username != name
    ensures r.Some? ==> r.value in db.users && r.value.username == name
  {
    Find(db.users, UsernameIs(name))
  }

  /** `findByEmail`, with the same row choice as `FindUserByUsername`. */
  function FindUserByEmail(db: Db, email: string): (r: Option<User>)
    ensures r.None? <==> forall u :: u in db.users ==> u.email != email
    ensures r.Some? ==> r.value in db.users && r.value.email == email
  {
    Find(db.users, EmailIs(email))
  }

  /** `create(username, email, passwordHash, isPremium)`: inserts and returns the row. */
  function CreateUser(db: Db, username: string, email: string, passwordHash: string, isPremium: bool, now: nat): (r: (Db, User))
    ensures r.0.users == db.users + [r.1]
    ensures r.1 == User(|db.users| + 1, username, email, passwordHash, isPremium, now)
    ensures r.0.chats == db.chats && r.0.messages == db.messages && r.0.daily == db.daily
    ensures Wf(db) ==> Wf(r.0)
  {
    var u := User(|db.users| + 1, username, email, passwordHash, isPremium, now);
    (db.(users := db.users + [u]), u)
  }

  /** `updateLastLogin(id)`: touches the user's `updated_at` and nothing else. */
  function UpdateLastLogin(db: Db, id: nat, now: nat): (r: Db)
    ensures |r.users| == |db.users|
    ensures forall i :: 0 <= i < |db.users| && i != id - 1 ==> r.users[i] == db.users[i]
    ensures 1 <= id <= |db.users| ==> r.users[id - 1] == db.users[id - 1].(updatedAt := now)
    ensures r.chats == db.chats && r.messages == db.messages && r.daily == db.daily
    ensures Wf(db) ==> Wf(r)
  {
    if 1 <= id <= |db.users| then db.(users := db.users[id - 1 := db.users[id - 1].(updatedAt := now)]) else db
  }

  // ---------------------------------------------------------------------
  // chatQueries
  // ---------------------------------------------------------------------

  /** `findById`. */
  function FindChat(db: Db, id: nat): (r: Option<Chat>)
    ensures Wf(db) ==> (r.Some? <==> exists i :: 0 <= i < |db.chats| && db.chats[i].id == id)
    ensures r.Some? ==> r.value in db.chats && (Wf(db) ==> r.value.id == id)
  {
    if 1 <= id <= |db.chats| then Some(db.chats[id - 1]) else None
  }

  function OwnedBy(userId: nat): Chat -> bool {
    (c: Chat) => c.userId == userId
  }

  /**
   `findByUserId`: the user's chats, newest first (`ORDER BY created_at
   DESC`, creation order being identifier order).
   */
  function FindChatsByUser(db: Db, userId: nat): (r: seq<Chat>)
    ensures forall i :: 0 <= i < |r| ==> r[i].userId == userId && r[i] in db.chats
    ensures forall c :: c in db.chats && c.userId == userId ==> c in r
  {
    Reverse(Filter(db.chats, OwnedBy(userId)))
  }

  /** The listing is newest first: identifiers strictly decrease along it. */
  lemma FindChatsByUserNewestFirst(db: Db, userId: nat)
    requires Wf(db)
    ensures var r := FindChatsByUser(db, userId);
      forall i, j :: 0 <= i < j < |r| ==> r[i].id > r[j].id
  {
    assert IncreasingBy(db.chats, ChatKey);
    FilterIncreasing(db.chats, OwnedBy(userId), ChatKey);
  }

  /** `create(userId, title)`: a new open chat at the end of the table. */
  function CreateChat(db: Db, userId: nat, title: string, now: nat): (r: (Db, Chat))
    ensures r.0.chats == db.chats + [r.1]
    ensures r.1 == Chat(|db.chats| + 1, userId, title, false, false, now)
    ensures StateOf(r.1) == Open
    ensures r.0.users == db.users && r.0.messages == db.messages && r.0.daily == db.daily
    ensures Wf(db) ==> Wf(r.0)
  {
    var c := Chat(|db.chats| + 1, userId, title, false, false, now);
    (db.(chats := db.chats + [c]), c)
  }

  /** Replaces the chat with identifier `id`, if there is one, by `f` of it. */
  function UpdateChat(db: Db, id: nat, f: Chat -> Chat): (r: Db)
    ensures |r.chats| == |db.chats|
    ensures forall i :: 0 <= i < |db.chats| && i != id - 1 ==> r.chats[i] == db.chats[i]
    ensures 1 <= id <= |db.chats| ==> r.chats[id - 1] == f(db.chats[id - 1])
    ensures r.users == db.users && r.messages == db.messages && r.daily == db.daily
  {
    if 1 <= id <= |db.chats| then db.(chats := db.chats[id - 1 := f(db.chats[id - 1])]) else db
  }

  /** `updateTitle`: sets the title and the timestamp; both flags are left as they were. */
  function UpdateTitle(db: Db, id: nat, title: string, now: nat): (r: Db)
    ensures |r.chats| == |db.chats|
    ensures forall i :: 0 <= i < |db.chats| && i != id - 1 ==> r.chats[i] == db.chats[i]
    ensures 1 <= id <= |db.chats| ==> var c, c' := db.chats[id - 1], r.chats[id - 1];
      c'.title == title && c'.updatedAt == now
      && c'.id == c.id && c'.userId == c.userId
      && c'.isCompleted == c.isCompleted && c'.hasError == c.hasError
    ensures r.users == db.users && r.messages == db.messages && r.daily == db.daily
    ensures Wf(db) ==> Wf(r)
  {
    UpdateChat(db, id, (c: Chat) => c.(title := title, updatedAt := now))
  }

  /** `markAsCompleted`: completed, and the error flag cleared. */
  function MarkAsCompleted(db: Db, id: nat, now: nat): (r: Db)
    ensures |r.chats| == |db.chats|
    ensures forall i :: 0 <= i < |db.chats| && i != id - 1 ==> r.chats[i] == db.chats[i]
    ensures 1 <= id <= |db.chats| ==> var c, c' := db.chats[id - 1], r.chats[id - 1];
      StateOf(c') == Completed && c'.isCompleted && !c'.hasError
      && c'.id == c.id && c'.userId == c.userId && c'.title == c.title
    ensures r.users == db.users && r.messages == db.messages && r.daily == db.daily
    ensures Wf(db) ==> Wf(r)
  {
    UpdateChat(db, id, (c: Chat) => c.(isCompleted := true, hasError := false, updatedAt := now))
  }

  /** `markAsError`: errored, and the completed flag cleared. */
  function MarkAsError(db: Db, id: nat, now: nat): (r: Db)
    ensures |r.chats| == |db.chats|
    ensures forall i :: 0 <= i < |db.chats| && i != id - 1 ==> r.chats[i] == db.chats[i]
    ensures 1 <= id <= |db.chats| ==> var c, c' := db.chats[id - 1], r.chats[id - 1];
      StateOf(c') == Errored && c'.hasError && !c'.isCompleted
      && c'.id == c.id && c'.userId == c.userId && c'.title == c.title
    ensures r.users == db.users && r.messages == db.messages && r.daily == db.daily
    ensures Wf(db) ==> Wf(r)
  {
    UpdateChat(db, id, (c: Chat) => c.(isCompleted := false, hasError := true, updatedAt := now))
  }

  // ---------------------------------------------------------------------
  // messageQueries
  // ---------------------------------------------------------------------

  function InChat(chatId: nat): Message -> bool {
    (m: Message) => m.chatId == chatId
  }

  /**
   `findByChatId`: exactly the chat's messages, oldest first (`ORDER BY
   created_at ASC`).
   */
  function MessagesOf(db: Db, chatId: nat): (r: seq<Message>)
    ensures forall i :: 0 <= i < |r| ==> r[i].chatId == chatId && r[i] in db.messages
    ensures forall m :: m in db.messages && m.chatId == chatId ==> m in r
  {
    Filter(db.messages, InChat(chatId))
  }

  /** The listing is oldest first: identifiers strictly increase along it. */
  lemma MessagesOfOldestFirst(db: Db, chatId: nat)
    requires Wf(db)
    ensures var r := MessagesOf(db, chatId);
      forall i, j :: 0 <= i < j < |r| ==> r[i].id < r[j].id
  {
    assert IncreasingBy(db.messages, MessageKey);
    FilterIncreasing(db.messages, InChat(chatId), MessageKey);
  }

  /**
   `messageQueries.create`: appends one message with the next identifier;
   `AppendedMessageIsLast` relates it to the listings.
   */
  function AppendMessage(db: Db, chatId: nat, content: string, isUser: bool): (r: Db)
    ensures r.messages == db.messages + [Message(|db.messages| + 1, chatId, content, isUser)]
    ensures r.users == db.users && r.chats == db.chats && r.daily == db.daily
    ensures Wf(db) ==> Wf(r)
  {
    db.(messages := db.messages + [Message(|db.messages| + 1, chatId, content, isUser)])
  }

  /** The appended message becomes the last message of its chat; every other chat's messages are unchanged. */
  lemma AppendedMessageIsLast(db: Db, chatId: nat, content: string, isUser: bool)
    ensures var r := AppendMessage(db, chatId, content, isUser);
      MessagesOf(r, chatId) == MessagesOf(db, chatId) + [Message(|db.messages| + 1, chatId, content, isUser)]
      && forall other :: other != chatId ==> MessagesOf(r, other) == MessagesOf(db, other)
  {
    ListingAfterAppends(db, AppendMessage(db, chatId, content, isUser), chatId, [Message(|db.messages| + 1, chatId, content, isUser)]);
  }

  /**
   Messages appended to one chat extend that chat's listing by exactly
   those messages, in order, and leave every other chat's listing alone.
   */
  lemma ListingAfterAppends(db: Db, r: Db, chatId: nat, added: seq<Message>)
    requires r.messages == db.messages + added
    requires forall i :: 0 <= i < |added| ==> added[i].chatId == chatId
    ensures MessagesOf(r, chatId) == MessagesOf(db, chatId) + added
    ensures forall other :: other != chatId ==> MessagesOf(r, other) == MessagesOf(db, other)
  {
    FilterAppend(db.messages, added, InChat(chatId));
    FilterAll(added, InChat(chatId));
    forall other | other != chatId
      ensures MessagesOf(r, other) == MessagesOf(db, other)
    {
      FilterAppend(db.messages, added, InChat(other));
      FilterNone(added, InChat(other));
    }
  }

  // ---------------------------------------------------------------------
  // dailyChatQueries
  // ---------------------------------------------------------------------

  /** `getTodayCount`: the stored count for (user, day), 0 when there is no row. */
  function GetTodayCount(db: Db, userId: nat, day: Day): (n: nat)
    ensures (userId, day) !in db.daily ==> n == 0
    ensures (userId, day) in db.daily ==> n == db.daily[(userId, day)]
  {
    if (userId, day) in db.daily then db.daily[(userId, day)] else 0
  }

  /**
   `incrementTodayCount`: the upsert that inserts 1 or adds 1, returning the
   new count. Every other (user, day) count is unchanged.
   */
  function IncrementTodayCount(db: Db, userId: nat, day: Day): (r: (Db, nat))
    ensures r.1 == GetTodayCount(db, userId, day) + 1
    ensures (userId, day) !in db.daily ==> r.1 == 1
    ensures GetTodayCount(r.0, userId, day) == r.1
    ensures forall u: nat, d: Day :: (u, d) != (userId, day) ==> GetTodayCount(r.0, u, d) == GetTodayCount(db, u, d)
    ensures r.0.daily.Keys == db.daily.Keys + {(userId, day)}
    ensures r.0.users == db.users && r.0.chats == db.chats && r.0.messages == db.messages
    ensures Wf(db) ==> Wf(r.0)
  {
    var n := if (userId, day) in db.daily then db.daily[(userId, day)] + 1 else 1;
    (db.(daily := db.daily[(userId, day) := n]), n)
  }

  /** The limit literal of `canCreateChat`. */
  function MaxChats(isPremium: bool): nat {
    if isPremium then 20 else 5
  }

  /** `canCreateChat`: today's count is below the tier's limit. */
  function CanCreateChat(db: Db, userId: nat, isPremium: bool, day: Day): (b: bool)
    ensures b <==> GetTodayCount(db, userId, day) < (if isPremium then 20 else 5)
  {
    GetTodayCount(db, userId, day) < MaxChats(isPremium)
  }
}
