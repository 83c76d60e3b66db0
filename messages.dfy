/**
 * The session chat routes (backend/src/routes/messages.js): `GET /:sessionId`
 * lists a session's messages oldest first, and `POST /` validates a message,
 * checks the session and the poster's database record, and stores the
 * trimmed text.
 *
 * The message table is the `messages` field of a `MessageLog`; the session
 * table is the set of its ids and the user table the map from the
 * authenticated account id to the database user id. `now` is the clock
 * reading that becomes `createdAt`.
 */
module Messages {
  import opened Wrappers
  import opened JsString

  /** A row of the message table. */
  datatype Message = Message(id: nat, sessionId: string, userId: string, content: string, createdAt: int)

  /** An HTTP status with the JSON body: the payload, or the `error` text. */
  datatype Reply<T> = Reply(status: int, body: Result<T, string>)

  const FieldsRequired: string := "Session ID and message content are required"
  const SessionNotFound: string := "Session not found"
  const UserNotFound: string := "User not found in database"

  // ---- GET /:sessionId ----

  /** The rows of the session, in table order (`where: {sessionId}`). */
  function OfSession(messages: seq<Message>, sessionId: string): (r: seq<Message>)
    ensures forall m :: m in r <==> m in messages && m.sessionId == sessionId
    ensures forall m :: multiset(r)[m] == if m.sessionId == sessionId then multiset(messages)[m] else 0
  {
    if messages == [] then []
    else
      var init, last := messages[..|messages| - 1], messages[|messages| - 1];
      assert messages == init + [last];
      OfSession(init, sessionId) + (if last.sessionId == sessionId then [last] else [])
  }

  predicate SortedByCreatedAt(s: seq<Message>) {
    forall i, j :: 0 <= i < j < |s| ==> s[i].createdAt <= s[j].createdAt
  }

  /** `m` placed into the ordered `s` after every row not later than it. */
  function Insert(s: seq<Message>, m: Message): (r: seq<Message>)
    ensures multiset(r) == multiset(s) + multiset{m}
  {
    if s == [] || s[|s| - 1].createdAt <= m.createdAt then s + [m]
    else
      assert s == s[..|s| - 1] + [s[|s| - 1]];
      Insert(s[..|s| - 1], m) + [s[|s| - 1]]
  }

  lemma {:induction false} InsertSorted(s: seq<Message>, m: Message)
    requires SortedByCreatedAt(s)
    ensures SortedByCreatedAt(Insert(s, m))
    ensures |Insert(s, m)| == |s| + 1
    ensures forall k :: 0 <= k < |s| + 1 ==> Insert(s, m)[k] == m || Insert(s, m)[k] in s
  {
    if s == [] || s[|s| - 1].createdAt <= m.createdAt {
    } else {
      var init := s[..|s| - 1];
      InsertSorted(init, m);
      var r := Insert(init, m);
      forall k | 0 <= k < |r| ensures r[k].createdAt <= s[|s| - 1].createdAt {
        assert r[k] == m || r[k] in init;
      }
    }
  }

  /** `orderBy: {createdAt: 'asc'}`; rows with equal times keep their table order. */
  function SortByCreatedAt(s: seq<Message>): (r: seq<Message>)
    ensures multiset(r) == multiset(s)
  {
    if s == [] then []
    else
      assert s == s[..|s| - 1] + [s[|s| - 1]];
      Insert(SortByCreatedAt(s[..|s| - 1]), s[|s| - 1])
  }

  lemma {:induction false} SortByCreatedAtSorted(s: seq<Message>)
    ensures SortedByCreatedAt(SortByCreatedAt(s))
  {
    if s != [] {
      SortByCreatedAtSorted(s[..|s| - 1]);
      InsertSorted(SortByCreatedAt(s[..|s| - 1]), s[|s| - 1]);
    }
  }

  /** What `GET /:sessionId` answers. */
  function GetMessages(messages: seq<Message>, sessionIds: set<string>, sessionId: string): Reply<seq<Message>> {
    if sessionId !in sessionIds then Reply(404, Err(SessionNotFound))
    else Reply(200, Ok(SortByCreatedAt(OfSession(messages, sessionId))))
  }

  /**
   * An unknown session gets 404; a known one gets exactly its rows, each as
   * often as stored, oldest first.
   */
  lemma GetMessagesFacts(messages: seq<Message>, sessionIds: set<string>, sessionId: string)
    ensures var r := GetMessages(messages, sessionIds, sessionId);
      && (r.status == 404 <==> sessionId !in sessionIds)
      && (r.status == 404 ==> r.body == Err(SessionNotFound))
      && (r.status != 404 ==>
            && r.status == 200 && r.body.Ok?
            && multiset(r.body.value) == multiset(OfSession(messages, sessionId))
            && (forall m :: multiset(r.body.value)[m] == if m.sessionId == sessionId then multiset(messages)[m] else 0)
            && (forall m :: m in r.body.value <==> m in messages && m.sessionId == sessionId)
            && SortedByCreatedAt(r.body.value))
  {
    var r := GetMessages(messages, sessionIds, sessionId);
    if sessionId in sessionIds {
      SortByCreatedAtSorted(OfSession(messages, sessionId));
      forall m ensures m in r.body.value <==> m in OfSession(messages, sessionId) {
        assert m in r.body.value <==> m in multiset(r.body.value);
      }
    }
  }

  // ---- POST / ----

  /** The outcome of a post: the reply and the table afterwards. */
  datatype PostOutcome = PostOutcome(reply: Reply<Message>, messages: seq<Message>)

  /** What `POST /` does; `accountId` is the id of the authenticated account. */
  function Post(messages: seq<Message>, nextId: nat, sessionId: Option<string>, content: Option<string>,
                accountId: string, sessionIds: set<string>, dbUsers: map<string, string>, now: int): PostOutcome
  {
    if !Truthy(sessionId) || !Truthy(content) || Trim(content.value) == "" then
      PostOutcome(Reply(400, Err(FieldsRequired)), messages)
    else if sessionId.value !in sessionIds then
      PostOutcome(Reply(404, Err(SessionNotFound)), messages)
    else if accountId !in dbUsers then
      PostOutcome(Reply(404, Err(UserNotFound)), messages)
    else
      var message := Message(nextId, sessionId.value, dbUsers[accountId], Trim(content.value), now);
      PostOutcome(Reply(201, Ok(message)), messages + [message])
  }

  /**
   * The checks run in order — validation (400), session (404), user (404) —
   * and each failure stores nothing; a success appends exactly one row with
   * the trimmed text, which is neither empty nor padded with white space.
   */
  lemma PostCases(messages: seq<Message>, nextId: nat, sessionId: Option<string>, content: Option<string>,
                  accountId: string, sessionIds: set<string>, dbUsers: map<string, string>, now: int)
    ensures var o := Post(messages, nextId, sessionId, content, accountId, sessionIds, dbUsers, now);
      && (o.reply.status == 400 <==> !Truthy(sessionId) || !Truthy(content) || AllWhiteSpace(content.value))
      && (o.reply.body == Err(SessionNotFound) <==>
            o.reply.status != 400 && sessionId.value !in sessionIds)
      && (o.reply.body == Err(UserNotFound) <==>
            o.reply.status != 400 && sessionId.value in sessionIds && accountId !in dbUsers)
      && (o.reply.body == Err(SessionNotFound) || o.reply.body == Err(UserNotFound) ==> o.reply.status == 404)
      && (o.reply.status == 201 <==>
            && Truthy(sessionId) && Truthy(content) && !AllWhiteSpace(content.value)
            && sessionId.value in sessionIds && accountId in dbUsers)
      && (o.reply.status != 201 ==> o.messages == messages && o.reply.body.Err?)
      && (o.reply.status == 201 ==>
            && o.messages == messages + [o.reply.body.value]
            && o.reply.body.value.sessionId == sessionId.value
            && o.reply.body.value.userId == dbUsers[accountId]
            && o.reply.body.value.content == Trim(content.value)
            && o.reply.body.value.content != ""
            && !IsWhiteSpace(o.reply.body.value.content[0])
            && !IsWhiteSpace(o.reply.body.value.content[|o.reply.body.value.content| - 1]))
  {
    if Truthy(content) {
      TrimEmptyIffAllWhiteSpace(content.value);
      TrimIsCore(content.value);
    }
  }

  /** A stored message is listed by the next `GET` of its session. */
  lemma PostThenGet(messages: seq<Message>, nextId: nat, sessionId: Option<string>, content: Option<string>,
                    accountId: string, sessionIds: set<string>, dbUsers: map<string, string>, now: int)
    requires Post(messages, nextId, sessionId, content, accountId, sessionIds, dbUsers, now).reply.status == 201
    ensures var o := Post(messages, nextId, sessionId, content, accountId, sessionIds, dbUsers, now);
      var r := GetMessages(o.messages, sessionIds, sessionId.value);
      r.status == 200 && o.reply.body.value in r.body.value
  {
    var o := Post(messages, nextId, sessionId, content, accountId, sessionIds, dbUsers, now);
    GetMessagesFacts(o.messages, sessionIds, sessionId.value);
  }

  /** Message ids are distinct and below the next id the table hands out. */
  predicate UniqueIds(messages: seq<Message>, nextId: nat) {
    && (forall i, j :: 0 <= i < j < |messages| ==> messages[i].id != messages[j].id)
    && (forall i :: 0 <= i < |messages| ==> messages[i].id < nextId)
  }

  /** A post keeps the ids unique, and a stored message takes the next id. */
  lemma PostKeepsUniqueIds(messages: seq<Message>, nextId: nat, sessionId: Option<string>, content: Option<string>,
                           accountId: string, sessionIds: set<string>, dbUsers: map<string, string>, now: int)
    requires UniqueIds(messages, nextId)
    ensures var o := Post(messages, nextId, sessionId, content, accountId, sessionIds, dbUsers, now);
      && UniqueIds(o.messages, if o.reply.status == 201 then nextId + 1 else nextId)
      && (o.reply.status == 201 ==> o.reply.body.value.id == nextId)
  {
  }

  /** The message table with the id counter of its id column. */
  class MessageLog {
    var messages: seq<Message>
    var nextId: nat

    /** The id column's uniqueness, kept by every post. */
    predicate Valid()
      reads this
    {
      UniqueIds(messages, nextId)
    }

    constructor()
      ensures Valid() && messages == [] && nextId == 0
    {
      messages := [];
      nextId := 0;
    }

    /** `POST /` by the account `accountId`. */
    method HandlePost(sessionId: Option<string>, content: Option<string>, accountId: string,
                      sessionIds: set<string>, dbUsers: map<string, string>, now: int)
      returns (reply: Reply<Message>)
      requires Valid()
      modifies this
      ensures Valid()
      ensures var o := Post(old(messages), old(nextId), sessionId, content, accountId, sessionIds, dbUsers, now);
        reply == o.reply && messages == o.messages
      ensures nextId == if reply.status == 201 then old(nextId) + 1 else old(nextId)
    {
      if !Truthy(sessionId) || !Truthy(content) || Trim(content.value) == "" {
        return Reply(400, Err(FieldsRequired));
      }
      if sessionId.value !in sessionIds {
        return Reply(404, Err(SessionNotFound));
      }
      if accountId !in dbUsers {
        return Reply(404, Err(UserNotFound));
      }
      PostKeepsUniqueIds(messages, nextId, sessionId, content, accountId, sessionIds, dbUsers, now);
      var message := Message(nextId, sessionId.value, dbUsers[accountId], Trim(content.value), now);
      messages := messages + [message];
      nextId := nextId + 1;
      return Reply(201, Ok(message));
    }

    /** `GET /:sessionId`: the table is only read. */
    method HandleGet(sessionIds: set<string>, sessionId: string) returns (reply: Reply<seq<Message>>)
      ensures reply == GetMessages(messages, sessionIds, sessionId)
    {
      if sessionId !in sessionIds {
        return Reply(404, Err(SessionNotFound));
      }
      reply := Reply(200, Ok(SortByCreatedAt(OfSession(messages, sessionId))));
    }
  }
}
