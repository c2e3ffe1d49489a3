/**
 * The durable store of chat-app/server/database.js: three SQLite tables
 * (rooms, messages, reactions) held as a map and two sequences of rows in
 * insertion order, with the key, foreign-key and uniqueness constraints of
 * the schema as the class invariant.
 */
module ChatStore {
  import opened Common
  import opened Protocol
  import opened ReactionCodec

  /** A `rooms` row: the pin and the insertion timestamp. */
  datatype RoomRow = RoomRow(pin: string, createdAt: int)

  /** What `saveMessage` is given: the client's message object, whose `type` may be missing. */
  datatype MessageData = MessageData(
    id: string,
    roomId: string,
    author: string,
    username: string,
    message: string,
    kind: Option<string>,
    time: string,
    replyTo: Option<Reply>)

  /** A `messages` row; `kind` is the `type` column, `replyTo` the decoded `reply_to` column. */
  datatype MessageRow = MessageRow(
    id: string,
    roomId: string,
    author: string,
    username: string,
    message: string,
    kind: string,
    time: string,
    replyTo: Option<Reply>,
    createdAt: int)

  /** A `reactions` row (its integer rowid is the position in the sequence). */
  datatype ReactionRow = ReactionRow(messageId: string, username: string, reaction: string)

  /** `messageData.type || 'text'`: a missing or empty type is stored as `"text"`. */
  function StoredKind(kind: Option<string>): (k: string)
    ensures kind.None? || kind.value == "" ==> k == "text"
    ensures kind.Some? && kind.value != "" ==> k == kind.value
  {
    if kind.Some? && kind.value != "" then kind.value else "text"
  }

  /** The row `saveMessage` inserts at time `now`. */
  function NewRow(data: MessageData, now: int): MessageRow
  {
    MessageRow(data.id, data.roomId, data.author, data.username, data.message,
               StoredKind(data.kind), data.time, data.replyTo, now)
  }

  predicate HasMessage(rows: seq<MessageRow>, id: string)
  {
    exists i :: 0 <= i < |rows| && rows[i].id == id
  }

  /** The `id` primary key: no two rows share an id. */
  predicate DistinctIds(rows: seq<MessageRow>)
  {
    forall i, j :: 0 <= i < j < |rows| ==> rows[i].id != rows[j].id
  }

  /** `UNIQUE(message_id, username)`. */
  predicate UniqueReactions(rows: seq<ReactionRow>)
  {
    forall i, j :: 0 <= i < j < |rows| ==>
      !(rows[i].messageId == rows[j].messageId && rows[i].username == rows[j].username)
  }

  /** Position of the `(messageId, username)` row, or -1. */
  function ReactionIndex(rows: seq<ReactionRow>, messageId: string, username: string): (k: int)
    ensures -1 <= k < |rows|
    ensures k == -1 <==> forall i :: 0 <= i < |rows| ==> !(rows[i].messageId == messageId && rows[i].username == username)
    ensures k >= 0 ==> rows[k].messageId == messageId && rows[k].username == username
    ensures k >= 0 ==> forall i :: 0 <= i < k ==> !(rows[i].messageId == messageId && rows[i].username == username)
  {
    if rows == [] then -1
    else if rows[0].messageId == messageId && rows[0].username == username then 0
    else
      var k := ReactionIndex(rows[1..], messageId, username);
      if k == -1 then -1 else k + 1
  }

  /** The reaction stored for `(messageId, username)`, if any. */
  function ReactionOf(rows: seq<ReactionRow>, messageId: string, username: string): Option<string>
  {
    var k := ReactionIndex(rows, messageId, username);
    if k == -1 then None else Some(rows[k].reaction)
  }

  /** `INSERT … ON CONFLICT(message_id, username) DO UPDATE SET reaction = excluded.reaction`. */
  function Upsert(rows: seq<ReactionRow>, messageId: string, username: string, reaction: string): seq<ReactionRow>
  {
    var k := ReactionIndex(rows, messageId, username);
    if k == -1 then rows + [ReactionRow(messageId, username, reaction)]
    else rows[k := rows[k].(reaction := reaction)]
  }

  /** The first row with the key is at `p`. */
  lemma IndexAt(rows: seq<ReactionRow>, messageId: string, username: string, p: int)
    requires 0 <= p < |rows| && rows[p].messageId == messageId && rows[p].username == username
    requires forall i :: 0 <= i < p ==> !(rows[i].messageId == messageId && rows[i].username == username)
    ensures ReactionIndex(rows, messageId, username) == p
  {
  }

  /** An upsert keeps the uniqueness constraint. */
  lemma UpsertKeepsUnique(rows: seq<ReactionRow>, messageId: string, username: string, reaction: string)
    requires UniqueReactions(rows)
    ensures UniqueReactions(Upsert(rows, messageId, username, reaction))
  {
  }

  /**
   * After an upsert the key holds the new reaction, every other key holds
   * what it held, and the table grew by a row exactly when the key was new.
   */
  lemma UpsertLookup(rows: seq<ReactionRow>, messageId: string, username: string, reaction: string,
                     otherMessage: string, otherUser: string)
    requires UniqueReactions(rows)
    ensures ReactionOf(Upsert(rows, messageId, username, reaction), messageId, username) == Some(reaction)
    ensures (otherMessage, otherUser) != (messageId, username) ==>
      ReactionOf(Upsert(rows, messageId, username, reaction), otherMessage, otherUser) == ReactionOf(rows, otherMessage, otherUser)
    ensures |Upsert(rows, messageId, username, reaction)| == |rows| + (if ReactionOf(rows, messageId, username).None? then 1 else 0)
  {
    var after := Upsert(rows, messageId, username, reaction);
    var k := ReactionIndex(rows, messageId, username);
    assert forall i :: 0 <= i < |rows| && i != k ==> after[i] == rows[i];
    if k == -1 {
      IndexAt(after, messageId, username, |rows|);
    } else {
      IndexAt(after, messageId, username, k);
    }
    if (otherMessage, otherUser) != (messageId, username) {
      var j := ReactionIndex(rows, otherMessage, otherUser);
      if j == -1 {
        assert forall i :: 0 <= i < |after| ==> !(after[i].messageId == otherMessage && after[i].username == otherUser);
      } else {
        IndexAt(after, otherMessage, otherUser, j);
      }
    }
  }

  /** A second reaction by the same user to the same message overwrites the first. */
  lemma SecondReactionOverwrites(rows: seq<ReactionRow>, messageId: string, username: string, first: string, second: string)
    ensures Upsert(Upsert(rows, messageId, username, first), messageId, username, second)
         == Upsert(rows, messageId, username, second)
  {
    var k := ReactionIndex(rows, messageId, username);
    var once := Upsert(rows, messageId, username, first);
    assert forall i :: 0 <= i < |rows| && i != k ==> once[i] == rows[i];
    if k == -1 {
      IndexAt(once, messageId, username, |rows|);
    } else {
      IndexAt(once, messageId, username, k);
    }
  }

  /** `SELECT username, reaction FROM reactions WHERE message_id = ?`, in rowid order. */
  function EntriesFor(rows: seq<ReactionRow>, messageId: string): (es: seq<Entry>)
    ensures forall e :: e in es <==> ReactionRow(messageId, e.username, e.reaction) in rows
  {
    if rows == [] then []
    else
      var rest := EntriesFor(rows[1..], messageId);
      assert forall r :: r in rows <==> r == rows[0] || r in rows[1..];
      if rows[0].messageId == messageId then [Entry(rows[0].username, rows[0].reaction)] + rest else rest
  }

  /** Under the uniqueness constraint a message's rows name each username once. */
  lemma {:induction false} EntriesForDistinct(rows: seq<ReactionRow>, messageId: string)
    requires UniqueReactions(rows)
    ensures DistinctUsers(EntriesFor(rows, messageId))
  {
    if rows != [] {
      TailKeepsUnique(rows);
      EntriesForDistinct(rows[1..], messageId);
      if rows[0].messageId == messageId {
        HeadUserFresh(rows, messageId);
        DistinctCons(Entry(rows[0].username, rows[0].reaction), EntriesFor(rows[1..], messageId));
      }
    }
  }

  lemma TailKeepsUnique(rows: seq<ReactionRow>)
    requires rows != []
    ensures UniqueReactions(rows) ==> UniqueReactions(rows[1..])
  {
    if UniqueReactions(rows) {
      var tail := rows[1..];
      forall i, j | 0 <= i < j < |tail|
        ensures !(tail[i].messageId == tail[j].messageId && tail[i].username == tail[j].username)
      {
        assert tail[i] == rows[i + 1] && tail[j] == rows[j + 1];
      }
    }
  }

  /** The first row can go back in front of any selection of the others. */
  lemma ConsKeepsUnique(rows: seq<ReactionRow>, rest: seq<ReactionRow>)
    requires rows != [] && forall r :: r in rest ==> r in rows[1..]
    ensures UniqueReactions(rows) && UniqueReactions(rest) ==> UniqueReactions([rows[0]] + rest)
  {
    if UniqueReactions(rows) && UniqueReactions(rest) {
      var out := [rows[0]] + rest;
      forall i, j | 0 <= i < j < |out|
        ensures !(out[i].messageId == out[j].messageId && out[i].username == out[j].username)
      {
        assert out[j] == rest[j - 1] && rest[j - 1] in rows[1..];
        if i == 0 {
          var t :| 0 <= t < |rows| - 1 && rows[1..][t] == rest[j - 1];
          assert rows[t + 1] == rest[j - 1];
        } else {
          assert out[i] == rest[i - 1];
        }
      }
    }
  }

  /** The first row's username has no second row for the same message. */
  lemma HeadUserFresh(rows: seq<ReactionRow>, messageId: string)
    requires rows != [] && UniqueReactions(rows) && rows[0].messageId == messageId
    ensures forall e :: e in EntriesFor(rows[1..], messageId) ==> e.username != rows[0].username
  {
    var tail := rows[1..];
    forall e | e in EntriesFor(tail, messageId)
      ensures e.username != rows[0].username
    {
      assert ReactionRow(messageId, e.username, e.reaction) in tail;
      var t :| 0 <= t < |tail| && tail[t] == ReactionRow(messageId, e.username, e.reaction);
      assert rows[t + 1] == tail[t];
    }
  }

  /** Prepending an entry whose username is new keeps the usernames distinct. */
  lemma DistinctCons(e: Entry, rest: seq<Entry>)
    requires DistinctUsers(rest)
    requires forall x :: x in rest ==> x.username != e.username
    ensures DistinctUsers([e] + rest)
  {
    var es := [e] + rest;
    forall i, j | 0 <= i < j < |es|
      ensures es[i].username != es[j].username
    {
      assert es[j] == rest[j - 1];
      if i > 0 {
        assert es[i] == rest[i - 1];
      } else {
        assert rest[j - 1] in rest;
      }
    }
  }

  /** The map `getReactions` builds, specified on its query's rows. */
  function ReactionsFor(rows: seq<ReactionRow>, messageId: string): map<string, string>
  {
    EntriesToMap(EntriesFor(rows, messageId))
  }

  /**
   * Under the uniqueness constraint, `getReactions` holds exactly the
   * table's reactions for the message: a username is a key exactly when it
   * has a row, and maps to that row's reaction.
   */
  lemma ReactionsForExact(rows: seq<ReactionRow>, messageId: string)
    requires UniqueReactions(rows)
    ensures forall u :: u in ReactionsFor(rows, messageId) <==> exists r :: ReactionRow(messageId, u, r) in rows
    ensures forall r :: r in rows && r.messageId == messageId ==>
      r.username in ReactionsFor(rows, messageId) && ReactionsFor(rows, messageId)[r.username] == r.reaction
  {
    var es := EntriesFor(rows, messageId);
    EntriesForDistinct(rows, messageId);
    EntriesToMapOfDistinct(es);
    forall u | u in ReactionsFor(rows, messageId)
      ensures exists r :: ReactionRow(messageId, u, r) in rows
    {
      var i :| 0 <= i < |es| && es[i].username == u;
      assert es[i] in es;
    }
    forall u, r | ReactionRow(messageId, u, r) in rows
      ensures u in ReactionsFor(rows, messageId) && ReactionsFor(rows, messageId)[u] == r
    {
      assert Entry(u, r) in es;
      var i :| 0 <= i < |es| && es[i] == Entry(u, r);
    }
    forall row | row in rows && row.messageId == messageId
      ensures row.username in ReactionsFor(rows, messageId) && ReactionsFor(rows, messageId)[row.username] == row.reaction
    {
      assert ReactionRow(messageId, row.username, row.reaction) == row;
    }
  }

  lemma TailKeepsDistinctIds(rows: seq<MessageRow>)
    requires rows != []
    ensures DistinctIds(rows) ==> DistinctIds(rows[1..])
  {
    if DistinctIds(rows) {
      forall i, j | 0 <= i < j < |rows| - 1
        ensures rows[1..][i].id != rows[1..][j].id
      {
        assert rows[1..][i] == rows[i + 1] && rows[1..][j] == rows[j + 1];
      }
    }
  }

  /** The first row can go back in front of any selection of the others. */
  lemma ConsKeepsDistinctIds(rows: seq<MessageRow>, rest: seq<MessageRow>)
    requires rows != [] && forall x :: x in rest ==> x in rows[1..]
    ensures DistinctIds(rows) && DistinctIds(rest) ==> DistinctIds([rows[0]] + rest)
  {
    if DistinctIds(rows) && DistinctIds(rest) {
      var out := [rows[0]] + rest;
      forall i, j | 0 <= i < j < |out|
        ensures out[i].id != out[j].id
      {
        assert out[j] == rest[j - 1] && rest[j - 1] in rows[1..];
        if i == 0 {
          var t :| 0 <= t < |rows| - 1 && rows[1..][t] == rest[j - 1];
          assert rows[t + 1] == rest[j - 1];
        } else {
          assert out[i] == rest[i - 1];
        }
      }
    }
  }

  /** The rows of `rows` that satisfy `p`, in their order (a `WHERE` clause). */
  function Keep(rows: seq<MessageRow>, p: MessageRow -> bool): (out: seq<MessageRow>)
    ensures forall x :: x in out <==> x in rows && p(x)
    ensures DistinctIds(rows) ==> DistinctIds(out)
  {
    if rows == [] then []
    else
      var rest := Keep(rows[1..], p);
      assert forall x :: x in rows <==> x == rows[0] || x in rows[1..];
      TailKeepsDistinctIds(rows);
      ConsKeepsDistinctIds(rows, rest);
      if p(rows[0]) then [rows[0]] + rest
      else rest
  }

  /** `WHERE m.room_id = ?`: the room's rows in insertion order. */
  function InRoom(rows: seq<MessageRow>, roomId: string): seq<MessageRow>
  {
    Keep(rows, (x: MessageRow) => x.roomId == roomId)
  }

  predicate SortedByCreation(rows: seq<MessageRow>)
  {
    forall i, j :: 0 <= i < j < |rows| ==> rows[i].createdAt <= rows[j].createdAt
  }

  /** A row no later than every row of a sorted sequence can go in front of it. */
  lemma SortedCons(head: MessageRow, rest: seq<MessageRow>)
    requires SortedByCreation(rest)
    requires forall y :: y in rest ==> head.createdAt <= y.createdAt
    ensures SortedByCreation([head] + rest)
  {
    var out := [head] + rest;
    forall i, j | 0 <= i < j < |out|
      ensures out[i].createdAt <= out[j].createdAt
    {
      assert out[j] == rest[j - 1];
      if i == 0 {
        assert rest[j - 1] in rest;
      } else {
        assert out[i] == rest[i - 1];
      }
    }
  }

  /** The rows of `rest` are `tail`'s and `x`, none earlier than `head`. */
  lemma HeadBelowInsert(head: MessageRow, x: MessageRow, tail: seq<MessageRow>, rest: seq<MessageRow>)
    requires head.createdAt <= x.createdAt
    requires forall i :: 0 <= i < |tail| ==> head.createdAt <= tail[i].createdAt
    requires multiset(rest) == multiset(tail) + multiset{x}
    ensures forall y :: y in rest ==> head.createdAt <= y.createdAt
  {
    forall y | y in rest
      ensures head.createdAt <= y.createdAt
    {
      assert y in multiset(rest);
      if y != x {
        assert y in multiset(tail);
        var t :| 0 <= t < |tail| && tail[t] == y;
      }
    }
  }

  /** A sorted sequence without its first row is sorted, and that row is no later than any of the rest. */
  lemma SortedTail(rows: seq<MessageRow>)
    requires rows != [] && SortedByCreation(rows)
    ensures SortedByCreation(rows[1..])
    ensures forall i :: 0 <= i < |rows[1..]| ==> rows[0].createdAt <= rows[1..][i].createdAt
  {
    var tail := rows[1..];
    forall i, j | 0 <= i < j < |tail|
      ensures tail[i].createdAt <= tail[j].createdAt
    {
      assert tail[i] == rows[i + 1] && tail[j] == rows[j + 1];
    }
    forall i | 0 <= i < |tail|
      ensures rows[0].createdAt <= tail[i].createdAt
    {
      assert tail[i] == rows[i + 1];
    }
  }

  /** A row earlier than the first row of a sorted sequence is earlier than all of it. */
  lemma BeforeFirst(x: MessageRow, rows: seq<MessageRow>)
    requires rows != [] && SortedByCreation(rows) && x.createdAt < rows[0].createdAt
    ensures forall y :: y in rows ==> x.createdAt <= y.createdAt
  {
    forall y | y in rows
      ensures x.createdAt <= y.createdAt
    {
      var t :| 0 <= t < |rows| && rows[t] == y;
      assert t == 0 || rows[0].createdAt <= rows[t].createdAt;
    }
  }

  /** Putting the first row back in front of an insertion into the rest. */
  lemma ConsMultiset(rows: seq<MessageRow>, x: MessageRow, rest: seq<MessageRow>)
    requires rows != [] && multiset(rest) == multiset(rows[1..]) + multiset{x}
    ensures multiset([rows[0]] + rest) == multiset(rows) + multiset{x}
  {
    assert rows == [rows[0]] + rows[1..];
  }

  /** Places `x` after every row created no later than it. */
  function InsertByCreation(x: MessageRow, rows: seq<MessageRow>): (out: seq<MessageRow>)
    requires SortedByCreation(rows)
    ensures SortedByCreation(out)
    ensures multiset(out) == multiset(rows) + multiset{x}
  {
    if rows == [] then [x]
    else if x.createdAt < rows[0].createdAt then
      BeforeFirst(x, rows);
      SortedCons(x, rows);
      [x] + rows
    else
      SortedTail(rows);
      var rest := InsertByCreation(x, rows[1..]);
      HeadBelowInsert(rows[0], x, rows[1..], rest);
      SortedCons(rows[0], rest);
      ConsMultiset(rows, x, rest);
      [rows[0]] + rest
  }

  /**
   * `ORDER BY m.created_at ASC`. Rows with equal timestamps come out in one
   * possible order; SQLite leaves that order open, and no contract fixes it.
   */
  function SortByCreation(rows: seq<MessageRow>): (out: seq<MessageRow>)
    ensures SortedByCreation(out)
    ensures multiset(out) == multiset(rows)
  {
    if rows == [] then []
    else
      var init := rows[..|rows| - 1];
      assert rows == init + [rows[|rows| - 1]];
      InsertByCreation(rows[|rows| - 1], SortByCreation(init))
  }

  /** The rows of `getMessages`' query. */
  function HistoryRows(rows: seq<MessageRow>, roomId: string): seq<MessageRow>
  {
    SortByCreation(InRoom(rows, roomId))
  }

  /** `getMessages` returns only the room's messages, all of them, ordered by creation time. */
  lemma HistoryIsRoomInOrder(rows: seq<MessageRow>, roomId: string)
    ensures SortedByCreation(HistoryRows(rows, roomId))
    ensures forall x :: x in HistoryRows(rows, roomId) <==> x in rows && x.roomId == roomId
    ensures multiset(HistoryRows(rows, roomId)) == multiset(InRoom(rows, roomId))
  {
    var h := HistoryRows(rows, roomId);
    forall x
      ensures x in h <==> x in InRoom(rows, roomId)
    {
      assert x in h <==> x in multiset(h);
    }
  }

  /** The record `getMessages` builds from a row and its decoded reactions (`messages.map`). */
  function ToMessage(row: MessageRow, reactions: Reactions): (m: Message)
    ensures m.id == row.id && m.roomId == row.roomId && m.author == row.author
    ensures m.username == row.username && m.message == row.message && m.kind == row.kind
    ensures m.time == row.time && m.replyTo == row.replyTo && m.reactions == Some(reactions)
  {
    Message(row.id, row.roomId, row.author, row.username, row.message, row.kind, row.time, row.replyTo, Some(reactions))
  }

  /** One message of the history: the row plus the decoded `reactions_data` of its joined reactions. */
  function View(row: MessageRow, reactionRows: seq<ReactionRow>): Message
  {
    ToMessage(row, Decode(GroupConcat(EntriesFor(reactionRows, row.id))))
  }

  function Views(rows: seq<MessageRow>, reactionRows: seq<ReactionRow>): (out: seq<Message>)
    ensures |out| == |rows|
    ensures forall i :: 0 <= i < |rows| ==> out[i] == View(rows[i], reactionRows)
  {
    if rows == [] then []
    else Views(rows[..|rows| - 1], reactionRows) + [View(rows[|rows| - 1], reactionRows)]
  }

  /** What `getMessages(roomId)` returns. */
  function History(rows: seq<MessageRow>, reactionRows: seq<ReactionRow>, roomId: string): seq<Message>
  {
    Views(HistoryRows(rows, roomId), reactionRows)
  }

  /** Every reaction row of the table carries clean tokens. */
  predicate CleanReactions(rows: seq<ReactionRow>)
  {
    forall i :: 0 <= i < |rows| ==> Clean(rows[i].username) && Clean(rows[i].reaction)
  }

  /**
   * With clean tokens, the reactions `getMessages` attaches to each message
   * are those `getReactions` returns for it.
   */
  lemma HistoryReactionsAgree(rows: seq<MessageRow>, reactionRows: seq<ReactionRow>, roomId: string)
    requires CleanReactions(reactionRows)
    ensures var h := History(rows, reactionRows, roomId);
      forall i :: 0 <= i < |h| ==> h[i].reactions == Some(ReactionsFor(reactionRows, h[i].id))
  {
    var h := History(rows, reactionRows, roomId);
    forall i | 0 <= i < |h|
      ensures h[i].reactions == Some(ReactionsFor(reactionRows, h[i].id))
    {
      var es := EntriesFor(reactionRows, h[i].id);
      forall k | 0 <= k < |es|
        ensures Clean(es[k].username) && Clean(es[k].reaction)
      {
        assert es[k] in es;
        var t :| 0 <= t < |reactionRows| && reactionRows[t] == ReactionRow(h[i].id, es[k].username, es[k].reaction);
      }
      RoundTrip(es);
    }
  }

  /** Rows of `rows` other than message `id`. */
  function WithoutMessage(rows: seq<MessageRow>, id: string): seq<MessageRow>
  {
    Keep(rows, (x: MessageRow) => x.id != id)
  }

  /** Rows of `rows` in any room but `roomId`. */
  function OutsideRoom(rows: seq<MessageRow>, roomId: string): seq<MessageRow>
  {
    Keep(rows, (x: MessageRow) => x.roomId != roomId)
  }

  /** `ON DELETE CASCADE` onto reactions: the rows whose message is still in `messages`. */
  function ReactionsOfLive(rows: seq<ReactionRow>, messages: seq<MessageRow>): (out: seq<ReactionRow>)
    ensures forall r :: r in out <==> r in rows && HasMessage(messages, r.messageId)
    ensures UniqueReactions(rows) ==> UniqueReactions(out)
  {
    if rows == [] then []
    else
      var rest := ReactionsOfLive(rows[1..], messages);
      assert forall r :: r in rows <==> r == rows[0] || r in rows[1..];
      TailKeepsUnique(rows);
      ConsKeepsUnique(rows, rest);
      if HasMessage(messages, rows[0].messageId) then [rows[0]] + rest
      else rest
  }

  class Store {
    var rooms: map<string, RoomRow>
    var messages: seq<MessageRow>
    var reactions: seq<ReactionRow>

    /** The schema's constraints: primary keys, foreign keys and `UNIQUE(message_id, username)`. */
    ghost predicate Valid()
      reads this
    {
      DistinctIds(messages)
      && (forall i :: 0 <= i < |messages| ==> messages[i].roomId in rooms)
      && UniqueReactions(reactions)
      && (forall i :: 0 <= i < |reactions| ==> HasMessage(messages, reactions[i].messageId))
    }

    /** A fresh database: `initializeDatabase` on an empty file. */
    constructor()
      ensures Valid()
      ensures rooms == map[] && messages == [] && reactions == []
    {
      rooms := map[];
      messages := [];
      reactions := [];
    }

    /** `INSERT OR IGNORE INTO rooms`: an existing room, and its pin, stay as they were. */
    method CreateRoom(roomId: string, pin: string, now: int)
      requires Valid()
      modifies this
      ensures Valid()
      ensures rooms == if roomId in old(rooms) then old(rooms) else old(rooms)[roomId := RoomRow(pin, now)]
      ensures messages == old(messages) && reactions == old(reactions)
    {
      if roomId !in rooms {
        rooms := rooms[roomId := RoomRow(pin, now)];
      }
    }

    /** `getRoom`: the room's row, or nothing for an unknown id. */
    function GetRoom(roomId: string): (row: Option<RoomRow>)
      reads this
      ensures row.Some? <==> roomId in rooms
      ensures row.Some? ==> row.value == rooms[roomId]
    {
      if roomId in rooms then Some(rooms[roomId]) else None
    }

    /**
     * `INSERT INTO messages`: it succeeds exactly when the id is new and the
     * room exists (the primary and foreign keys), and appends the row with
     * the type defaulted.
     */
    method SaveMessage(data: MessageData, now: int) returns (ok: bool)
      requires Valid()
      modifies this
      ensures Valid()
      ensures ok <==> data.roomId in old(rooms) && !HasMessage(old(messages), data.id)
      ensures messages == if ok then old(messages) + [NewRow(data, now)] else old(messages)
      ensures rooms == old(rooms) && reactions == old(reactions)
    {
      ok := data.roomId in rooms && !HasMessage(messages, data.id);
      if ok {
        var before := messages;
        messages := messages + [NewRow(data, now)];
        assert forall i :: 0 <= i < |before| ==> messages[i] == before[i];
        forall i | 0 <= i < |reactions|
          ensures HasMessage(messages, reactions[i].messageId)
        {
          var t :| 0 <= t < |before| && before[t].id == reactions[i].messageId;
          assert messages[t] == before[t];
        }
      }
    }

    /**
     * The reaction upsert: it succeeds exactly when the message exists (the
     * foreign key), replacing the user's earlier reaction to it if there is one.
     */
    method SaveReaction(messageId: string, username: string, reaction: string) returns (ok: bool)
      requires Valid()
      modifies this
      ensures Valid()
      ensures ok <==> HasMessage(old(messages), messageId)
      ensures reactions == if ok then Upsert(old(reactions), messageId, username, reaction) else old(reactions)
      ensures rooms == old(rooms) && messages == old(messages)
    {
      ok := HasMessage(messages, messageId);
      if ok {
        UpsertKeepsUnique(reactions, messageId, username, reaction);
        reactions := Upsert(reactions, messageId, username, reaction);
      }
    }

    /** `getReactions`: the `forEach` over the message's rows, a later row winning. */
    method GetReactions(messageId: string) returns (result: map<string, string>)
      ensures result == ReactionsFor(reactions, messageId)
    {
      var rows := EntriesFor(reactions, messageId);
      result := map[];
      for i := 0 to |rows|
        invariant result == EntriesToMap(rows[..i])
      {
        result := result[rows[i].username := rows[i].reaction];
        assert rows[..i + 1][..i] == rows[..i];
      }
      assert rows[..|rows|] == rows;
    }

    /** `getMessages`: the room's rows by creation time, each with its reactions decoded. */
    method GetMessages(roomId: string) returns (out: seq<Message>)
      ensures out == History(messages, reactions, roomId)
    {
      var rows := HistoryRows(messages, roomId);
      out := [];
      for i := 0 to |rows|
        invariant out == Views(rows[..i], reactions)
      {
        var data := GroupConcat(EntriesFor(reactions, rows[i].id));
        var decoded := DecodeReactions(data);
        out := out + [ToMessage(rows[i], decoded)];
        assert rows[..i + 1][..i] == rows[..i];
      }
      assert rows[..|rows|] == rows;
    }

    /** `DELETE FROM messages WHERE id = ?`, cascading to the message's reactions. */
    method DeleteMessage(id: string)
      requires Valid()
      modifies this
      ensures Valid()
      ensures messages == WithoutMessage(old(messages), id)
      ensures reactions == ReactionsOfLive(old(reactions), messages)
      ensures rooms == old(rooms)
    {
      messages := WithoutMessage(messages, id);
      reactions := ReactionsOfLive(reactions, messages);
      forall i | 0 <= i < |messages|
        ensures messages[i].roomId in rooms
      {
        assert messages[i] in messages;
      }
      forall i | 0 <= i < |reactions|
        ensures HasMessage(messages, reactions[i].messageId)
      {
        assert reactions[i] in reactions;
      }
    }

    /** `DELETE FROM rooms WHERE room_id = ?`, cascading to its messages and their reactions. */
    method DeleteRoom(roomId: string)
      requires Valid()
      modifies this
      ensures Valid()
      ensures rooms == old(rooms) - {roomId}
      ensures messages == OutsideRoom(old(messages), roomId)
      ensures reactions == ReactionsOfLive(old(reactions), messages)
    {
      rooms := rooms - {roomId};
      var before := messages;
      messages := OutsideRoom(messages, roomId);
      reactions := ReactionsOfLive(reactions, messages);
      forall i | 0 <= i < |messages|
        ensures messages[i].roomId in rooms
      {
        assert messages[i] in messages;
        assert messages[i] in before;
      }
      forall i | 0 <= i < |reactions|
        ensures HasMessage(messages, reactions[i].messageId)
      {
        assert reactions[i] in reactions;
      }
    }
  }

  /** Deleting a message leaves none of its reactions behind. */
  lemma DeleteMessageCascades(rows: seq<MessageRow>, reactionRows: seq<ReactionRow>, id: string)
    requires DistinctIds(rows)
    ensures forall r :: r in ReactionsOfLive(reactionRows, WithoutMessage(rows, id)) ==> r.messageId != id
  {
    var live := WithoutMessage(rows, id);
    forall r | r in ReactionsOfLive(reactionRows, live)
      ensures r.messageId != id
    {
      var t :| 0 <= t < |live| && live[t].id == r.messageId;
      assert live[t] in live;
    }
  }
}
