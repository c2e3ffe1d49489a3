/**
 * The relay server's in-memory room table (chat-app/server/index.js): a
 * dictionary from room id to `{pin, users, messages}`, updated in place by
 * the socket handlers. Every emit is appended to `outbox` as an
 * `Emit(target, notice)` record.
 */
module RoomServer {
  import opened Common
  import opened Protocol

  /** One entry of the table. `users` is the presence list in join order. */
  datatype Room = Room(pin: string, users: seq<User>, messages: seq<Message>)

  /** `s.findIndex(hit)`: the first index whose element satisfies `hit`, or -1. */
  function FirstIndex<T>(s: seq<T>, hit: T -> bool): (k: int)
    ensures -1 <= k < |s|
    ensures k >= 0 ==> hit(s[k]) && forall j :: 0 <= j < k ==> !hit(s[j])
    ensures k == -1 <==> forall j :: 0 <= j < |s| ==> !hit(s[j])
  {
    if |s| == 0 then -1
    else if hit(s[0]) then 0
    else
      var k := FirstIndex(s[1..], hit);
      if k == -1 then -1 else k + 1
  }

  /** `users.findIndex(u => u.id === sid)`. */
  function IndexOfUser(users: seq<User>, sid: string): int
  {
    FirstIndex(users, (u: User) => u.id == sid)
  }

  /** The presence list with the first entry of socket `sid` spliced out (unchanged if none). */
  function RemoveFirst(users: seq<User>, sid: string): (r: seq<User>)
    ensures IndexOfUser(users, sid) == -1 ==> r == users
    ensures IndexOfUser(users, sid) >= 0 ==>
      var k := IndexOfUser(users, sid);
      |r| == |users| - 1 && r == users[..k] + users[k + 1..]
  {
    var k := IndexOfUser(users, sid);
    if k == -1 then users else users[..k] + users[k + 1..]
  }

  /** `messages.find(m => m.id === messageId)`, as an index. */
  function IndexOfMessage(messages: seq<Message>, messageId: string): int
  {
    FirstIndex(messages, (m: Message) => m.id == messageId)
  }

  /**
   * The stored history after `add_reaction`: the first message with that id
   * gets `reactions[username] = reaction`; nothing else changes.
   */
  function ReactInHistory(messages: seq<Message>, messageId: string, username: string, reaction: string): (r: seq<Message>)
    ensures |r| == |messages|
    ensures var k := IndexOfMessage(messages, messageId);
      forall j :: 0 <= j < |messages| && j != k ==> r[j] == messages[j]
    ensures var k := IndexOfMessage(messages, messageId);
      k >= 0 ==> r[k] == WithReaction(messages[k], username, reaction)
  {
    var k := IndexOfMessage(messages, messageId);
    if k == -1 then messages else messages[k := WithReaction(messages[k], username, reaction)]
  }

  /** `disconnect` deletes a room when the socket's entry was its last one. */
  predicate Emptied(room: Room, sid: string)
  {
    IndexOfUser(room.users, sid) >= 0 && |room.users| == 1
  }

  /** A room with the first entry of socket `sid` spliced out of its presence list. */
  function Leave(room: Room, sid: string): Room
  {
    room.(users := RemoveFirst(room.users, sid))
  }

  /** The table after `disconnect` has visited the rooms in `done`. */
  function DisconnectIn(rooms: map<string, Room>, sid: string, done: set<string>): map<string, Room>
  {
    map r | r in rooms && !(r in done && Emptied(rooms[r], sid)) ::
      if r in done then Leave(rooms[r], sid) else rooms[r]
  }

  /** The table after `disconnect` of socket `sid`. */
  function AfterDisconnect(rooms: map<string, Room>, sid: string): map<string, Room>
  {
    DisconnectIn(rooms, sid, rooms.Keys)
  }

  /** The `user_list` emits of `disconnect` when it visits the rooms in `order`. */
  function DisconnectNotices(rooms: map<string, Room>, sid: string, order: seq<string>): seq<Emit>
  {
    if |order| == 0 then []
    else
      var r := order[|order| - 1];
      DisconnectNotices(rooms, sid, order[..|order| - 1]) +
        (if r in rooms then LeaveNotice(r, rooms[r], sid) else [])
  }

  /** The `user_list` emit for room `r` when socket `sid` leaves it (none if it was not there). */
  function LeaveNotice(r: string, room: Room, sid: string): seq<Emit>
  {
    if IndexOfUser(room.users, sid) >= 0 then [Emit(ToRoom(r), UserList(RemoveFirst(room.users, sid)))] else []
  }

  /** `order` lists every key of `keys` exactly once (a `for…in` visiting order). */
  ghost predicate Enumerates(order: seq<string>, keys: set<string>)
  {
    (forall i, j :: 0 <= i < j < |order| ==> order[i] != order[j]) &&
    (forall i :: 0 <= i < |order| ==> order[i] in keys) &&
    (forall k :: k in keys ==> k in order)
  }

  lemma EnumeratesStep(order: seq<string>, keys: set<string>, r: string)
    requires Enumerates(order, keys) && r !in keys
    ensures Enumerates(order + [r], keys + {r})
  {
  }

  /** Every room in the table has somebody present. */
  ghost predicate NoEmptyRooms(rooms: map<string, Room>)
  {
    forall r :: r in rooms ==> |rooms[r].users| > 0
  }

  class Server {
    var rooms: map<string, Room>
    var outbox: seq<Emit>

    ghost predicate Valid()
      reads this
    {
      NoEmptyRooms(rooms)
    }

    constructor ()
      ensures Valid() && rooms == map[] && outbox == []
    {
      rooms := map[];
      outbox := [];
    }

    /** `create_room`: refused when the id is taken; otherwise the creator is the only user. */
    method CreateRoom(sid: string, roomId: string, pin: string, username: string)
      requires Valid()
      modifies this
      ensures Valid()
      ensures roomId in old(rooms) ==>
        rooms == old(rooms) && outbox == old(outbox) + [Emit(ToSocket(sid), Error("Room already exists"))]
      ensures roomId !in old(rooms) ==>
        rooms == old(rooms)[roomId := Room(pin, [User(sid, username)], [])] &&
        outbox == old(outbox) + [Emit(ToSocket(sid), RoomJoined(roomId, username)),
                                 Emit(ToRoom(roomId), UserList([User(sid, username)]))]
    {
      if roomId in rooms {
        outbox := outbox + [Emit(ToSocket(sid), Error("Room already exists"))];
        return;
      }
      rooms := rooms[roomId := Room(pin, [], [])];
      rooms := rooms[roomId := rooms[roomId].(users := rooms[roomId].users + [User(sid, username)])];
      assert rooms[roomId].users == [User(sid, username)];
      outbox := outbox + [Emit(ToSocket(sid), RoomJoined(roomId, username))];
      outbox := outbox + [Emit(ToRoom(roomId), UserList(rooms[roomId].users))];
    }

    /**
     * `join_room`: refused for an unknown room or a PIN that is not exactly
     * the stored one; otherwise the joiner is appended (no dedupe) and gets
     * the stored history.
     */
    method JoinRoom(sid: string, roomId: string, pin: string, username: string)
      requires Valid()
      modifies this
      ensures Valid()
      ensures roomId !in old(rooms) ==>
        rooms == old(rooms) && outbox == old(outbox) + [Emit(ToSocket(sid), Error("Room does not exist"))]
      ensures roomId in old(rooms) && old(rooms)[roomId].pin != pin ==>
        rooms == old(rooms) && outbox == old(outbox) + [Emit(ToSocket(sid), Error("Incorrect PIN"))]
      ensures roomId in old(rooms) && old(rooms)[roomId].pin == pin ==>
        var room := old(rooms)[roomId];
        var users := room.users + [User(sid, username)];
        rooms == old(rooms)[roomId := room.(users := users)] &&
        outbox == old(outbox) + [Emit(ToSocket(sid), RoomJoined(roomId, username)),
                                 Emit(ToSocket(sid), LoadMessages(room.messages)),
                                 Emit(ToRoom(roomId), UserList(users))]
    {
      if roomId !in rooms {
        outbox := outbox + [Emit(ToSocket(sid), Error("Room does not exist"))];
        return;
      }
      var room := rooms[roomId];
      if room.pin != pin {
        outbox := outbox + [Emit(ToSocket(sid), Error("Incorrect PIN"))];
        return;
      }
      room := room.(users := room.users + [User(sid, username)]);
      rooms := rooms[roomId := room];
      outbox := outbox + [Emit(ToSocket(sid), RoomJoined(roomId, username)),
                          Emit(ToSocket(sid), LoadMessages(room.messages)),
                          Emit(ToRoom(roomId), UserList(room.users))];
    }

    /**
     * `send_message`: kept in the room's history only if the room exists;
     * relayed to the room's other sockets in any case.
     */
    method SendMessage(sid: string, data: Message)
      requires Valid()
      modifies this
      ensures Valid()
      ensures data.roomId in old(rooms) ==>
        var room := old(rooms)[data.roomId];
        rooms == old(rooms)[data.roomId := room.(messages := room.messages + [data])]
      ensures data.roomId !in old(rooms) ==> rooms == old(rooms)
      ensures outbox == old(outbox) + [Emit(ToRoomExcept(data.roomId, sid), ReceiveMessage(data))]
    {
      if data.roomId in rooms {
        var room := rooms[data.roomId];
        rooms := rooms[data.roomId := room.(messages := room.messages + [data])];
      }
      outbox := outbox + [Emit(ToRoomExcept(data.roomId, sid), ReceiveMessage(data))];
    }

    /** `typing`: relayed to the room's other sockets; nothing stored. */
    method Typing(sid: string, roomId: string, username: string, isTyping: bool)
      modifies this
      ensures rooms == old(rooms)
      ensures outbox == old(outbox) + [Emit(ToRoomExcept(roomId, sid), UserTyping(username, isTyping))]
    {
      outbox := outbox + [Emit(ToRoomExcept(roomId, sid), UserTyping(username, isTyping))];
    }

    /**
     * `add_reaction`: broadcast to the whole room, reactor included; then the
     * first stored message with that id gets `reactions[username] = reaction`.
     * An unknown room or message changes nothing stored.
     */
    method AddReaction(roomId: string, messageId: string, reaction: string, username: string)
      requires Valid()
      modifies this
      ensures Valid()
      ensures outbox == old(outbox) + [Emit(ToRoom(roomId), MessageReaction(messageId, reaction, username))]
      ensures roomId !in old(rooms) ==> rooms == old(rooms)
      ensures roomId in old(rooms) ==>
        var room := old(rooms)[roomId];
        rooms == old(rooms)[roomId := room.(messages := ReactInHistory(room.messages, messageId, username, reaction))]
    {
      outbox := outbox + [Emit(ToRoom(roomId), MessageReaction(messageId, reaction, username))];
      if roomId in rooms {
        var room := rooms[roomId];
        var k := IndexOfMessage(room.messages, messageId);
        if k != -1 {
          var msg := room.messages[k];
          var reactions := if msg.reactions.None? then map[] else msg.reactions.value;
          msg := msg.(reactions := Some(reactions[username := reaction]));
          rooms := rooms[roomId := room.(messages := room.messages[k := msg])];
        }
      }
    }

    /** `call_user`: forwards exactly `{signal, from, name}`; `isVideo` is not passed on. */
    method CallUser(userToCall: string, signalData: Signal, from: string, name: string, isVideo: bool)
      modifies this
      ensures rooms == old(rooms)
      ensures outbox == old(outbox) + [Emit(ToSocket(userToCall), IncomingCall(signalData, from, name))]
    {
      outbox := outbox + [Emit(ToSocket(userToCall), IncomingCall(signalData, from, name))];
    }

    /** `answer_call`: forwards the answer to `to` as `call_accepted`. */
    method AnswerCall(signal: Signal, to: string)
      modifies this
      ensures rooms == old(rooms)
      ensures outbox == old(outbox) + [Emit(ToSocket(to), CallAccepted(signal))]
    {
      outbox := outbox + [Emit(ToSocket(to), CallAccepted(signal))];
    }

    /** `ice_candidate`: forwards the bare candidate to `to`. */
    method IceCandidate(to: string, candidate: Candidate)
      modifies this
      ensures rooms == old(rooms)
      ensures outbox == old(outbox) + [Emit(ToSocket(to), Ice(candidate))]
    {
      outbox := outbox + [Emit(ToSocket(to), Ice(candidate))];
    }

    /** `end_call`: forwards an empty `end_call` to `to`. */
    method EndCall(to: string)
      modifies this
      ensures rooms == old(rooms)
      ensures outbox == old(outbox) + [Emit(ToSocket(to), CallEnded)]
    {
      outbox := outbox + [Emit(ToSocket(to), CallEnded)];
    }

    /**
     * `disconnect`: in every room, splice out the first entry of the socket,
     * emit the new list, and delete the room (history included) once its
     * list is empty. Rooms are visited in an unspecified order.
     */
    method Disconnect(sid: string)
      requires Valid()
      modifies this
      ensures Valid()
      ensures rooms == AfterDisconnect(old(rooms), sid)
      ensures exists order :: (Enumerates(order, old(rooms).Keys) &&
        outbox == old(outbox) + DisconnectNotices(old(rooms), sid, order))
    {
      ghost var start := rooms;
      ghost var sent := outbox;
      ghost var order: seq<string> := [];
      ghost var done: set<string> := {};
      var pending := rooms.Keys;
      while pending != {}
        invariant DisconnectProgress(start, sid, sent, rooms, outbox, order, done, pending)
        decreases pending
      {
        var r :| r in pending;
        DisconnectStep(start, sid, sent, rooms, outbox, order, done, pending, r);
        LeaveOneRoom(r, sid);
        pending := pending - {r};
        done := done + {r};
        order := order + [r];
      }
      DisconnectComplete(start, sid, rooms, done);
      assert Enumerates(order, start.Keys) && outbox == sent + DisconnectNotices(start, sid, order);
    }

    /** The body of the `disconnect` loop for room `r`. */
    method LeaveOneRoom(r: string, sid: string)
      requires r in rooms && NoEmptyRooms(rooms)
      modifies this
      ensures NoEmptyRooms(rooms)
      ensures rooms == VacateIn(old(rooms), r, sid)
      ensures outbox == old(outbox) + LeaveNotice(r, old(rooms)[r], sid)
    {
      var room := rooms[r];
      var k := IndexOfUser(room.users, sid);
      if k != -1 {
        var users := room.users[..k] + room.users[k + 1..];
        outbox := outbox + [Emit(ToRoom(r), UserList(users))];
        if |users| == 0 {
          rooms := rooms - {r};
        } else {
          rooms := rooms[r := room.(users := users)];
        }
      }
    }

    /**
     * Dispatches one client event of socket `sid` to its handler, with that
     * handler's effect; events without a handler are dropped.
     */
    method Handle(sid: string, req: Request)
      requires Valid()
      modifies this
      ensures Valid()
      ensures match req
        case CreateRoom(roomId, pin, username) =>
          if roomId in old(rooms) then
            rooms == old(rooms) && outbox == old(outbox) + [Emit(ToSocket(sid), Error("Room already exists"))]
          else
            rooms == old(rooms)[roomId := Room(pin, [User(sid, username)], [])] &&
            outbox == old(outbox) + [Emit(ToSocket(sid), RoomJoined(roomId, username)),
                                     Emit(ToRoom(roomId), UserList([User(sid, username)]))]
        case JoinRoom(roomId, pin, username) =>
          if roomId !in old(rooms) then
            rooms == old(rooms) && outbox == old(outbox) + [Emit(ToSocket(sid), Error("Room does not exist"))]
          else if old(rooms)[roomId].pin != pin then
            rooms == old(rooms) && outbox == old(outbox) + [Emit(ToSocket(sid), Error("Incorrect PIN"))]
          else
            var room := old(rooms)[roomId];
            var users := room.users + [User(sid, username)];
            rooms == old(rooms)[roomId := room.(users := users)] &&
            outbox == old(outbox) + [Emit(ToSocket(sid), RoomJoined(roomId, username)),
                                     Emit(ToSocket(sid), LoadMessages(room.messages)),
                                     Emit(ToRoom(roomId), UserList(users))]
        case LeaveRoom => rooms == old(rooms) && outbox == old(outbox)
        case GetUsers(_) => rooms == old(rooms) && outbox == old(outbox)
        case SendMessage(data) =>
          (if data.roomId in old(rooms) then
             var room := old(rooms)[data.roomId];
             rooms == old(rooms)[data.roomId := room.(messages := room.messages + [data])]
           else rooms == old(rooms)) &&
          outbox == old(outbox) + [Emit(ToRoomExcept(data.roomId, sid), ReceiveMessage(data))]
        case Typing(roomId, username, isTyping) =>
          rooms == old(rooms) && outbox == old(outbox) + [Emit(ToRoomExcept(roomId, sid), UserTyping(username, isTyping))]
        case AddReaction(roomId, messageId, reaction, username) =>
          (if roomId in old(rooms) then
             var room := old(rooms)[roomId];
             rooms == old(rooms)[roomId := room.(messages := ReactInHistory(room.messages, messageId, username, reaction))]
           else rooms == old(rooms)) &&
          outbox == old(outbox) + [Emit(ToRoom(roomId), MessageReaction(messageId, reaction, username))]
        case CallUser(userToCall, signalData, from, name, _) =>
          rooms == old(rooms) && outbox == old(outbox) + [Emit(ToSocket(userToCall), IncomingCall(signalData, from, name))]
        case AnswerCall(signal, to) =>
          rooms == old(rooms) && outbox == old(outbox) + [Emit(ToSocket(to), CallAccepted(signal))]
        case IceCandidate(to, candidate) =>
          rooms == old(rooms) && outbox == old(outbox) + [Emit(ToSocket(to), Ice(candidate))]
        case EndCall(to) =>
          rooms == old(rooms) && outbox == old(outbox) + [Emit(ToSocket(to), CallEnded)]
    {
      match req
      case CreateRoom(roomId, pin, username) => CreateRoom(sid, roomId, pin, username);
      case JoinRoom(roomId, pin, username) => JoinRoom(sid, roomId, pin, username);
      case LeaveRoom =>
      case GetUsers(_) =>
      case SendMessage(msg) => SendMessage(sid, msg);
      case Typing(roomId, username, isTyping) => Typing(sid, roomId, username, isTyping);
      case AddReaction(roomId, messageId, reaction, username) => AddReaction(roomId, messageId, reaction, username);
      case CallUser(userToCall, signalData, from, name, isVideo) => CallUser(userToCall, signalData, from, name, isVideo);
      case AnswerCall(signal, to) => AnswerCall(signal, to);
      case IceCandidate(to, candidate) => IceCandidate(to, candidate);
      case EndCall(to) => EndCall(to);
    }
  }

  /** The table with room `r` vacated by socket `sid`. */
  function VacateIn(rooms: map<string, Room>, r: string, sid: string): map<string, Room>
    requires r in rooms
  {
    if Emptied(rooms[r], sid) then rooms - {r} else rooms[r := Leave(rooms[r], sid)]
  }

  /** Loop invariant of `disconnect`: rooms in `done` are vacated, rooms in `pending` untouched. */
  ghost predicate PartlyVacated(start: map<string, Room>, sid: string, rooms: map<string, Room>,
                                done: set<string>, pending: set<string>)
  {
    && rooms.Keys <= start.Keys
    && (forall k :: k in pending ==> k in rooms && rooms[k] == start[k])
    && (forall k :: k in done && k in start ==> (k in rooms <==> !Emptied(start[k], sid)))
    && (forall k :: k in done && k in rooms ==> rooms[k] == Leave(start[k], sid))
  }

  lemma VacateStep(start: map<string, Room>, sid: string, rooms: map<string, Room>,
                   done: set<string>, pending: set<string>, r: string)
    requires r in pending && pending !! done
    requires done <= start.Keys
    requires PartlyVacated(start, sid, rooms, done, pending)
    ensures r in rooms && rooms[r] == start[r]
    ensures PartlyVacated(start, sid, VacateIn(rooms, r, sid), done + {r}, pending - {r})
  {
    var next := VacateIn(rooms, r, sid);
    assert next.Keys <= rooms.Keys;
    forall k | k in pending - {r}
      ensures k in next && next[k] == start[k]
    {
      assert k != r;
    }
    forall k | k in done + {r} && k in start
      ensures k in next <==> !Emptied(start[k], sid)
    {
      if k != r {
        assert k in next <==> k in rooms;
      }
    }
    forall k | k in done + {r} && k in next
      ensures next[k] == Leave(start[k], sid)
    {
      if k != r {
        assert next[k] == rooms[k];
      }
    }
  }

  /** The loop invariant of `disconnect`, over the table and outbox it started from. */
  ghost predicate DisconnectProgress(start: map<string, Room>, sid: string, sent: seq<Emit>,
                                     rooms: map<string, Room>, outbox: seq<Emit>,
                                     order: seq<string>, done: set<string>, pending: set<string>)
  {
    && pending !! done && pending + done == start.Keys
    && Enumerates(order, done)
    && PartlyVacated(start, sid, rooms, done, pending)
    && outbox == sent + DisconnectNotices(start, sid, order)
    && NoEmptyRooms(rooms)
  }

  /** One visit of the `disconnect` loop keeps its invariant. */
  lemma DisconnectStep(start: map<string, Room>, sid: string, sent: seq<Emit>,
                       rooms: map<string, Room>, outbox: seq<Emit>,
                       order: seq<string>, done: set<string>, pending: set<string>, r: string)
    requires DisconnectProgress(start, sid, sent, rooms, outbox, order, done, pending)
    requires r in pending
    ensures r in rooms && rooms[r] == start[r]
    ensures DisconnectProgress(start, sid, sent, VacateIn(rooms, r, sid), outbox + LeaveNotice(r, rooms[r], sid),
                               order + [r], done + {r}, pending - {r})
  {
    VacateStep(start, sid, rooms, done, pending, r);
    NoticesAppend(start, sid, order, r);
    EnumeratesStep(order, done, r);
    VacateKeepsOccupied(rooms, r, sid);
    AppendAssociates(sent, DisconnectNotices(start, sid, order), LeaveNotice(r, start[r], sid));
    MoveKey(pending, done, start.Keys, r);
  }

  lemma AppendAssociates<T>(a: seq<T>, b: seq<T>, c: seq<T>)
    ensures (a + b) + c == a + (b + c)
  {
  }

  /** Moving one key from `pending` to `done` keeps the two a partition of `keys`. */
  lemma MoveKey<K>(pending: set<K>, done: set<K>, keys: set<K>, r: K)
    requires pending !! done && pending + done == keys && r in pending
    ensures (pending - {r}) !! (done + {r}) && (pending - {r}) + (done + {r}) == keys
  {
  }

  /** Vacating one room leaves no room empty. */
  lemma VacateKeepsOccupied(rooms: map<string, Room>, r: string, sid: string)
    requires r in rooms && NoEmptyRooms(rooms)
    ensures NoEmptyRooms(VacateIn(rooms, r, sid))
  {
  }

  /** Once every room has been visited, the table is `AfterDisconnect` of the old one. */
  lemma DisconnectComplete(start: map<string, Room>, sid: string, rooms: map<string, Room>, done: set<string>)
    requires done == start.Keys
    requires PartlyVacated(start, sid, rooms, done, {})
    ensures rooms == AfterDisconnect(start, sid)
  {
    assert rooms.Keys == AfterDisconnect(start, sid).Keys;
  }

  lemma NoticesAppend(rooms: map<string, Room>, sid: string, order: seq<string>, r: string)
    requires r in rooms
    ensures DisconnectNotices(rooms, sid, order + [r]) == DisconnectNotices(rooms, sid, order) + LeaveNotice(r, rooms[r], sid)
  {
    assert (order + [r])[..|order|] == order;
  }

  /** Splicing out the first entry of a socket removes exactly that one entry. */
  lemma RemoveFirstDropsOneEntry(users: seq<User>, sid: string)
    requires IndexOfUser(users, sid) >= 0
    ensures multiset(RemoveFirst(users, sid)) + multiset{users[IndexOfUser(users, sid)]} == multiset(users)
  {
    var k := IndexOfUser(users, sid);
    SpliceMultiset(users, k);
    assert RemoveFirst(users, sid) == users[..k] + users[k + 1..];
  }

  /** Cutting position `k` out of a sequence removes exactly that element from its multiset. */
  lemma SpliceMultiset<T>(s: seq<T>, k: nat)
    requires k < |s|
    ensures multiset(s[..k] + s[k + 1..]) + multiset{s[k]} == multiset(s)
  {
    assert s == s[..k] + ([s[k]] + s[k + 1..]);
  }

  /** `disconnect` leaves a room the socket is not in exactly as it was. */
  lemma DisconnectKeepsOtherRooms(rooms: map<string, Room>, sid: string, r: string)
    requires r in rooms && IndexOfUser(rooms[r].users, sid) == -1
    ensures r in AfterDisconnect(rooms, sid) && AfterDisconnect(rooms, sid)[r] == rooms[r]
  {
  }

  /**
   * A room is gone after `disconnect` exactly when the socket's entry was its
   * only one; otherwise it lost that one entry and kept its pin and history.
   */
  lemma DisconnectDeletesOnlyEmptiedRooms(rooms: map<string, Room>, sid: string, r: string)
    requires r in rooms
    ensures r !in AfterDisconnect(rooms, sid) <==> Emptied(rooms[r], sid)
    ensures r in AfterDisconnect(rooms, sid) ==>
      var room := AfterDisconnect(rooms, sid)[r];
      room.pin == rooms[r].pin && room.messages == rooms[r].messages &&
      |room.users| == |rooms[r].users| - (if IndexOfUser(rooms[r].users, sid) >= 0 then 1 else 0)
  {
  }

  /**
   * Presence is not deduplicated: a socket that joined a room twice is still
   * listed in it after it disconnects.
   */
  lemma StaleEntrySurvivesDisconnect(rooms: map<string, Room>, sid: string, r: string, i: nat, j: nat)
    requires r in rooms && i < j < |rooms[r].users|
    requires rooms[r].users[i].id == sid && rooms[r].users[j].id == sid
    ensures r in AfterDisconnect(rooms, sid)
    ensures IndexOfUser(AfterDisconnect(rooms, sid)[r].users, sid) >= 0
  {
    var users := rooms[r].users;
    var k := IndexOfUser(users, sid);
    assert k <= i;
    var left := RemoveFirst(users, sid);
    assert left[j - 1] == users[j];
  }

  /** Two histories whose messages carry the same ids find the same first match. */
  lemma {:induction false} SameIdsSameIndex(a: seq<Message>, b: seq<Message>, messageId: string)
    requires |a| == |b| && forall j :: 0 <= j < |a| ==> a[j].id == b[j].id
    ensures IndexOfMessage(a, messageId) == IndexOfMessage(b, messageId)
  {
    if |a| > 0 && a[0].id != messageId {
      SameIdsSameIndex(a[1..], b[1..], messageId);
    }
  }

  /** A second reaction by the same user to the same message replaces the first. */
  lemma ReactTwiceLastWins(messages: seq<Message>, messageId: string, username: string, first: string, second: string)
    ensures ReactInHistory(ReactInHistory(messages, messageId, username, first), messageId, username, second) ==
            ReactInHistory(messages, messageId, username, second)
  {
    var once := ReactInHistory(messages, messageId, username, first);
    SameIdsSameIndex(once, messages, messageId);
    var k := IndexOfMessage(messages, messageId);
    if k >= 0 {
      assert ReactionsOf(once[k])[username := second] == ReactionsOf(messages[k])[username := second];
    }
  }

  /**
   * History is kept per room: a message sent before a second user joins is
   * loaded by the joiner, right after its `room_joined`.
   */
  method JoinerLoadsHistory(msg: Message) returns (joined: Emit, loaded: Emit)
    requires msg.roomId == "r"
    ensures joined == Emit(ToSocket("s2"), RoomJoined("r", "bob"))
    ensures loaded == Emit(ToSocket("s2"), LoadMessages([msg]))
  {
    var server := new Server();
    server.CreateRoom("s1", "r", "1234", "alice");
    assert server.rooms["r"] == Room("1234", [User("s1", "alice")], []);
    server.SendMessage("s1", msg);
    assert server.rooms["r"] == Room("1234", [User("s1", "alice")], [msg]);
    assert [User("s1", "alice")] + [User("s2", "bob")] == [User("s1", "alice"), User("s2", "bob")];
    var before := |server.outbox|;
    server.JoinRoom("s2", "r", "1234", "bob");
    assert server.outbox[before..] == [Emit(ToSocket("s2"), RoomJoined("r", "bob")),
                                         Emit(ToSocket("s2"), LoadMessages([msg])),
                                         Emit(ToRoom("r"), UserList([User("s1", "alice"), User("s2", "bob")]))];
    joined := server.outbox[before];
    loaded := server.outbox[before + 1];
  }
}
