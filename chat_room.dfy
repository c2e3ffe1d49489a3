/**
 * The room screen of chat-app/client/src/components/ChatRoom.jsx: the
 * message list, presence list and typing indicator kept from server events,
 * the outgoing chat actions, and the one-to-one call state with its peer
 * connection and queue of early ICE candidates.
 *
 * The WebRTC connection is reduced to the remote description it was given,
 * whether it is closed, and the remote candidates it has accepted, in order.
 */
module ChatRoomClient {
  import opened Common
  import opened Protocol
  import RoomServer

  /** `callState`: 'idle', 'incoming', 'calling' or 'connected'. */
  datatype CallState = Idle | Incoming | Calling | Connected

  /** `callerSignal`: who is calling, their offer, and whether they asked for video (missing when not relayed). */
  datatype CallerSignal = CallerSignal(from: string, signal: Signal, isVideo: Option<bool>)

  /**
   * `connectionRef.current`: the peer it sends its own candidates to, the
   * remote description once set, whether `close()` was called, and the
   * remote candidates it accepted.
   */
  datatype Peer = Peer(target: string, remote: Option<Signal>, closed: bool, applied: seq<Candidate>)

  /** `addIceCandidate` on a peer: a closed connection rejects the candidate. */
  function AddCandidate(peer: Peer, candidate: Candidate): (p: Peer)
    ensures p.target == peer.target && p.remote == peer.remote && p.closed == peer.closed
    ensures p.applied == if peer.closed then peer.applied else peer.applied + [candidate]
  {
    if peer.closed then peer else peer.(applied := peer.applied + [candidate])
  }

  /** `users.find(u => u.username !== username)`: the first entry with another name. */
  function FirstOther(users: seq<User>, username: string): (r: Option<User>)
    ensures r.None? <==> forall i :: 0 <= i < |users| ==> users[i].username == username
    ensures r.Some? ==> exists k :: (0 <= k < |users| && users[k] == r.value && r.value.username != username
      && forall i :: 0 <= i < k ==> users[i].username == username)
  {
    if users == [] then None
    else if users[0].username != username then Some(users[0])
    else
      var r := FirstOther(users[1..], username);
      if r.Some? then
        ghost var k :| 0 <= k < |users[1..]| && users[1..][k] == r.value && r.value.username != username
          && forall i :: 0 <= i < k ==> users[1..][i].username == username;
        assert users[k + 1] == r.value;
        assert forall i :: 1 <= i < k + 1 ==> users[i] == users[1..][i - 1];
        r
      else r
  }

  /** The `message_reaction` update: every message with the id gets `reactions[username] = reaction`. */
  function ApplyReaction(messages: seq<Message>, messageId: string, username: string, reaction: string): (out: seq<Message>)
    ensures |out| == |messages|
    ensures forall i :: 0 <= i < |messages| ==>
      out[i] == if messages[i].id == messageId then WithReaction(messages[i], username, reaction) else messages[i]
  {
    if messages == [] then []
    else
      var m := messages[0];
      var rest := ApplyReaction(messages[1..], messageId, username, reaction);
      var first := if m.id == messageId then WithReaction(m, username, reaction) else m;
      assert forall i :: 1 <= i < |messages| ==> ([first] + rest)[i] == rest[i - 1] && messages[i] == messages[1..][i - 1];
      [first] + rest
  }

  /**
   * A reaction event changes nothing but `reactions[username]` of the
   * messages with that id: order, other fields and other users' reactions stay.
   */
  lemma ReactionTouchesOnlyThatUser(messages: seq<Message>, messageId: string, username: string, reaction: string)
    ensures var out := ApplyReaction(messages, messageId, username, reaction);
      forall i :: 0 <= i < |messages| ==>
        out[i].(reactions := messages[i].reactions) == messages[i]
        && (messages[i].id == messageId ==> username in ReactionsOf(out[i]) && ReactionsOf(out[i])[username] == reaction)
        && (messages[i].id != messageId ==> out[i] == messages[i])
        && forall v :: v != username ==> (v in ReactionsOf(out[i]) <==> v in ReactionsOf(messages[i]))
  {
  }

  predicate DistinctMessageIds(messages: seq<Message>)
  {
    forall i, j :: 0 <= i < j < |messages| ==> messages[i].id != messages[j].id
  }

  /**
   * While ids are distinct, the client's copy of the history and the
   * server's stay the same under a reaction event (the server updates only
   * the first message with the id, the client every one).
   */
  lemma ClientAgreesWithServer(messages: seq<Message>, messageId: string, username: string, reaction: string)
    requires DistinctMessageIds(messages)
    ensures ApplyReaction(messages, messageId, username, reaction)
         == RoomServer.ReactInHistory(messages, messageId, username, reaction)
  {
    var a := ApplyReaction(messages, messageId, username, reaction);
    var b := RoomServer.ReactInHistory(messages, messageId, username, reaction);
    var k := RoomServer.IndexOfMessage(messages, messageId);
    forall j | 0 <= j < |messages|
      ensures a[j] == b[j]
    {
      if messages[j].id == messageId {
        assert k != -1;
        assert k == j;
      }
    }
  }

  /** The `{id, username, message}` snapshot `sendMessage` takes of the message being replied to. */
  function ReplySnapshot(m: Message): (r: Reply)
    ensures r.id == m.id && r.username == m.username && r.message == m.message
  {
    Reply(m.id, m.username, m.message)
  }

  /** All of the component's state, for stating what a handler leaves unchanged. */
  datatype Snapshot = Snapshot(
    messages: seq<Message>,
    users: seq<User>,
    typingUser: string,
    replyingTo: Option<Message>,
    callState: CallState,
    caller: string,
    callerSignal: Option<CallerSignal>,
    isVideoEnabled: bool,
    connection: Option<Peer>,
    queue: seq<Candidate>,
    outbox: seq<Request>,
    alerts: seq<string>)

  class ChatRoom {
    /** The props: the room, one's own name, and the socket's id. */
    const roomId: string
    const username: string
    const socketId: string

    var messages: seq<Message>
    var users: seq<User>
    var typingUser: string
    var replyingTo: Option<Message>
    var callState: CallState
    var caller: string
    var callerSignal: Option<CallerSignal>
    var isVideoEnabled: bool
    var connection: Option<Peer>
    /** `candidatesQueue.current`: remote candidates waiting for a remote description. */
    var queue: seq<Candidate>
    /** Everything emitted on the socket, in order. */
    var outbox: seq<Request>
    /** Texts shown with `alert`. */
    var alerts: seq<string>

    function Snap(): Snapshot
      reads this
    {
      Snapshot(messages, users, typingUser, replyingTo, callState, caller, callerSignal,
               isVideoEnabled, connection, queue, outbox, alerts)
    }

    /** A live connection that has its remote description never leaves a candidate queued. */
    ghost predicate Valid()
      reads this
    {
      connection.Some? && connection.value.remote.Some? && !connection.value.closed ==> queue == []
    }

    /** Mounting the room requests its user list. */
    constructor(roomId: string, username: string, socketId: string)
      ensures Valid()
      ensures this.roomId == roomId && this.username == username && this.socketId == socketId
      ensures Snap() == Snapshot([], [], "", None, Idle, "", None, false, None, [], [GetUsers(roomId)], [])
    {
      this.roomId := roomId;
      this.username := username;
      this.socketId := socketId;
      messages := [];
      users := [];
      typingUser := "";
      replyingTo := None;
      callState := Idle;
      caller := "";
      callerSignal := None;
      isVideoEnabled := false;
      connection := None;
      queue := [];
      outbox := [GetUsers(roomId)];
      alerts := [];
    }

    /** `receive_message`: appended at the end with its reactions reset to empty. */
    method OnReceiveMessage(msg: Message)
      requires Valid()
      modifies this
      ensures Valid()
      ensures Snap() == old(Snap()).(messages := old(messages) + [msg.(reactions := Some(map[]))])
    {
      messages := messages + [msg.(reactions := Some(map[]))];
    }

    /** `load_messages`: the history replaces the whole list. */
    method OnLoadMessages(history: seq<Message>)
      requires Valid()
      modifies this
      ensures Valid()
      ensures Snap() == old(Snap()).(messages := history)
    {
      messages := history;
    }

    /** `user_list`. */
    method OnUserList(list: seq<User>)
      requires Valid()
      modifies this
      ensures Valid()
      ensures Snap() == old(Snap()).(users := list)
    {
      users := list;
    }

    /** `user_typing`: the typing name while typing, `''` otherwise. */
    method OnUserTyping(name: string, isTyping: bool)
      requires Valid()
      modifies this
      ensures Valid()
      ensures Snap() == old(Snap()).(typingUser := if isTyping then name else "")
    {
      typingUser := if isTyping then name else "";
    }

    /** `message_reaction`. */
    method OnMessageReaction(messageId: string, reaction: string, name: string)
      requires Valid()
      modifies this
      ensures Valid()
      ensures Snap() == old(Snap()).(messages := ApplyReaction(old(messages), messageId, name, reaction))
    {
      messages := ApplyReaction(messages, messageId, name, reaction);
    }

    /** `call_user`: an incoming call, remembered with the caller's offer. */
    method OnCallUser(from: string, name: string, signal: Signal, isVideo: Option<bool>)
      requires Valid()
      modifies this
      ensures Valid()
      ensures Snap() == old(Snap()).(callState := Incoming, caller := name,
                                     callerSignal := Some(CallerSignal(from, signal, isVideo)))
    {
      callState := Incoming;
      caller := name;
      callerSignal := Some(CallerSignal(from, signal, isVideo));
    }

    /** Hands every queued candidate, first come first served, to the connection just given its remote description. */
    method FlushQueue()
      requires connection.Some? && !connection.value.closed && connection.value.remote.Some?
      modifies this
      ensures Valid()
      ensures Snap() == old(Snap()).(connection := Some(old(connection.value).(applied := old(connection.value.applied) + old(queue))),
                                     queue := [])
    {
      ghost var start := queue;
      var peer := connection.value;
      assert start[..0] == [] && peer.applied + [] == peer.applied;
      while |queue| > 0
        invariant |queue| <= |start| && queue == start[|start| - |queue|..]
        invariant connection == Some(peer.(applied := peer.applied + start[..|start| - |queue|]))
        invariant Snap() == old(Snap()).(connection := connection, queue := queue)
        decreases |queue|
      {
        var n := |start| - |queue|;
        var candidate := queue[0];
        assert candidate == start[n];
        queue := queue[1..];
        assert start[..n + 1] == start[..n] + [start[n]];
        assert peer.applied + start[..n] + [candidate] == peer.applied + start[..n + 1];
        connection := Some(connection.value.(applied := connection.value.applied + [candidate]));
      }
      assert start[..|start|] == start;
    }

    /** `call_accepted`: connected; the answer becomes the remote description and the queue drains. */
    method OnCallAccepted(signal: Signal)
      requires Valid()
      modifies this
      ensures Valid()
      ensures var live := old(connection).Some? && !old(connection).value.closed;
        Snap() == old(Snap()).(
          callState := Connected,
          connection := if live then Some(old(connection).value.(remote := Some(signal), applied := old(connection).value.applied + old(queue)))
                        else old(connection),
          queue := if live then [] else old(queue))
    {
      callState := Connected;
      if connection.Some? && !connection.value.closed {
        connection := Some(connection.value.(remote := Some(signal)));
        FlushQueue();
      }
    }

    /** `ice_candidate`: applied at once when the connection has a remote description, queued otherwise. */
    method OnIceCandidate(candidate: Candidate)
      requires Valid()
      modifies this
      ensures Valid()
      ensures var ready := old(connection).Some? && old(connection).value.remote.Some?;
        Snap() == old(Snap()).(
          connection := if ready then Some(AddCandidate(old(connection).value, candidate)) else old(connection),
          queue := if ready then old(queue) else old(queue) + [candidate])
    {
      if connection.Some? && connection.value.remote.Some? {
        connection := Some(AddCandidate(connection.value, candidate));
      } else {
        queue := queue + [candidate];
      }
    }

    /** The connection's `onicecandidate`: a gathered local candidate goes to its peer. */
    method OnLocalCandidate(candidate: Candidate)
      requires Valid()
      modifies this
      ensures Valid()
      ensures Snap() == old(Snap()).(outbox := old(outbox) +
        if old(connection).Some? && !old(connection).value.closed then [IceCandidate(old(connection).value.target, candidate)] else [])
    {
      if connection.Some? && !connection.value.closed {
        outbox := outbox + [IceCandidate(connection.value.target, candidate)];
      }
    }

    /**
     * `end_call`, which runs the `endCall` of the first render: idle, the
     * connection closed; its user list was still empty, so nothing is emitted.
     */
    method OnEndCall()
      requires Valid()
      modifies this
      ensures Valid()
      ensures Snap() == old(Snap()).(callState := Idle,
        connection := if old(connection).Some? then Some(old(connection).value.(closed := true)) else None)
    {
      callState := Idle;
      if connection.Some? {
        connection := Some(connection.value.(closed := true));
      }
    }

    /**
     * `endCall`: idle from any state, the connection closed, and `end_call`
     * sent to the first user with another name, if there is one.
     */
    method EndCall()
      requires Valid()
      modifies this
      ensures Valid()
      ensures var target := FirstOther(old(users), username);
        Snap() == old(Snap()).(callState := Idle,
          connection := if old(connection).Some? then Some(old(connection).value.(closed := true)) else None,
          outbox := old(outbox) + if target.Some? then [Request.EndCall(target.value.id)] else [])
    {
      OnEndCall();
      var target := FirstOther(users, username);
      if target.Some? {
        outbox := outbox + [Request.EndCall(target.value.id)];
      }
    }

    /**
     * `startCall(video)` up to its `await getUserMedia`: the first user with
     * another name is the target, or an alert is shown when there is none.
     */
    method BeginStartCall() returns (target: Option<User>)
      requires Valid()
      modifies this
      ensures Valid()
      ensures target == FirstOther(old(users), username)
      ensures Snap() == if target.None? then old(Snap()).(alerts := old(alerts) + ["No one else in the room!"])
        else old(Snap())
    {
      target := FirstOther(users, username);
      if target.None? {
        alerts := alerts + ["No one else in the room!"];
      }
    }

    /**
     * The rest of `startCall`, run when `getUserMedia` settles, whatever
     * happened meanwhile: refused media changes nothing; granted media sets
     * calling, opens a connection to `target` and sends the offer `offer`.
     */
    method ResumeStartCall(target: User, video: bool, mediaGranted: bool, offer: Signal)
      requires Valid()
      modifies this
      ensures Valid()
      ensures Snap() == if !mediaGranted then old(Snap())
        else old(Snap()).(isVideoEnabled := video, callState := Calling,
                          connection := Some(Peer(target.id, None, false, [])),
                          outbox := old(outbox) + [CallUser(target.id, offer, socketId, username, video)])
    {
      if !mediaGranted {
        return;
      }
      isVideoEnabled := video;
      callState := Calling;
      connection := Some(Peer(target.id, None, false, []));
      outbox := outbox + [CallUser(target.id, offer, socketId, username, video)];
    }

    /**
     * `startCall(video)` with nothing arriving during the permission prompt.
     * `mediaGranted` is whether `getUserMedia` succeeded and `offer` the
     * offer the new connection creates.
     */
    method StartCall(video: bool, mediaGranted: bool, offer: Signal)
      requires Valid()
      modifies this
      ensures Valid()
      ensures var target := FirstOther(old(users), username);
        Snap() == if target.None? then old(Snap()).(alerts := old(alerts) + ["No one else in the room!"])
          else if !mediaGranted then old(Snap())
          else old(Snap()).(isVideoEnabled := video, callState := Calling,
                            connection := Some(Peer(target.value.id, None, false, [])),
                            outbox := old(outbox) + [CallUser(target.value.id, offer, socketId, username, video)])
    {
      var target := BeginStartCall();
      if target.Some? {
        ResumeStartCall(target.value, video, mediaGranted, offer);
      }
    }

    /**
     * `answerCall` up to its `await getUserMedia`: connected at once, and the
     * caller's signal of this render is what the rest will use. Without one,
     * reading `callerSignal.isVideo` throws and the rest never runs.
     */
    method BeginAnswer() returns (cs: Option<CallerSignal>)
      requires Valid()
      modifies this
      ensures Valid()
      ensures cs == old(callerSignal)
      ensures Snap() == old(Snap()).(callState := Connected)
    {
      callState := Connected;
      cs := callerSignal;
    }

    /**
     * The rest of `answerCall`, run when `getUserMedia` settles, whatever
     * happened meanwhile: with the media, a new connection to the caller
     * takes the offer as its remote description, drains the queue as it is
     * now, and its answer `answer` goes to the caller. The call state is
     * not touched again.
     */
    method ResumeAnswer(cs: CallerSignal, mediaGranted: bool, answer: Signal)
      requires Valid()
      modifies this
      ensures Valid()
      ensures Snap() == if !mediaGranted then old(Snap())
        else old(Snap()).(isVideoEnabled := cs.isVideo == Some(true),
                          connection := Some(Peer(cs.from, Some(cs.signal), false, old(queue))),
                          queue := [],
                          outbox := old(outbox) + [Request.AnswerCall(answer, cs.from)])
    {
      if !mediaGranted {
        return;
      }
      isVideoEnabled := cs.isVideo == Some(true);
      connection := Some(Peer(cs.from, Some(cs.signal), false, []));
      ghost var waiting := queue;
      FlushQueue();
      assert [] + waiting == waiting;
      outbox := outbox + [Request.AnswerCall(answer, cs.from)];
    }

    /**
     * `answerCall` with nothing arriving during the permission prompt:
     * connected at once; then, given the caller's offer and the media, a new
     * connection takes the offer as its remote description, drains the
     * queue, and its answer goes to the caller.
     */
    method AnswerCall(mediaGranted: bool, answer: Signal)
      requires Valid()
      modifies this
      ensures Valid()
      ensures var cs := old(callerSignal);
        Snap() == if cs.None? || !mediaGranted then old(Snap()).(callState := Connected)
          else old(Snap()).(callState := Connected,
                            isVideoEnabled := cs.value.isVideo == Some(true),
                            connection := Some(Peer(cs.value.from, Some(cs.value.signal), false, old(queue))),
                            queue := [],
                            outbox := old(outbox) + [Request.AnswerCall(answer, cs.value.from)])
    {
      var cs := BeginAnswer();
      if cs.Some? {
        ResumeAnswer(cs.value, mediaGranted, answer);
      }
    }

    /**
     * `sendMessage(content, type)`: emitted and appended locally with empty
     * reactions and a snapshot of the message being replied to, which is
     * then cleared. `id` and `time` stand for the generated id and the clock.
     */
    method SendMessage(content: string, kind: string, id: string, time: string)
      requires Valid()
      modifies this
      ensures Valid()
      ensures var msg := Message(id, roomId, socketId, username, content, kind, time,
                                 if old(replyingTo).Some? then Some(ReplySnapshot(old(replyingTo).value)) else None,
                                 Some(map[]));
        Snap() == old(Snap()).(outbox := old(outbox) + [Request.SendMessage(msg)],
                               messages := old(messages) + [msg],
                               replyingTo := None)
    {
      var reply := if replyingTo.Some? then Some(ReplySnapshot(replyingTo.value)) else None;
      var msg := Message(id, roomId, socketId, username, content, kind, time, reply, Some(map[]));
      outbox := outbox + [Request.SendMessage(msg)];
      messages := messages + [msg];
      replyingTo := None;
    }

    /** `handleTyping`. */
    method HandleTyping(isTyping: bool)
      requires Valid()
      modifies this
      ensures Valid()
      ensures Snap() == old(Snap()).(outbox := old(outbox) + [Request.Typing(roomId, username, isTyping)])
    {
      outbox := outbox + [Request.Typing(roomId, username, isTyping)];
    }

    /** `handleReaction`: only emitted; the list changes when the server's echo arrives. */
    method HandleReaction(messageId: string, emoji: string)
      requires Valid()
      modifies this
      ensures Valid()
      ensures Snap() == old(Snap()).(outbox := old(outbox) + [Request.AddReaction(roomId, messageId, emoji, username)])
    {
      outbox := outbox + [Request.AddReaction(roomId, messageId, emoji, username)];
    }

    /** `handleReply`. */
    method HandleReply(msg: Message)
      requires Valid()
      modifies this
      ensures Valid()
      ensures Snap() == old(Snap()).(replyingTo := Some(msg))
    {
      replyingTo := Some(msg);
    }

    /** The input's `onCancelReply`. */
    method CancelReply()
      requires Valid()
      modifies this
      ensures Valid()
      ensures Snap() == old(Snap()).(replyingTo := None)
    {
      replyingTo := None;
    }

    /**
     * A server notice reaching this screen. Errors and `room_joined` are the
     * app's, not the room's; the relayed `call_user` carries no `isVideo`.
     */
    method Deliver(notice: Notice)
      requires Valid()
      modifies this
      ensures Valid()
      ensures match notice
        case Error(_) => Snap() == old(Snap())
        case RoomJoined(_, _) => Snap() == old(Snap())
        case LoadMessages(history) => Snap() == old(Snap()).(messages := history)
        case UserList(list) => Snap() == old(Snap()).(users := list)
        case UserTyping(name, isTyping) => Snap() == old(Snap()).(typingUser := if isTyping then name else "")
        case MessageReaction(messageId, reaction, name) =>
          Snap() == old(Snap()).(messages := ApplyReaction(old(messages), messageId, name, reaction))
        case ReceiveMessage(msg) => Snap() == old(Snap()).(messages := old(messages) + [msg.(reactions := Some(map[]))])
        case IncomingCall(signal, from, name) =>
          Snap() == old(Snap()).(callState := Incoming, caller := name,
                                 callerSignal := Some(CallerSignal(from, signal, None)))
        case CallAccepted(signal) =>
          var live := old(connection).Some? && !old(connection).value.closed;
          Snap() == old(Snap()).(
            callState := Connected,
            connection := if live then Some(old(connection).value.(remote := Some(signal), applied := old(connection).value.applied + old(queue)))
                          else old(connection),
            queue := if live then [] else old(queue))
        case Ice(candidate) =>
          var ready := old(connection).Some? && old(connection).value.remote.Some?;
          Snap() == old(Snap()).(
            connection := if ready then Some(AddCandidate(old(connection).value, candidate)) else old(connection),
            queue := if ready then old(queue) else old(queue) + [candidate])
        case CallEnded =>
          Snap() == old(Snap()).(callState := Idle,
            connection := if old(connection).Some? then Some(old(connection).value.(closed := true)) else None)
    {
      match notice
      case Error(_) =>
      case RoomJoined(_, _) =>
      case LoadMessages(history) => OnLoadMessages(history);
      case UserList(list) => OnUserList(list);
      case UserTyping(name, isTyping) => OnUserTyping(name, isTyping);
      case MessageReaction(messageId, reaction, name) => OnMessageReaction(messageId, reaction, name);
      case ReceiveMessage(msg) => OnReceiveMessage(msg);
      case IncomingCall(signal, from, name) => OnCallUser(from, name, signal, None);
      case CallAccepted(signal) => OnCallAccepted(signal);
      case Ice(candidate) => OnIceCandidate(candidate);
      case CallEnded => OnEndCall();
    }
  }

  /**
   * After a first call has ended, a candidate of the second caller that
   * arrives before the answer is offered to the old, closed connection
   * (it still has a remote description) and is lost: the new connection
   * never receives it and nothing is queued.
   */
  method SecondCallLosesEarlyCandidate() returns (applied: seq<Candidate>, queued: seq<Candidate>)
    ensures applied == [] && queued == []
  {
    var room := new ChatRoom("r", "bob", "s2");
    room.OnCallUser("s1", "alice", "offer-1", None);
    room.AnswerCall(true, "answer-1");
    room.EndCall();
    room.OnCallUser("s1", "alice", "offer-2", None);
    room.OnIceCandidate("candidate");
    room.AnswerCall(true, "answer-2");
    applied := room.connection.value.applied;
    queued := room.queue;
  }

  /**
   * `endCall` leaves the queue as it is: a candidate queued for a call that
   * ended before it connected is handed to the next call's connection.
   */
  method StaleCandidateReachesNextCall() returns (applied: seq<Candidate>)
    ensures applied == ["stale"]
  {
    var room := new ChatRoom("r", "alice", "s1");
    room.OnUserList([User("s1", "alice"), User("s2", "bob")]);
    room.StartCall(false, true, "offer-1");
    room.OnIceCandidate("stale");
    room.EndCall();
    room.StartCall(false, true, "offer-2");
    room.OnCallAccepted("answer-2");
    applied := room.connection.value.applied;
  }

  /**
   * A hang-up during the answerer's permission prompt: `end_call` sets idle
   * and closes the old connection, then the rest of `answerCall` still opens
   * a live connection and sends the answer, so the callee is idle with a
   * live connection and the caller is answered after hanging up.
   */
  method HangUpDuringAnswerPrompt() returns (idle: bool, live: bool, answered: bool)
    ensures idle && live && answered
  {
    var room := new ChatRoom("r", "bob", "s2");
    room.OnCallUser("s1", "alice", "offer", None);
    var cs := room.BeginAnswer();
    room.OnEndCall();
    room.ResumeAnswer(cs.value, true, "answer");
    idle := room.callState == Idle;
    live := room.connection.Some? && !room.connection.value.closed;
    answered := room.outbox[|room.outbox| - 1] == Request.AnswerCall("answer", "s1");
  }

  /**
   * A call that arrives during the caller's own permission prompt: the
   * incoming state is overwritten by calling once the media is granted.
   */
  method IncomingCallDuringStartPrompt() returns (calling: bool, stillSignalled: bool)
    ensures calling && stillSignalled
  {
    var room := new ChatRoom("r", "alice", "s1");
    room.OnUserList([User("s1", "alice"), User("s2", "bob")]);
    var target := room.BeginStartCall();
    room.OnCallUser("s2", "bob", "offer-b", None);
    room.ResumeStartCall(target.value, false, true, "offer-a");
    calling := room.callState == Calling;
    stillSignalled := room.callerSignal == Some(CallerSignal("s2", "offer-b", None));
  }
}
