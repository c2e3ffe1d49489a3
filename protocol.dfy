/**
 * The records and events exchanged between the chat clients and the relay
 * server. Offers, answers and ICE candidates are opaque to every layer here.
 */
module Protocol {
  import opened Common

  /** An opaque WebRTC session description (offer or answer). */
  type Signal = string
  /** An opaque ICE candidate. */
  type Candidate = string
  /** Username → emoji; at most one reaction per username. */
  type Reactions = map<string, string>

  /** A live presence entry: the socket id and the display name. */
  datatype User = User(id: string, username: string)

  /** The `{id, username, message}` snapshot a reply carries of the message it quotes. */
  datatype Reply = Reply(id: string, username: string, message: string)

  /**
   * A chat message as sent by a client and kept in the server's history.
   * `kind` is the JSON field `type` ("text", "image" or "video");
   * `author` is the sender's socket id. `reactions` is absent on a message
   * the sender built without one.
   */
  datatype Message = Message(
    id: string,
    roomId: string,
    author: string,
    username: string,
    message: string,
    kind: string,
    time: string,
    replyTo: Option<Reply>,
    reactions: Option<Reactions>)

  /** The reaction map of a message, treating an absent one as empty (`{...msg.reactions}`). */
  function ReactionsOf(m: Message): Reactions
  {
    m.reactions.GetOr(map[])
  }

  /** A copy of `m` whose reaction map also has `username` ↦ `reaction`, overwriting. */
  function WithReaction(m: Message, username: string, reaction: string): (r: Message)
    ensures r.reactions.Some? && ReactionsOf(r) == ReactionsOf(m)[username := reaction]
    ensures r.(reactions := m.reactions) == m
  {
    m.(reactions := Some(ReactionsOf(m)[username := reaction]))
  }

  /** Events a client emits to the server. */
  datatype Request =
    | CreateRoom(roomId: string, pin: string, username: string)
    | JoinRoom(roomId: string, pin: string, username: string)
    | LeaveRoom
    | GetUsers(roomId: string)
    | SendMessage(msg: Message)
    | Typing(roomId: string, username: string, isTyping: bool)
    | AddReaction(roomId: string, messageId: string, reaction: string, username: string)
    | CallUser(userToCall: string, signalData: Signal, from: string, name: string, isVideo: bool)
    | AnswerCall(signal: Signal, to: string)
    | IceCandidate(to: string, candidate: Candidate)
    | EndCall(to: string)

  /** Events the server emits to clients. */
  datatype Notice =
    | Error(text: string)
    | RoomJoined(roomId: string, username: string)
    | LoadMessages(history: seq<Message>)
    | UserList(users: seq<User>)
    | UserTyping(username: string, isTyping: bool)
    | MessageReaction(messageId: string, reaction: string, username: string)
    | ReceiveMessage(msg: Message)
    | IncomingCall(signal: Signal, from: string, name: string)
    | CallAccepted(signal: Signal)
    | Ice(candidate: Candidate)
    | CallEnded

  /**
   * Who an emit goes to: one socket (`io.to(id)`), every socket in a room
   * (`io.to(roomId)`), or every socket in a room except the emitting one
   * (`socket.to(roomId)`).
   */
  datatype Target =
    | ToSocket(id: string)
    | ToRoom(roomId: string)
    | ToRoomExcept(roomId: string, except: string)

  datatype Emit = Emit(target: Target, notice: Notice)
}
