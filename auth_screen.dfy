/**
 * The create/join form of chat-app/client/src/components/AuthScreen.jsx,
 * wired to the app's `handleCreateRoom` and `handleJoinRoom`.
 */
module AuthForm {
  import opened Common
  import opened Protocol
  import opened AppSession

  /** Which callback a submit invokes, with the `{username, roomId, pin}` it passes. */
  datatype Choice = JoinChoice(data: RoomData) | CreateChoice(data: RoomData)

  /**
   * `handleSubmit`'s decision: nothing when a field is empty (only emptiness
   * counts; blanks pass as typed), otherwise join in joining mode and create
   * in the other.
   */
  function Dispatch(isJoining: bool, username: string, roomId: string, pin: string): (c: Option<Choice>)
    ensures c.None? <==> username == "" || roomId == "" || pin == ""
    ensures c.Some? ==> c.value.data == RoomData(roomId, pin, username) && (c.value.JoinChoice? <==> isJoining)
  {
    if username == "" || roomId == "" || pin == "" then None
    else if isJoining then Some(JoinChoice(RoomData(roomId, pin, username)))
    else Some(CreateChoice(RoomData(roomId, pin, username)))
  }

  /** Whitespace-only fields are submitted unchanged. */
  lemma BlankFieldsPass(isJoining: bool)
    ensures Dispatch(isJoining, " ", " ", " ") == Some(
      if isJoining then JoinChoice(RoomData(" ", " ", " ")) else CreateChoice(RoomData(" ", " ", " ")))
  {
  }

  /** The request a choice makes the app emit. */
  function RequestOf(c: Choice): (r: Request)
    ensures r.JoinRoom? <==> c.JoinChoice?
    ensures r.JoinRoom? ==> r == JoinRoom(c.data.roomId, c.data.pin, c.data.username)
    ensures r.CreateRoom? ==> r == CreateRoom(c.data.roomId, c.data.pin, c.data.username)
    ensures r.JoinRoom? || r.CreateRoom?
  {
    match c
    case JoinChoice(d) => JoinRoom(d.roomId, d.pin, d.username)
    case CreateChoice(d) => CreateRoom(d.roomId, d.pin, d.username)
  }

  class AuthScreen {
    var isJoining: bool
    var username: string
    var roomId: string
    var pin: string

    /** The form opens in joining mode with empty fields. */
    constructor()
      ensures isJoining && username == "" && roomId == "" && pin == ""
    {
      isJoining := true;
      username := "";
      roomId := "";
      pin := "";
    }

    method SetUsername(value: string)
      modifies this
      ensures username == value && isJoining == old(isJoining) && roomId == old(roomId) && pin == old(pin)
    {
      username := value;
    }

    method SetRoomId(value: string)
      modifies this
      ensures roomId == value && isJoining == old(isJoining) && username == old(username) && pin == old(pin)
    {
      roomId := value;
    }

    /** The pin field's `onChange`, under its `maxLength`. */
    method SetPin(value: string)
      modifies this
      ensures pin == PinInput(value) && isJoining == old(isJoining) && username == old(username) && roomId == old(roomId)
    {
      pin := PinInput(value);
    }

    /** The "Need to create a room?" / "Already have a room?" button. */
    method Toggle()
      modifies this
      ensures isJoining == !old(isJoining) && username == old(username) && roomId == old(roomId) && pin == old(pin)
    {
      isJoining := !isJoining;
    }

    /**
     * `handleSubmit`: at most one of the app's two handlers runs, with the
     * form's fields, as `Dispatch` decides.
     */
    method Submit(app: App)
      requires app.Valid()
      modifies app
      ensures app.Valid()
      ensures var c := Dispatch(isJoining, username, roomId, pin);
        app.Snap() == if c.None? then old(app.Snap())
          else old(app.Snap()).(outbox := old(app.outbox) + [RequestOf(c.value)],
                                joinListeners := old(app.joinListeners) + [c.value.data],
                                errorListeners := old(app.errorListeners) + 1)
    {
      if username == "" || roomId == "" || pin == "" {
        return;
      }
      if isJoining {
        app.HandleJoinRoom(RoomData(roomId, pin, username));
      } else {
        app.HandleCreateRoom(RoomData(roomId, pin, username));
      }
    }
  }
}
