/**
 * The top-level state of chat-app/client/src/App.jsx: which room the user
 * is in, whether the room is locked behind its pin, and the inactivity
 * auto-lock. Time is the parameter `now` in milliseconds.
 */
module AppSession {
  import opened Common
  import opened Protocol

  /** `roomData`: what the user asked to create or join. */
  datatype RoomData = RoomData(roomId: string, pin: string, username: string)

  /** What the app renders: the auth screen, or the chat with or without the lock overlay. */
  datatype Screen = AuthView | ChatView(locked: bool)

  /** Five minutes, in milliseconds. */
  const AutoLockAfter: int := 5 * 60 * 1000

  /** The pin inputs' `maxLength={6}`. */
  const PinMaxLength: nat := 6

  /** What a pin input holds after a change: what was entered, cut to its first six characters. */
  function PinInput(entered: string): (pin: string)
    ensures |pin| <= PinMaxLength && |pin| <= |entered| && pin == entered[..|pin|]
    ensures |entered| <= PinMaxLength ==> pin == entered
    ensures |entered| > PinMaxLength ==> |pin| == PinMaxLength
  {
    if |entered| <= PinMaxLength then entered else entered[..PinMaxLength]
  }

  /** `text` repeated `n` times: one alert per `error` listener. */
  function Repeat(text: string, n: nat): (r: seq<string>)
    ensures |r| == n && forall i :: 0 <= i < n ==> r[i] == text
  {
    if n == 0 then [] else Repeat(text, n - 1) + [text]
  }

  /** All of the app's state, for stating what a handler leaves unchanged. */
  datatype AppState = AppState(
    roomData: Option<RoomData>,
    isLocked: bool,
    lastActivity: int,
    joinListeners: seq<RoomData>,
    errorListeners: nat,
    outbox: seq<Request>,
    alerts: seq<string>)

  class App {
    var roomData: Option<RoomData>
    var isLocked: bool
    var lastActivity: int
    /** The pending `socket.once('room_joined')` listeners, each with the data it will store. */
    var joinListeners: seq<RoomData>
    /** How many `socket.once('error')` listeners are pending. */
    var errorListeners: nat
    /** Everything emitted on the socket, in order. */
    var outbox: seq<Request>
    /** Texts shown with `alert`. */
    var alerts: seq<string>

    function Snap(): AppState
      reads this
    {
      AppState(roomData, isLocked, lastActivity, joinListeners, errorListeners, outbox, alerts)
    }

    /** Only a joined room can be locked. */
    ghost predicate Valid()
      reads this
    {
      isLocked ==> roomData.Some?
    }

    constructor(now: int)
      ensures Valid()
      ensures Snap() == AppState(None, false, now, [], 0, [], [])
    {
      roomData := None;
      isLocked := false;
      lastActivity := now;
      joinListeners := [];
      errorListeners := 0;
      outbox := [];
      alerts := [];
    }

    /** `handleCreateRoom`: asks the server, and waits for one `room_joined` or one `error`. */
    method HandleCreateRoom(data: RoomData)
      requires Valid()
      modifies this
      ensures Valid()
      ensures Snap() == old(Snap()).(outbox := old(outbox) + [CreateRoom(data.roomId, data.pin, data.username)],
                                     joinListeners := old(joinListeners) + [data],
                                     errorListeners := old(errorListeners) + 1)
    {
      outbox := outbox + [CreateRoom(data.roomId, data.pin, data.username)];
      joinListeners := joinListeners + [data];
      errorListeners := errorListeners + 1;
    }

    /** `handleJoinRoom`: as `handleCreateRoom`, with `join_room`. */
    method HandleJoinRoom(data: RoomData)
      requires Valid()
      modifies this
      ensures Valid()
      ensures Snap() == old(Snap()).(outbox := old(outbox) + [JoinRoom(data.roomId, data.pin, data.username)],
                                     joinListeners := old(joinListeners) + [data],
                                     errorListeners := old(errorListeners) + 1)
    {
      outbox := outbox + [JoinRoom(data.roomId, data.pin, data.username)];
      joinListeners := joinListeners + [data];
      errorListeners := errorListeners + 1;
    }

    /**
     * `room_joined`: every pending listener runs once, in the order they were
     * added, so the last request's data is stored and the activity clock
     * restarts; with no listener pending nothing changes.
     */
    method OnRoomJoined(now: int)
      requires Valid()
      modifies this
      ensures Valid()
      ensures Snap() == if old(joinListeners) == [] then old(Snap())
        else old(Snap()).(roomData := Some(old(joinListeners)[|old(joinListeners)| - 1]),
                          lastActivity := now, joinListeners := [])
    {
      if joinListeners != [] {
        roomData := Some(joinListeners[|joinListeners| - 1]);
        lastActivity := now;
        joinListeners := [];
      }
    }

    /** `error`: every pending listener alerts the message once and is removed. */
    method OnError(text: string)
      requires Valid()
      modifies this
      ensures Valid()
      ensures Snap() == old(Snap()).(alerts := old(alerts) + Repeat(text, old(errorListeners)), errorListeners := 0)
    {
      alerts := alerts + Repeat(text, errorListeners);
      errorListeners := 0;
    }

    /**
     * `handleUnlock`: true exactly when the pin matches, which unlocks and
     * restarts the activity clock; a wrong pin changes nothing.
     */
    method HandleUnlock(entered: string, now: int) returns (ok: bool)
      requires Valid()
      requires roomData.Some?
      modifies this
      ensures Valid()
      ensures ok <==> entered == old(roomData).value.pin
      ensures Snap() == if ok then old(Snap()).(isLocked := false, lastActivity := now) else old(Snap())
    {
      ok := entered == roomData.value.pin;
      if ok {
        isLocked := false;
        lastActivity := now;
      }
    }

    /** `onLock`, the chat header's lock button: only the chat screen has one. */
    method OnLock()
      requires Valid()
      requires roomData.Some?
      modifies this
      ensures Valid()
      ensures Snap() == old(Snap()).(isLocked := true)
    {
      isLocked := true;
    }

    /** `handleExit`: back to the auth screen, unlocked, after emitting `leave_room`. */
    method HandleExit()
      requires Valid()
      modifies this
      ensures Valid()
      ensures Snap() == old(Snap()).(roomData := None, isLocked := false, outbox := old(outbox) + [LeaveRoom])
    {
      roomData := None;
      isLocked := false;
      outbox := outbox + [LeaveRoom];
    }

    /** A mouse move, key press or click: counted only while the activity listeners are installed. */
    method Activity(now: int)
      requires Valid()
      modifies this
      ensures Valid()
      ensures Snap() == if old(roomData).Some? && !old(isLocked) then old(Snap()).(lastActivity := now) else old(Snap())
    {
      if roomData.Some? && !isLocked {
        lastActivity := now;
      }
    }

    /**
     * One run of the once-a-second check: it locks a joined, unlocked room
     * when strictly more than five minutes passed since the last activity.
     */
    method AutoLockTick(now: int)
      requires Valid()
      modifies this
      ensures Valid()
      ensures isLocked <==> old(isLocked) || (old(roomData).Some? && now - old(lastActivity) > AutoLockAfter)
      ensures Snap() == old(Snap()).(isLocked := isLocked)
    {
      if roomData.Some? && !isLocked && now - lastActivity > AutoLockAfter {
        isLocked := true;
      }
    }

    /** What is rendered. */
    function View(): (s: Screen)
      reads this
      ensures s.AuthView? <==> roomData.None?
      ensures s.ChatView? ==> s.locked == isLocked
    {
      if roomData.None? then AuthView else ChatView(isLocked)
    }
  }

  /**
   * Exactly five minutes of inactivity does not lock; one millisecond more
   * does, and a later unlock restarts the count from the unlock time.
   */
  method AutoLockBoundary(start: int) returns (atFive: bool, afterFive: bool, afterUnlock: bool)
    ensures !atFive && afterFive && !afterUnlock
  {
    var app := new App(start);
    app.HandleJoinRoom(RoomData("room", "1234", "alice"));
    app.OnRoomJoined(start);
    app.AutoLockTick(start + AutoLockAfter);
    atFive := app.isLocked;
    app.AutoLockTick(start + AutoLockAfter + 1);
    afterFive := app.isLocked;
    var ok := app.HandleUnlock("1234", start + AutoLockAfter + 2);
    app.AutoLockTick(start + 2 * AutoLockAfter + 2);
    afterUnlock := app.isLocked;
  }

  /**
   * A failed create leaves its `room_joined` listener behind; a later
   * successful join runs both, and the join's data, added last, is what
   * the app keeps. The failed create's error listener was used up by its
   * alert.
   */
  method LeftoverListenerIsHarmless() returns (stored: Option<RoomData>, shown: seq<string>)
    ensures stored == Some(RoomData("b", "2", "alice"))
    ensures shown == ["Room already exists"]
  {
    var app := new App(0);
    app.HandleCreateRoom(RoomData("a", "1", "alice"));
    app.OnError("Room already exists");
    app.HandleJoinRoom(RoomData("b", "2", "alice"));
    app.OnRoomJoined(10);
    stored := app.roomData;
    shown := app.alerts;
  }
}
