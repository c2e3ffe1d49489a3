/**
 * The pin overlay of chat-app/client/src/components/LockScreen.jsx, wired
 * to the app's `handleUnlock` and `handleExit`.
 */
module LockScreenForm {
  import opened Common
  import opened Protocol
  import opened AppSession

  class LockScreen {
    var pin: string
    var error: string

    constructor()
      ensures pin == "" && error == ""
    {
      pin := "";
      error := "";
    }

    /** The pin field's `onChange`, under its `maxLength`. */
    method SetPin(value: string)
      modifies this
      ensures pin == PinInput(value) && error == old(error)
    {
      pin := PinInput(value);
    }

    /**
     * `handleSubmit`: asks the app once with the typed pin. The overlay is
     * lifted exactly when the pin is the room's; on success the error is
     * cleared and the pin kept, on failure the error says so and the pin
     * is cleared, and the app is untouched.
     */
    method Submit(app: App, now: int) returns (unlocked: bool)
      requires app.Valid() && app.roomData.Some?
      modifies this, app
      ensures app.Valid()
      ensures unlocked <==> old(pin) == old(app.roomData).value.pin
      ensures unlocked ==> (error == "" && pin == old(pin)
        && app.Snap() == old(app.Snap()).(isLocked := false, lastActivity := now))
      ensures !unlocked ==> error == "Incorrect PIN" && pin == "" && app.Snap() == old(app.Snap())
    {
      unlocked := app.HandleUnlock(pin, now);
      if unlocked {
        error := "";
      } else {
        error := "Incorrect PIN";
        pin := "";
      }
    }

    /** The exit button: `handleExit`. */
    method Exit(app: App)
      requires app.Valid()
      modifies app
      ensures app.Valid()
      ensures app.Snap() == old(app.Snap()).(roomData := None, isLocked := false, outbox := old(app.outbox) + [LeaveRoom])
    {
      app.HandleExit();
    }
  }

  /** A wrong pin, then the right one: only the second submit unlocks. */
  method WrongThenRightPin() returns (first: bool, second: bool, locked: bool, shownError: string)
    ensures !first && second && !locked && shownError == ""
  {
    var app := new App(0);
    app.HandleJoinRoom(RoomData("room", "1234", "alice"));
    app.OnRoomJoined(0);
    app.OnLock();
    var screen := new LockScreen();
    screen.SetPin("0000");
    first := screen.Submit(app, 1);
    screen.SetPin("1234");
    second := screen.Submit(app, 2);
    locked := app.isLocked;
    shownError := screen.error;
  }
}
