/**
 * The call overlay's clock, from chat-app/client/src/components/CallModal.jsx:
 * the `MM:SS` rendering of the call duration and the once-a-second counter
 * that runs only while the call is connected.
 */
module CallClock {
  import opened Common
  import opened Strings
  import ChatRoomClient

  /** `n.toString().padStart(2, '0')`. */
  function Field(n: nat): string
  {
    PadStart(Decimal(n), 2, '0')
  }

  /** `formatDuration`: `mins = Math.floor(seconds / 60)` and `secs = seconds % 60`, each a padded field. */
  function FormatDuration(seconds: nat): string
  {
    Field(seconds / 60) + ":" + Field(seconds % 60)
  }

  /** Reads a `formatDuration` string back: two digit fields around one colon. */
  function ParseDuration(text: string): Option<nat>
  {
    var parts := Split(text, ':');
    if |parts| == 2 && IsDigits(parts[0]) && IsDigits(parts[1])
    then Some(DigitsValue(parts[0]) * 60 + DigitsValue(parts[1]))
    else None
  }

  /** Zero padding keeps a digit string's value. */
  lemma {:induction false} PadZerosValue(digits: string, width: nat)
    requires IsDigits(digits)
    ensures IsDigits(PadStart(digits, width, '0'))
    ensures DigitsValue(PadStart(digits, width, '0')) == DigitsValue(digits)
    decreases width - |digits|
  {
    if |digits| < width {
      LeadingZeroValue(digits);
      PadZerosValue("0" + digits, width);
    }
  }

  /** A number below 100 renders in at most two digits. */
  lemma DecimalBelowHundred(n: nat)
    requires n < 100
    ensures |Decimal(n)| <= 2
  {
    if n >= 10 {
      assert Decimal(n) == Decimal(n / 10) + [DigitChar(n % 10)];
    }
  }

  /** Two digit strings around a colon split back into the two, and hold exactly one colon. */
  lemma ColonJoined(mins: string, secs: string)
    requires IsDigits(mins) && IsDigits(secs)
    ensures Split(mins + ":" + secs, ':') == [mins, secs]
    ensures Count(mins + ":" + secs, ':') == 1
  {
    assert ':' !in mins by {
      assert forall i :: 0 <= i < |mins| ==> '0' <= mins[i] <= '9';
    }
    assert ':' !in secs by {
      assert forall i :: 0 <= i < |secs| ==> '0' <= secs[i] <= '9';
    }
    assert mins + ":" + secs == mins + [':'] + secs;
    SplitAfterPiece(mins, secs, ':');
    SplitNoSeparator(secs, ':');
    CountAppend(mins + [':'], secs, ':');
    CountAppend(mins, [':'], ':');
    CountAbsent(mins, ':');
    CountAbsent(secs, ':');
  }

  /** A field: decimal digits, at least two of them, exactly two below 100, holding `n`. */
  lemma FieldShape(n: nat)
    ensures IsDigits(Field(n)) && |Field(n)| >= 2
    ensures n < 100 ==> |Field(n)| == 2
    ensures DigitsValue(Field(n)) == n
  {
    PadZerosValue(Decimal(n), 2);
    DecimalValue(n);
    if n < 100 {
      DecimalBelowHundred(n);
    }
  }

  /**
   * The shape of `formatDuration(s)`: the minutes field, one colon, and a
   * seconds field of exactly two digits holding a value below 60.
   */
  lemma FormatDurationFields(seconds: nat)
    ensures Split(FormatDuration(seconds), ':') == [Field(seconds / 60), Field(seconds % 60)]
    ensures Count(FormatDuration(seconds), ':') == 1
    ensures seconds % 60 < 60 && |Field(seconds % 60)| == 2
    ensures (seconds / 60) * 60 + seconds % 60 == seconds
  {
    var mins, secs := seconds / 60, seconds % 60;
    FieldShape(mins);
    FieldShape(secs);
    ColonJoined(Field(mins), Field(secs));
  }

  /** Parsing two digit fields, holding `m` and `s`, around a colon. */
  lemma ParseFields(mins: string, secs: string, m: nat, s: nat)
    requires IsDigits(mins) && IsDigits(secs)
    requires DigitsValue(mins) == m && DigitsValue(secs) == s
    ensures ParseDuration(mins + ":" + secs) == Some(m * 60 + s)
  {
    ColonJoined(mins, secs);
    var parts := Split(mins + ":" + secs, ':');
    assert parts[0] == mins && parts[1] == secs && |parts| == 2;
  }

  /** Two rendered fields around a colon read back as `m` minutes and `s` seconds. */
  lemma ParseRender(m: nat, s: nat)
    ensures ParseDuration(Field(m) + ":" + Field(s)) == Some(m * 60 + s)
  {
    FieldShape(m);
    FieldShape(s);
    ParseFields(Field(m), Field(s), m, s);
  }

  /** Reading the rendering back gives the number of seconds. */
  lemma ParseFormatRoundTrip(seconds: nat)
    ensures ParseDuration(FormatDuration(seconds)) == Some(seconds)
  {
    var mins, secs := seconds / 60, seconds % 60;
    assert mins * 60 + secs == seconds;
    ParseRender(mins, secs);
  }

  /** Below 100 minutes the rendering is exactly `MM:SS`, five characters. */
  lemma FormatDurationLength(seconds: nat)
    requires seconds < 6000
    ensures |FormatDuration(seconds)| == 5
  {
    FieldShape(seconds / 60);
    FieldShape(seconds % 60);
  }

  lemma HundredRendering()
    ensures Field(100) == "100"
  {
    assert Decimal(1) == "1";
    assert Decimal(10) == "10";
    assert Decimal(100) == "100";
  }

  lemma ZeroRendering()
    ensures Field(0) == "00"
  {
    assert DigitChar(0) == '0';
    assert Decimal(0) == ['0'];
    var r := Field(0);
    assert |r| == 2 && r[0] == '0' && r[1..] == ['0'];
  }

  /** The minutes field grows rather than being cut: 6000 seconds is `"100:00"`. */
  lemma HundredMinutes()
    ensures FormatDuration(6000) == "100:00"
  {
    HundredRendering();
    ZeroRendering();
    assert 6000 / 60 == 100 && 6000 % 60 == 0;
  }

  /**
   * `callDuration` and its interval: `running` is whether the once-a-second
   * interval is set.
   */
  class DurationClock {
    var running: bool
    var callDuration: nat

    /** No interval runs outside a connected call, and the counter is then zero. */
    ghost predicate Valid()
      reads this
    {
      !running ==> callDuration == 0
    }

    constructor()
      ensures Valid() && !running && callDuration == 0
    {
      running := false;
      callDuration := 0;
    }

    /** The effect on a `callState` change: connected starts the interval; any other state resets to 0. */
    method OnCallState(state: ChatRoomClient.CallState)
      requires Valid()
      modifies this
      ensures Valid()
      ensures running == (state == ChatRoomClient.Connected)
      ensures callDuration == if state == ChatRoomClient.Connected then old(callDuration) else 0
    {
      if state == ChatRoomClient.Connected {
        running := true;
      } else {
        running := false;
        callDuration := 0;
      }
    }

    /** One interval tick: a second more while connected. */
    method Tick()
      requires Valid()
      modifies this
      ensures Valid()
      ensures running == old(running)
      ensures callDuration == if running then old(callDuration) + 1 else old(callDuration)
    {
      if running {
        callDuration := callDuration + 1;
      }
    }
  }

  /** A call connected for `n` ticks shows `n` seconds, and ending it shows zero again. */
  method CountsConnectedSeconds(n: nat) returns (shown: nat, afterEnd: nat)
    ensures shown == n && afterEnd == 0
  {
    var clock := new DurationClock();
    clock.OnCallState(ChatRoomClient.Incoming);
    clock.OnCallState(ChatRoomClient.Connected);
    var i := 0;
    while i < n
      invariant 0 <= i <= n
      invariant clock.Valid() && clock.running && clock.callDuration == i
    {
      clock.Tick();
      i := i + 1;
    }
    shown := clock.callDuration;
    clock.OnCallState(ChatRoomClient.Idle);
    afterEnd := clock.callDuration;
  }
}
