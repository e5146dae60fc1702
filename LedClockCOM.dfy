/**
 * The LedClock control as the object it is: its private fields, updated in
 * place by the COM methods, property setters, the handle-creation hook and
 * the timer handler. Each method is proved to change the fields exactly as
 * the matching ClockModel function says, so the properties proved there
 * hold of the control.
 */
module LedClockCOM {

  import opened Wrappers
  import opened Colors
  import opened TimeText
  import opened ClockModel

  class LedClock {
    var timer: TimerSlot
    var ledColor: Color
    var backgroundColor: Color
    var use24HourFormat: bool
    var showSeconds: bool
    var isRunning: bool
    var controlsInitialized: bool
    var currentTime: string
    /** The events raised so far (ClockTick, ClockStarted, ClockStopped). */
    var events: seq<ClockEvent>
    /** The wall-clock reading of the last recompute of the text. */
    ghost var lastUpdate: Option<TimeOfDay>
    /** The culture whose designators `tt` prints. */
    const culture: Culture

    ghost function Model(): State
      reads this
    {
      State(timer, ledColor, backgroundColor, use24HourFormat, showSeconds, isRunning,
            controlsInitialized, currentTime, lastUpdate, culture, events)
    }

    ghost predicate Valid()
      reads this
    {
      ClockModel.Valid(Model())
    }

    /** Field initialisation only: no timer until the handle exists. */
    constructor (culture: Culture)
      ensures Valid() && Model() == Initial(culture)
    {
      ledColor := Lime;
      backgroundColor := Black;
      use24HourFormat := false;
      showSeconds := true;
      isRunning := false;
      controlsInitialized := false;
      currentTime := "";
      timer := NoTimer;
      events := [];
      lastUpdate := None;
      this.culture := culture;
      new;
      InitialIsValid(culture);
    }

    method OnHandleCreated(now: TimeOfDay)
      requires Valid()
      modifies this
      ensures Valid() && Model() == HandleCreated(old(Model()), now)
    {
      if controlsInitialized {
        return;
      }
      timer := Timer(false);
      UpdateTime(now);
      timer := Timer(true);
      isRunning := true;
      controlsInitialized := true;
      HandleCreatedPreservesValid(old(Model()), now);
    }

    /** The Forms timer raises Tick only while it is enabled. */
    method TimerTick(now: TimeOfDay)
      requires Valid() && timer == Timer(true)
      modifies this
      ensures Valid() && Model() == ClockModel.TimerTick(old(Model()), now)
    {
      UpdateTime(now);
      RaiseClockTick(currentTime);
      TimerTickPreservesValid(old(Model()), now);
    }

    method UpdateTime(now: TimeOfDay)
      modifies this`currentTime, this`lastUpdate
      ensures Model() == ClockModel.UpdateTime(old(Model()), now)
    {
      if use24HourFormat {
        currentTime := if showSeconds
          then Render(Hours24WithSeconds, now, culture)
          else Render(Hours24, now, culture);
      } else {
        currentTime := if showSeconds
          then Render(Hours12WithSeconds, now, culture)
          else Render(Hours12, now, culture);
      }
      lastUpdate := Some(now);
    }

    /** The LedColor property getter: the packed COLORREF value. */
    function LedColor(): (value: Int32)
      reads this
      ensures 0 <= value < 0x100_0000
      ensures IntToColor(value) == ledColor
    {
      DecodeEncode(ledColor);
      ColorToInt(ledColor)
    }

    method SetLedColor(value: Int32)
      requires Valid()
      modifies this`ledColor
      ensures Valid() && Model() == ClockModel.SetLedColor(old(Model()), value)
    {
      ledColor := IntToColor(value);
    }

    /** The BackgroundColor property getter. */
    function BackgroundColor(): (value: Int32)
      reads this
      ensures 0 <= value < 0x100_0000
      ensures IntToColor(value) == backgroundColor
    {
      DecodeEncode(backgroundColor);
      ColorToInt(backgroundColor)
    }

    method SetBackgroundColor(value: Int32)
      requires Valid()
      modifies this`backgroundColor
      ensures Valid() && Model() == ClockModel.SetBackgroundColor(old(Model()), value)
    {
      backgroundColor := IntToColor(value);
    }

    method SetUse24HourFormat(value: bool, now: TimeOfDay)
      requires Valid()
      modifies this
      ensures Valid() && Model() == ClockModel.SetUse24HourFormat(old(Model()), value, now)
    {
      use24HourFormat := value;
      UpdateTime(now);
      FlagSettersPreserveValid(old(Model()), value, now);
    }

    method SetShowSeconds(value: bool, now: TimeOfDay)
      requires Valid()
      modifies this
      ensures Valid() && Model() == ClockModel.SetShowSeconds(old(Model()), value, now)
    {
      showSeconds := value;
      UpdateTime(now);
      FlagSettersPreserveValid(old(Model()), value, now);
    }

    method SetIsRunning(value: bool, now: TimeOfDay)
      requires Valid()
      modifies this
      ensures Valid() && Model() == ClockModel.SetIsRunning(old(Model()), value, now)
    {
      if value {
        Start(now);
      } else {
        Stop();
      }
    }

    /** The CurrentTime property getter: empty until the text is first
        computed, afterwards the last computed text. */
    function CurrentTime(): (text: string)
      reads this
      requires Valid()
      ensures text == "" <==> lastUpdate.None?
    {
      currentTime
    }

    method Start(now: TimeOfDay)
      requires Valid()
      modifies this
      ensures Valid() && Model() == ClockModel.Start(old(Model()), now)
    {
      if timer.Timer? && !isRunning {
        timer := Timer(true);
        isRunning := true;
        UpdateTime(now);
        RaiseClockStarted();
      }
      StartPreservesValid(old(Model()), now);
    }

    method Stop()
      requires Valid()
      modifies this
      ensures Valid() && Model() == ClockModel.Stop(old(Model()))
    {
      if timer.Timer? && isRunning {
        timer := Timer(false);
        isRunning := false;
        RaiseClockStopped();
      }
      StopPreservesValid(old(Model()));
    }

    method SetLedColorRgb(red: Int32, green: Int32, blue: Int32)
      requires Valid()
      modifies this`ledColor
      ensures Valid() && Model() == ClockModel.SetLedColorRgb(old(Model()), red, green, blue)
    {
      var r := Max(0, Min(0xFF, red));
      var g := Max(0, Min(0xFF, green));
      var b := Max(0, Min(0xFF, blue));
      ledColor := Color(r, g, b);
    }

    method SetBackgroundColorRgb(red: Int32, green: Int32, blue: Int32)
      requires Valid()
      modifies this`backgroundColor
      ensures Valid() && Model() == ClockModel.SetBackgroundColorRgb(old(Model()), red, green, blue)
    {
      var r := Max(0, Min(0xFF, red));
      var g := Max(0, Min(0xFF, green));
      var b := Max(0, Min(0xFF, blue));
      backgroundColor := Color(r, g, b);
    }

    method RaiseClockTick(text: string)
      modifies this`events
      ensures events == old(events) + [Tick(text)]
    {
      events := events + [Tick(text)];
    }

    method RaiseClockStarted()
      modifies this`events
      ensures events == old(events) + [Started]
    {
      events := events + [Started];
    }

    method RaiseClockStopped()
      modifies this`events
      ensures events == old(events) + [Stopped]
    {
      events := events + [Stopped];
    }

    /** The timer is stopped, disposed and dropped; `isRunning` is left as
        it was. */
    method Dispose(disposing: bool)
      requires Valid()
      modifies this`timer
      ensures Valid() && Model() == ClockModel.Dispose(old(Model()), disposing)
    {
      if disposing {
        if timer.Timer? {
          timer := NoTimer;
        }
      }
    }
  }
}
