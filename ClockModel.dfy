/**
 * The state of one LED clock control as a value, one function per operation
 * of the control, the invariant every operation keeps, and the properties
 * the operations promise. The class LedClockCOM.LedClock is proved to follow
 * these functions step for step.
 *
 * The wall clock (`DateTime.Now`) is the parameter `now` of every operation
 * that recomputes the text; raising a COM event appends it to `events`.
 */
module ClockModel {

  import opened Wrappers
  import opened Colors
  import opened TimeText

  /** The `_timer` field: null, or a Forms timer that is enabled or not. */
  datatype TimerSlot = NoTimer | Timer(enabled: bool)

  /** The three outbound COM events, in the order they were raised. */
  datatype ClockEvent = Started | Stopped | Tick(text: string)

  /** The control's fields. `lastUpdate` records the wall-clock reading of
      the last recompute of `currentTime` (None before the first one). */
  datatype State = State(
    timer: TimerSlot,
    ledColor: Color,
    backgroundColor: Color,
    use24HourFormat: bool,
    showSeconds: bool,
    isRunning: bool,
    controlsInitialized: bool,
    currentTime: string,
    lastUpdate: Option<TimeOfDay>,
    culture: Culture,
    events: seq<ClockEvent>)

  /** The fields as the constructor leaves them: lime on black, 12-hour
      dial with seconds, no timer, not running, empty text. */
  function Initial(culture: Culture): State
  {
    State(NoTimer, Lime, Black, false, true, false, false, "", None, culture, [])
  }

  /** The pattern the current flags select. */
  function PatternOf(s: State): Pattern
  {
    ChoosePattern(s.use24HourFormat, s.showSeconds)
  }

  /** UpdateTime: format `now` with the pattern the flags select. */
  function UpdateTime(s: State, now: TimeOfDay): State
  {
    s.(currentTime := Render(PatternOf(s), now, s.culture), lastUpdate := Some(now))
  }

  /** OnHandleCreated: on the first call only, create the timer, compute the
      text, enable the timer and mark the clock running, with no Started
      event. */
  function HandleCreated(s: State, now: TimeOfDay): State
  {
    if s.controlsInitialized then s
    else UpdateTime(s.(timer := Timer(false)), now)
           .(timer := Timer(true), isRunning := true, controlsInitialized := true)
  }

  /** Timer_Tick: recompute the text and raise ClockTick with it. */
  function TimerTick(s: State, now: TimeOfDay): State
  {
    var s' := UpdateTime(s, now);
    s'.(events := s'.events + [Tick(s'.currentTime)])
  }

  /** Start: only with a timer that is not running. */
  function Start(s: State, now: TimeOfDay): State
  {
    if s.timer.Timer? && !s.isRunning then
      var s' := UpdateTime(s.(timer := Timer(true), isRunning := true), now);
      s'.(events := s'.events + [Started])
    else s
  }

  /** Stop: only with a timer that is running; the text is left as it is. */
  function Stop(s: State): State
  {
    if s.timer.Timer? && s.isRunning then
      s.(timer := Timer(false), isRunning := false, events := s.events + [Stopped])
    else s
  }

  /** The IsRunning property setter. */
  function SetIsRunning(s: State, value: bool, now: TimeOfDay): State
  {
    if value then Start(s, now) else Stop(s)
  }

  /** The Use24HourFormat property setter. */
  function SetUse24HourFormat(s: State, value: bool, now: TimeOfDay): State
  {
    UpdateTime(s.(use24HourFormat := value), now)
  }

  /** The ShowSeconds property setter. */
  function SetShowSeconds(s: State, value: bool, now: TimeOfDay): State
  {
    UpdateTime(s.(showSeconds := value), now)
  }

  /** The LedColor property setter. */
  function SetLedColor(s: State, value: Int32): State
  {
    s.(ledColor := IntToColor(value))
  }

  /** The BackgroundColor property setter. */
  function SetBackgroundColor(s: State, value: Int32): State
  {
    s.(backgroundColor := IntToColor(value))
  }

  /** SetLedColorRGB. */
  function SetLedColorRgb(s: State, red: Int32, green: Int32, blue: Int32): State
  {
    s.(ledColor := ClampedColor(red, green, blue))
  }

  /** SetBackgroundColorRGB. */
  function SetBackgroundColorRgb(s: State, red: Int32, green: Int32, blue: Int32): State
  {
    s.(backgroundColor := ClampedColor(red, green, blue))
  }

  /** Dispose: drops the timer and leaves `isRunning` as it was. */
  function Dispose(s: State, disposing: bool): State
  {
    if disposing && s.timer.Timer? then s.(timer := NoTimer) else s
  }

  // ---------------------------------------------------------------------
  // The invariant

  /** The Started and Stopped events of a log, ticks left out. */
  function Lifecycle(events: seq<ClockEvent>): seq<ClockEvent>
  {
    if events == [] then []
    else
      var last := events[|events| - 1];
      Lifecycle(events[..|events| - 1]) + (if last.Tick? then [] else [last])
  }

  /** Stopped, Started, Stopped, ...: the clock starts itself without an
      event, so its first lifecycle event is a stop and they alternate. */
  ghost predicate Alternates(lifecycle: seq<ClockEvent>)
  {
    forall i :: 0 <= i < |lifecycle| ==> lifecycle[i] == (if i % 2 == 0 then Stopped else Started)
  }

  /** The text is the rendering of the last reading with the current flags
      (the empty string before any recompute). */
  ghost predicate TextIsCurrent(s: State)
  {
    match s.lastUpdate
    case None => s.currentTime == ""
    case Some(t) => s.currentTime == Render(PatternOf(s), t, s.culture)
  }

  ghost predicate Valid(s: State)
  {
    && (s.timer.Timer? ==> s.timer.enabled == s.isRunning)
    && (!s.controlsInitialized ==> s.timer.NoTimer? && Lifecycle(s.events) == [])
    && (s.controlsInitialized ==> s.lastUpdate.Some?)
    && TextIsCurrent(s)
    && Alternates(Lifecycle(s.events))
    && s.isRunning == (s.controlsInitialized && |Lifecycle(s.events)| % 2 == 0)
  }

  lemma {:induction false} LifecycleAppend(events: seq<ClockEvent>, e: ClockEvent)
    ensures Lifecycle(events + [e]) == Lifecycle(events) + (if e.Tick? then [] else [e])
  {
    assert (events + [e])[..|events|] == events;
  }

  lemma InitialIsValid(culture: Culture)
    ensures Valid(Initial(culture))
    ensures !Initial(culture).controlsInitialized && Initial(culture).currentTime == ""
  {
  }

  lemma HandleCreatedPreservesValid(s: State, now: TimeOfDay)
    requires Valid(s)
    ensures Valid(HandleCreated(s, now))
  {
  }

  lemma {:induction false} TimerTickPreservesValid(s: State, now: TimeOfDay)
    requires Valid(s)
    ensures Valid(TimerTick(s, now))
  {
    LifecycleAppend(s.events, Tick(TimerTick(s, now).currentTime));
  }

  /** The text stays current when neither it nor what it depends on changes. */
  lemma SameTextFields(s: State, s': State)
    requires TextIsCurrent(s)
    requires s'.currentTime == s.currentTime && s'.lastUpdate == s.lastUpdate
    requires PatternOf(s') == PatternOf(s) && s'.culture == s.culture
    ensures TextIsCurrent(s')
  {
  }

  /** Appending the event due next keeps a lifecycle alternating. */
  lemma AlternatesAppend(lifecycle: seq<ClockEvent>, e: ClockEvent)
    requires Alternates(lifecycle)
    requires e == (if |lifecycle| % 2 == 0 then Stopped else Started)
    ensures Alternates(lifecycle + [e])
  {
  }

  lemma {:induction false} StartPreservesValid(s: State, now: TimeOfDay)
    requires Valid(s)
    ensures Valid(Start(s, now))
  {
    if s.timer.Timer? && !s.isRunning {
      var s' := Start(s, now);
      var lifecycle := Lifecycle(s.events);
      LifecycleAppend(s.events, Started);
      assert Lifecycle(s'.events) == lifecycle + [Started];
      AlternatesAppend(lifecycle, Started);
      assert TextIsCurrent(s') by {
        assert s'.lastUpdate == Some(now) && PatternOf(s') == PatternOf(s);
      }
    }
  }

  lemma {:induction false} StopPreservesValid(s: State)
    requires Valid(s)
    ensures Valid(Stop(s))
  {
    if s.timer.Timer? && s.isRunning {
      var s' := Stop(s);
      var lifecycle := Lifecycle(s.events);
      LifecycleAppend(s.events, Stopped);
      assert Lifecycle(s'.events) == lifecycle + [Stopped];
      AlternatesAppend(lifecycle, Stopped);
      SameTextFields(s, s');
    }
  }

  lemma {:induction false} SetIsRunningPreservesValid(s: State, value: bool, now: TimeOfDay)
    requires Valid(s)
    ensures Valid(SetIsRunning(s, value, now))
  {
    if value { StartPreservesValid(s, now); } else { StopPreservesValid(s); }
  }

  lemma FlagSettersPreserveValid(s: State, value: bool, now: TimeOfDay)
    requires Valid(s)
    ensures Valid(SetUse24HourFormat(s, value, now))
    ensures Valid(SetShowSeconds(s, value, now))
  {
  }

  lemma ColorSettersPreserveValid(s: State, value: Int32, red: Int32, green: Int32, blue: Int32)
    requires Valid(s)
    ensures Valid(SetLedColor(s, value)) && Valid(SetBackgroundColor(s, value))
    ensures Valid(SetLedColorRgb(s, red, green, blue))
    ensures Valid(SetBackgroundColorRgb(s, red, green, blue))
  {
  }

  lemma DisposePreservesValid(s: State, disposing: bool)
    requires Valid(s)
    ensures Valid(Dispose(s, disposing))
  {
  }

  // ---------------------------------------------------------------------
  // What the operations promise

  /** Before the handle exists there is no timer, whatever setters the host
      called meanwhile: Start and Stop do nothing, and the text is empty
      unless a flag setter has already computed it. */
  lemma BeforeHandleCreated(s: State, now: TimeOfDay)
    requires Valid(s) && !s.controlsInitialized
    ensures s.timer == NoTimer && !s.isRunning
    ensures Start(s, now) == s && Stop(s) == s
    ensures s.lastUpdate.None? ==> s.currentTime == ""
  {
  }

  /** Initialisation runs at most once; it leaves the clock running with an
      enabled timer and raises no event. */
  lemma HandleCreatedRunsOnce(s: State, now: TimeOfDay, later: TimeOfDay)
    ensures var s' := HandleCreated(s, now);
      && HandleCreated(s', later) == s'
      && s'.events == s.events
      && s'.controlsInitialized
      && (!s.controlsInitialized ==> s'.isRunning && s'.timer == Timer(true)
                                     && s'.currentTime == Render(PatternOf(s), now, s.culture))
  {
  }

  /** Start acts exactly when a timer exists and the clock is stopped: it
      runs the clock, recomputes the text and raises one Started; otherwise
      nothing changes. Starting twice is starting once. */
  lemma StartIsGuarded(s: State, now: TimeOfDay, later: TimeOfDay)
    ensures var s' := Start(s, now);
      && (s' != s <==> s.timer.Timer? && !s.isRunning)
      && (s' != s ==> s'.isRunning && s'.events == s.events + [Started]
                      && s'.currentTime == Render(PatternOf(s), now, s.culture))
      && Start(s', later) == s'
  {
    var s' := Start(s, now);
    if s.timer.Timer? && !s.isRunning {
      assert s'.isRunning != s.isRunning;
    }
  }

  /** Stop acts exactly when a timer exists and the clock runs: it stops the
      clock and raises one Stopped, leaving the text as it was. Stopping
      twice is stopping once. */
  lemma StopIsGuarded(s: State)
    ensures var s' := Stop(s);
      && (s' != s <==> s.timer.Timer? && s.isRunning)
      && (s' != s ==> !s'.isRunning && s'.events == s.events + [Stopped]
                      && s'.currentTime == s.currentTime)
      && Stop(s') == s'
  {
    var s' := Stop(s);
    if s.timer.Timer? && s.isRunning {
      assert s'.isRunning != s.isRunning;
    }
  }

  /** Setting IsRunning to the value it has changes nothing and raises
      nothing. */
  lemma SetIsRunningToSameValue(s: State, now: TimeOfDay)
    ensures SetIsRunning(s, s.isRunning, now) == s
  {
  }

  /** Starting then stopping a stopped clock raises exactly Started then
      Stopped and brings back every field except the text. */
  lemma {:induction false} StartThenStop(s: State, now: TimeOfDay)
    requires Valid(s) && s.timer.Timer? && !s.isRunning
    ensures var s' := Stop(Start(s, now));
      && !s'.isRunning
      && s'.events == s.events + [Started, Stopped]
      && s' == UpdateTime(s, now).(events := s'.events)
  {
    assert s.events + [Started] + [Stopped] == s.events + [Started, Stopped];
  }

  /** With the timer disposed, Start and Stop are no-ops; Dispose itself
      does not touch `isRunning`. */
  lemma AfterDispose(s: State, now: TimeOfDay)
    ensures var s' := Dispose(s, true);
      && s'.timer == NoTimer && s'.isRunning == s.isRunning
      && Start(s', now) == s' && Stop(s') == s'
  {
  }

  /** In every culture, a tick recomputes the text from `now` and raises
      exactly one ClockTick carrying that new text; the timer, the running
      flag and the display flags stay as they were. */
  lemma TickAppendsText(s: State, now: TimeOfDay)
    ensures var s' := TimerTick(s, now);
      && s'.events == s.events + [Tick(s'.currentTime)]
      && s'.currentTime == Render(PatternOf(s), now, s.culture)
      && s'.lastUpdate == Some(now)
      && s'.isRunning == s.isRunning && s'.timer == s.timer
      && PatternOf(s') == PatternOf(s)
  {
  }

  /** The text a tick raises shows `now` in the pattern the flags select:
      reading it back gives the displayed fields. */
  lemma {:induction false} TickShowsNow(s: State, now: TimeOfDay)
    requires s.use24HourFormat || s.culture.amDesignator != s.culture.pmDesignator
    ensures var s' := TimerTick(s, now);
      Read(s'.currentTime, PatternOf(s), s.culture) == Some(Visible(PatternOf(s), now))
  {
    ReadRender(PatternOf(s), now, s.culture);
  }

  /** In every culture, setting Use24HourFormat recomputes the text at once,
      running or not, in the pattern of the new flag, and raises nothing. */
  lemma Use24HourFormatRecomputes(s: State, value: bool, now: TimeOfDay)
    ensures var s' := SetUse24HourFormat(s, value, now);
      && PatternOf(s') == ChoosePattern(value, s.showSeconds)
      && s'.currentTime == Render(PatternOf(s'), now, s.culture)
      && s'.lastUpdate == Some(now)
      && s'.events == s.events && s'.isRunning == s.isRunning && s'.timer == s.timer
  {
  }

  /** The text after setting Use24HourFormat reads back as `now`. */
  lemma {:induction false} Use24HourFormatReadsBack(s: State, value: bool, now: TimeOfDay)
    requires value || s.culture.amDesignator != s.culture.pmDesignator
    ensures Read(SetUse24HourFormat(s, value, now).currentTime, ChoosePattern(value, s.showSeconds), s.culture)
         == Some(Visible(ChoosePattern(value, s.showSeconds), now))
  {
    ReadRender(ChoosePattern(value, s.showSeconds), now, s.culture);
  }

  /** In every culture, setting ShowSeconds recomputes the text at once,
      running or not, in the pattern of the new flag, and raises nothing. */
  lemma ShowSecondsRecomputes(s: State, value: bool, now: TimeOfDay)
    ensures var s' := SetShowSeconds(s, value, now);
      && PatternOf(s') == ChoosePattern(s.use24HourFormat, value)
      && s'.currentTime == Render(PatternOf(s'), now, s.culture)
      && s'.lastUpdate == Some(now)
      && s'.events == s.events && s'.isRunning == s.isRunning && s'.timer == s.timer
  {
  }

  /** The text after setting ShowSeconds reads back as `now`. */
  lemma {:induction false} ShowSecondsReadsBack(s: State, value: bool, now: TimeOfDay)
    requires s.use24HourFormat || s.culture.amDesignator != s.culture.pmDesignator
    ensures Read(SetShowSeconds(s, value, now).currentTime, ChoosePattern(s.use24HourFormat, value), s.culture)
         == Some(Visible(ChoosePattern(s.use24HourFormat, value), now))
  {
    ReadRender(ChoosePattern(s.use24HourFormat, value), now, s.culture);
  }

  /** Whatever happened before, the text of a valid state is empty or reads
      back as the last reading in the current pattern. */
  lemma {:induction false} CurrentTimeReadsBack(s: State)
    requires Valid(s) && s.lastUpdate.Some?
    requires s.use24HourFormat || s.culture.amDesignator != s.culture.pmDesignator
    ensures Read(s.currentTime, PatternOf(s), s.culture)
         == Some(Visible(PatternOf(s), s.lastUpdate.value))
  {
    ReadRender(PatternOf(s), s.lastUpdate.value, s.culture);
  }

  /** After `LedColor = v` the getter returns `v & 0xFFFFFF`; only the LED
      colour changes. */
  lemma {:induction false} LedColorReadsBack(s: State, value: Int32)
    ensures ColorToInt(SetLedColor(s, value).ledColor) == value % 0x100_0000
    ensures SetLedColor(s, value).(ledColor := s.ledColor) == s
  {
    EncodeDecode(value);
  }

  /** After `BackgroundColor = v` the getter returns `v & 0xFFFFFF`; only
      the background colour changes. */
  lemma {:induction false} BackgroundColorReadsBack(s: State, value: Int32)
    ensures ColorToInt(SetBackgroundColor(s, value).backgroundColor) == value % 0x100_0000
    ensures SetBackgroundColor(s, value).(backgroundColor := s.backgroundColor) == s
  {
    EncodeDecode(value);
  }

  /** SetLedColorRGB stores each channel clamped to [0, 255] and is the
      packed setter given the packed clamped channels; nothing else changes. */
  lemma {:induction false} LedColorRgbClamps(s: State, red: Int32, green: Int32, blue: Int32)
    ensures var c := SetLedColorRgb(s, red, green, blue).ledColor;
      c.r == Clamp(red) && c.g == Clamp(green) && c.b == Clamp(blue)
    ensures SetLedColorRgb(s, red, green, blue)
         == SetLedColor(s, ColorToInt(Color(Clamp(red), Clamp(green), Clamp(blue))))
  {
    DecodeEncode(Color(Clamp(red), Clamp(green), Clamp(blue)));
  }

  /** SetBackgroundColorRGB, as LedColorRgbClamps for the background. */
  lemma {:induction false} BackgroundColorRgbClamps(s: State, red: Int32, green: Int32, blue: Int32)
    ensures var c := SetBackgroundColorRgb(s, red, green, blue).backgroundColor;
      c.r == Clamp(red) && c.g == Clamp(green) && c.b == Clamp(blue)
    ensures SetBackgroundColorRgb(s, red, green, blue)
         == SetBackgroundColor(s, ColorToInt(Color(Clamp(red), Clamp(green), Clamp(blue))))
  {
    DecodeEncode(Color(Clamp(red), Clamp(green), Clamp(blue)));
  }
}
