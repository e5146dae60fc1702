# LED clock control (LedClockCOM) in Dafny

A model of `LedClock`, the ActiveX/COM LED-style digital clock control of
LedClockCOM, and proofs about it. The control keeps two colours, two display
flags, a running flag, a Forms timer and the text it shows; a host (Clarion)
drives it through COM properties and methods, and it raises `ClockTick`,
`ClockStarted` and `ClockStopped`.

- `Colors.dfy` — module `Colors`: a colour as three 8-bit channels, the packed
  integer the COM properties exchange (the Windows COLORREF layout
  `R | G<<8 | B<<16`, red in the low byte), its decoder, and the channel
  clamping of the RGB setters.
- `TimeText.dfy` — module `TimeText`: the four .NET patterns `HH:mm:ss`,
  `HH:mm`, `hh:mm:ss tt`, `hh:mm tt`, the choice among them made from
  `(Use24HourFormat, ShowSeconds)`, the rendering of a wall-clock reading, and
  a reader that recovers the displayed fields from a rendered text.
- `ClockModel.dfy` — module `ClockModel`: the control's fields as a value
  `State`, one function per operation, the invariant `Valid` every operation
  keeps, and the properties of the operations.
- `LedClockCOM.dfy` — module `LedClockCOM`: class `LedClock`, whose fields are
  updated in place by methods that follow the source statement by statement;
  each method's postcondition ties the new fields to the `ClockModel`
  function of the old ones, so the `ClockModel` lemmas hold of the class.
- `Wrappers.dfy` — module `Wrappers`: `Option`.

The wall clock (`DateTime.Now`) is the parameter `now` of every operation that
recomputes the text; the culture's AM/PM designators are a constructor
parameter. Raising a COM event appends it to the field `events`; the timer is
`NoTimer` (null) or `Timer(enabled)`, and a timer tick is a call of
`TimerTick`, allowed only while the timer is enabled.

The invariant `ClockModel.Valid` says: an existing timer is enabled exactly
when `isRunning`; before initialisation there is no timer and no
start/stop event; the text is empty before its first recompute and otherwise
the rendering of the last reading in the pattern of the current flags; the
Started/Stopped events alternate Stopped, Started, Stopped, … (the control
starts itself without an event); and `isRunning` holds exactly when the
control is initialised and an even number of them has been raised.

Two behaviours of the code that the model keeps as they are:
- `Dispose` drops the timer but leaves `isRunning` as it was, so "running
  exactly when the timer is active" holds only while a timer exists;
- the flag setters compute the text even before the handle exists, so
  `CurrentTime` is empty before initialisation only if neither flag was set.

## Model

| member | source | states |
|---|---|---|
| Colors.ColorToInt | LedClock.cs:426-430 | a packed colour lies in [0, 2^24) |
| Colors.IntToColor | LedClock.cs:432-439 | the unpacked colour packs back to the low 24 bits of the argument, `colorValue & 0xFFFFFF` |
| Colors.DecodeEncode | LedClock.cs:426-439 | unpacking a packed colour gives back its three channels |
| Colors.EncodeDecode | LedClock.cs:426-439 | packing an unpacked int gives `v & 0xFFFFFF` (its low 24 bits, negative values included); values in [0, 2^24) come back unchanged |
| Colors.Clamp | LedClock.cs:258-260 | the clamped channel is in [0, 255], equal to the input when it is in range, 0 below, 255 above |
| Colors.ClampIsNearest | LedClock.cs:258-260 | no channel value is closer to the input than the clamped one |
| Colors.ClampedColor | LedClock.cs:258-262 | `Color.FromArgb` of the three clamped channels; a triple already in [0, 255] is stored unchanged |
| Colors.ClampedColorExample | LedClock.cs:254-262 | (-10, 300, 128) is stored as (0, 255, 128) |
| TimeText.ChoosePattern | LedClock.cs:116-127 | the pattern is 24-hour exactly when `_use24HourFormat` and has seconds exactly when `_showSeconds`, so each flag pair selects its own pattern |
| TimeText.TwoDigits | LedClock.cs:118-126 | a field printed zero-padded: always exactly two digit characters |
| TimeText.TwoDigitsRoundTrip | LedClock.cs:118-126 | every field 0-99 is printed as two digits that read back as its value |
| TimeText.ParseTwoDigitsCanonical | LedClock.cs:118-126 | every two-digit field is the zero-padded form of its value |
| TimeText.Hour12 | LedClock.cs:124-126 | the `hh` hour is in 1..12 and congruent to the hour modulo 12 |
| TimeText.Designator | LedClock.cs:125-126 | the `tt` field: the culture's AM designator before noon, its PM designator from noon on |
| TimeText.Render | LedClock.cs:116-127 | every rendered text is at least `HH:mm` long, so never empty |
| TimeText.Read | LedClock.cs:112-128 | an independent parser of the four patterns' texts, the inverse against which ReadRender and RenderRead state what the text shows |
| TimeText.ReadRender | LedClock.cs:112-128 | a rendered text reads back as the hour, minute and (when shown) second of the reading; on the 12-hour dial the AM/PM designator restores the hour |
| TimeText.RenderRead | LedClock.cs:112-128 | every text the reader accepts is exactly the rendering of what it read |
| ClockModel.Initial | LedClock.cs:52-66 | the constructor's field values: lime on black, 12-hour with seconds, no timer, not running, not initialised, empty text |
| ClockModel.UpdateTime | LedClock.cs:112-128 | the text becomes `now` rendered in the pattern the flags choose |
| ClockModel.HandleCreated | LedClock.cs:68-99 | handle-creation initialisation, guarded by `_controlsInitialized` |
| ClockModel.TimerTick | LedClock.cs:105-110 | recompute the text, then raise ClockTick with it |
| ClockModel.Start | LedClock.cs:212-230 | the guarded start: enable the timer, mark running, recompute, raise ClockStarted |
| ClockModel.Stop | LedClock.cs:234-250 | the guarded stop: disable the timer, mark stopped, raise ClockStopped |
| ClockModel.SetIsRunning | LedClock.cs:187-197 | the IsRunning setter: Start for true, Stop for false |
| ClockModel.SetUse24HourFormat | LedClock.cs:161-170 | set the flag, then recompute the text |
| ClockModel.SetShowSeconds | LedClock.cs:174-183 | set the flag, then recompute the text |
| ClockModel.SetLedColor | LedClock.cs:139-143 | store the decoded packed value as the LED colour |
| ClockModel.SetBackgroundColor | LedClock.cs:151-156 | store the decoded packed value as the background colour |
| ClockModel.SetLedColorRgb | LedClock.cs:254-270 | store the clamped channels as the LED colour |
| ClockModel.SetBackgroundColorRgb | LedClock.cs:274-291 | store the clamped channels as the background colour |
| ClockModel.Dispose | LedClock.cs:445-458 | a disposing call drops the timer and keeps `isRunning` |
| ClockModel.InitialIsValid | LedClock.cs:52-66 | the constructed fields satisfy the invariant, with the control not initialised and the text empty |
| ClockModel.HandleCreatedPreservesValid | LedClock.cs:68-99 | handle-creation initialisation keeps the invariant |
| ClockModel.TimerTickPreservesValid | LedClock.cs:105-110 | a tick keeps the invariant |
| ClockModel.StartPreservesValid | LedClock.cs:212-230 | Start keeps the invariant (timer enabled iff running, events alternate) |
| ClockModel.StopPreservesValid | LedClock.cs:234-250 | Stop keeps the invariant |
| ClockModel.SetIsRunningPreservesValid | LedClock.cs:187-197 | the IsRunning setter keeps the invariant |
| ClockModel.FlagSettersPreserveValid | LedClock.cs:161-183 | both flag setters keep the text consistent with the new flags |
| ClockModel.ColorSettersPreserveValid | LedClock.cs:136-157 | the four colour setters keep the invariant |
| ClockModel.DisposePreservesValid | LedClock.cs:445-458 | Dispose keeps the invariant |
| ClockModel.BeforeHandleCreated | LedClock.cs:52-99 | in every valid state before initialisation, whatever setters ran, there is no timer, the clock is stopped, Start and Stop change nothing, and the text is empty unless a flag setter computed it |
| ClockModel.HandleCreatedRunsOnce | LedClock.cs:68-99 | initialisation runs at most once, raises no event, and leaves an enabled timer, a running clock and the text of `now` |
| ClockModel.StartIsGuarded | LedClock.cs:212-230 | Start changes the state exactly when a timer exists and the clock is stopped; then it runs the clock, recomputes the text and appends one Started; a second Start is a no-op |
| ClockModel.StopIsGuarded | LedClock.cs:234-250 | Stop changes the state exactly when a timer exists and the clock runs; then it stops the clock and appends one Stopped without recomputing the text; a second Stop is a no-op |
| ClockModel.SetIsRunningToSameValue | LedClock.cs:187-197 | setting IsRunning to its current value changes nothing and raises nothing |
| ClockModel.StartThenStop | LedClock.cs:212-250 | Start then Stop on a stopped clock raises exactly Started, Stopped and restores every field but the text |
| ClockModel.AfterDispose | LedClock.cs:445-458 | after Dispose there is no timer, `isRunning` is unchanged, and Start and Stop are no-ops |
| ClockModel.TickAppendsText | LedClock.cs:105-110 | in every culture a tick recomputes the text from `now` and appends exactly one Tick carrying it; timer, running flag and pattern are unchanged |
| ClockModel.TickShowsNow | LedClock.cs:105-128 | the text a tick raises reads back as `now` in the pattern of the flags |
| ClockModel.Use24HourFormatRecomputes | LedClock.cs:161-170 | in every culture setting Use24HourFormat recomputes the text at once in the new pattern, running or not, raising nothing and leaving timer and running flag alone |
| ClockModel.Use24HourFormatReadsBack | LedClock.cs:161-170 | the text after setting Use24HourFormat reads back as `now` in the new pattern |
| ClockModel.ShowSecondsRecomputes | LedClock.cs:174-183 | in every culture setting ShowSeconds recomputes the text at once in the new pattern, running or not, raising nothing and leaving timer and running flag alone |
| ClockModel.ShowSecondsReadsBack | LedClock.cs:174-183 | the text after setting ShowSeconds reads back as `now` in the new pattern |
| ClockModel.CurrentTimeReadsBack | LedClock.cs:112-128 | in every reachable state a computed text reads back as the last reading in the current pattern |
| ClockModel.LedColorReadsBack | LedClock.cs:136-144 | after `LedColor = v` the getter returns `v & 0xFFFFFF` and only the LED colour changed |
| ClockModel.BackgroundColorReadsBack | LedClock.cs:148-157 | after `BackgroundColor = v` the getter returns `v & 0xFFFFFF` and only the background changed |
| ClockModel.LedColorRgbClamps | LedClock.cs:254-270 | SetLedColorRGB clamps each channel independently and equals the packed setter given the clamped channels |
| ClockModel.BackgroundColorRgbClamps | LedClock.cs:274-291 | SetBackgroundColorRGB clamps each channel independently and equals the packed setter given the clamped channels |
| LedClockCOM.LedClock.constructor | LedClock.cs:52-66 | lime on black, 12-hour with seconds, no timer, not running, empty text, no events |
| LedClockCOM.LedClock.OnHandleCreated | LedClock.cs:68-99 | the fields become `HandleCreated` of the old ones; the invariant holds |
| LedClockCOM.LedClock.TimerTick | LedClock.cs:105-110 | the fields become `TimerTick` of the old ones; the invariant holds |
| LedClockCOM.LedClock.UpdateTime | LedClock.cs:112-128 | the four-way branch on the flags sets the text to the rendering of `now` in the chosen pattern |
| LedClockCOM.LedClock.LedColor | LedClock.cs:136-138 | the getter returns a value in [0, 2^24) that decodes to the stored colour |
| LedClockCOM.LedClock.SetLedColor | LedClock.cs:139-143 | only the LED colour changes, to the decoded value |
| LedClockCOM.LedClock.BackgroundColor | LedClock.cs:148-150 | the getter returns a value in [0, 2^24) that decodes to the stored colour |
| LedClockCOM.LedClock.SetBackgroundColor | LedClock.cs:151-156 | only the background colour changes, to the decoded value |
| LedClockCOM.LedClock.SetUse24HourFormat | LedClock.cs:161-170 | the flag is set and the text recomputed; the invariant holds |
| LedClockCOM.LedClock.SetShowSeconds | LedClock.cs:174-183 | the flag is set and the text recomputed; the invariant holds |
| LedClockCOM.LedClock.SetIsRunning | LedClock.cs:187-197 | `true` acts as Start, `false` as Stop |
| LedClockCOM.LedClock.CurrentTime | LedClock.cs:201-204 | the text is empty exactly when it has never been computed |
| LedClockCOM.LedClock.Start | LedClock.cs:212-230 | the fields become `ClockModel.Start` of the old ones; the invariant holds |
| LedClockCOM.LedClock.Stop | LedClock.cs:234-250 | the fields become `ClockModel.Stop` of the old ones; the invariant holds |
| LedClockCOM.LedClock.SetLedColorRgb | LedClock.cs:254-270 | only the LED colour changes, to the clamped channels |
| LedClockCOM.LedClock.SetBackgroundColorRgb | LedClock.cs:274-291 | only the background colour changes, to the clamped channels |
| LedClockCOM.LedClock.RaiseClockTick | LedClock.cs:317-327 | appends one Tick with the given text to the event log |
| LedClockCOM.LedClock.RaiseClockStarted | LedClock.cs:329-339 | appends one Started to the event log |
| LedClockCOM.LedClock.RaiseClockStopped | LedClock.cs:341-351 | appends one Stopped to the event log |
| LedClockCOM.LedClock.Dispose | LedClock.cs:445-458 | a disposing call drops the timer and leaves `isRunning` as it was |

## Left out

- `OnPaint` (LedClock.cs:357-420): GDI+ drawing, font measurement and floating-point layout; it reads the state and changes none of it.
- `Invalidate()` and the `BackColor` assignments: repaint requests and the surface fill colour belong to Windows Forms, not to the clock's state.
- `About` (LedClock.cs:295-311): assembly reflection and a message box.
- The try/catch blocks and `MessageBox` error reports: every operation is modelled as not failing.
- The subscriber checks in `RaiseClock*`: every raised event is logged whether or not a host subscribed, and a subscriber's exception is not modelled.
- The COM interfaces, DispIds, registration and assembly metadata: declarations without behaviour.
- The real `System.Windows.Forms.Timer`, its 1000 ms interval and `DateTime.Now`: the timer is a present/enabled flag, ticks are explicit calls, and the time is a parameter holding hour, minute and second only.
- The time separator: .NET prints the culture's time separator for `:`; the model always prints `:`.
- The culture: its AM/PM designators are fixed when the control is created, although .NET reads the current culture at each formatting call; the designators are not checked against any locale. The read-back lemmas (TickShowsNow, Use24HourFormatReadsBack, ShowSecondsReadsBack, CurrentTimeReadsBack) need the two designators to differ on the 12-hour dial, where equal designators make AM and PM indistinguishable; the state-change lemmas beside them hold in every culture.
- `Color.FromArgb`'s argument check and alpha channel: the control only passes channels in [0, 255], and alpha is always 255.
- `LedClockCOM.LedClock.CurrentTime`: the `?? string.Empty` null fallback is not modelled, because the field is never null.
