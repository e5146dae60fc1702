/**
 * The text the clock shows: the four .NET custom date-time patterns the
 * control chooses between, rendered for one wall-clock reading, and a reader
 * that recovers the displayed fields from such a text.
 */
module TimeText {

  import opened Wrappers

  type Hour = x: int | 0 <= x < 24

  /** A minute or a second of the wall-clock reading. */
  type Sixty = x: int | 0 <= x < 60

  /** The part of `DateTime.Now` that the patterns display. */
  datatype TimeOfDay = TimeOfDay(hour: Hour, minute: Sixty, second: Sixty)

  /** The culture's AM and PM designators, the text of the `tt` field. */
  datatype Culture = Culture(amDesignator: string, pmDesignator: string)

  /** The four patterns passed to `DateTime.ToString`. */
  datatype Pattern =
    | Hours24WithSeconds   // "HH:mm:ss"
    | Hours24              // "HH:mm"
    | Hours12WithSeconds   // "hh:mm:ss tt"
    | Hours12              // "hh:mm tt"
  {
    predicate Is24Hour() { Hours24WithSeconds? || Hours24? }

    predicate HasSeconds() { Hours24WithSeconds? || Hours12WithSeconds? }
  }

  /** The choice made by UpdateTime from the two display flags; every
      pattern is chosen by exactly one pair of flags. */
  function ChoosePattern(use24HourFormat: bool, showSeconds: bool): (p: Pattern)
    ensures p.Is24Hour() == use24HourFormat
    ensures p.HasSeconds() == showSeconds
  {
    if use24HourFormat then
      (if showSeconds then Hours24WithSeconds else Hours24)
    else
      (if showSeconds then Hours12WithSeconds else Hours12)
  }

  predicate IsDigit(ch: char) { '0' <= ch <= '9' }

  function DigitChar(d: int): (ch: char)
    requires 0 <= d < 10
    ensures IsDigit(ch)
  {
    ('0' as int + d) as char
  }

  /** A field printed zero-padded to two digits ("HH", "hh", "mm", "ss"). */
  function TwoDigits(n: int): (s: string)
    requires 0 <= n < 100
    ensures |s| == 2 && IsDigit(s[0]) && IsDigit(s[1])
  {
    [DigitChar(n / 10), DigitChar(n % 10)]
  }

  /** The value of a two-digit field, if both characters are digits. */
  function ParseTwoDigits(s: string): Option<int>
    requires |s| == 2
  {
    if IsDigit(s[0]) && IsDigit(s[1]) then
      Some(10 * (s[0] as int - '0' as int) + (s[1] as int - '0' as int))
    else
      None
  }

  lemma {:induction false} TwoDigitsRoundTrip(n: int)
    requires 0 <= n < 100
    ensures ParseTwoDigits(TwoDigits(n)) == Some(n)
  {
    var s := TwoDigits(n);
    assert s[0] as int - '0' as int == n / 10;
    assert s[1] as int - '0' as int == n % 10;
  }

  /** Every readable two-digit field is the padded form of its value. */
  lemma {:induction false} ParseTwoDigitsCanonical(s: string, n: int)
    requires |s| == 2 && ParseTwoDigits(s) == Some(n)
    ensures 0 <= n < 100 && TwoDigits(n) == s
  {
    var hi, lo := s[0] as int - '0' as int, s[1] as int - '0' as int;
    assert n / 10 == hi && n % 10 == lo;
    assert TwoDigits(n)[0] == s[0];
    assert TwoDigits(n)[1] == s[1];
  }

  /** The `hh` field: the hour on a 12-hour dial, where midnight and noon
      read 12. */
  function Hour12(h: Hour): (r: int)
    ensures 1 <= r <= 12
    ensures r % 12 == h % 12
  {
    if h % 12 == 0 then 12 else h % 12
  }

  /** The `tt` field: the AM designator before noon, the PM designator from
      noon on. */
  function Designator(h: Hour, culture: Culture): string
  {
    if h < 12 then culture.amDesignator else culture.pmDesignator
  }

  /** `now.ToString(pattern)` for the four patterns. The separator is ':' and
      `tt` is preceded by the pattern's literal space. */
  function Render(p: Pattern, t: TimeOfDay, culture: Culture): (text: string)
    ensures 5 <= |text|
  {
    var hours := if p.Is24Hour() then TwoDigits(t.hour) else TwoDigits(Hour12(t.hour));
    var clock := hours + ":" + TwoDigits(t.minute)
      + (if p.HasSeconds() then ":" + TwoDigits(t.second) else "");
    if p.Is24Hour() then clock else clock + " " + Designator(t.hour, culture)
  }

  /** What a pattern shows of a reading: the seconds are dropped by the
      patterns without them. */
  function Visible(p: Pattern, t: TimeOfDay): TimeOfDay
  {
    if p.HasSeconds() then t else t.(second := 0)
  }

  /** Recovers the displayed reading from a text in pattern `p`; None when
      the text is not in that pattern. A missing seconds field reads as 0. */
  function Read(text: string, p: Pattern, culture: Culture): Option<TimeOfDay>
  {
    var width := if p.HasSeconds() then 8 else 5;
    if |text| < width || text[2] != ':' || (p.HasSeconds() && text[5] != ':') then None
    else
      var hh := ParseTwoDigits(text[..2]);
      var mm := ParseTwoDigits(text[3..5]);
      var ss := if p.HasSeconds() then ParseTwoDigits(text[6..8]) else Some(0);
      var suffix := text[width..];
      if hh.None? || mm.None? || ss.None? || 60 <= mm.value || 60 <= ss.value then None
      else if p.Is24Hour() then
        if suffix == [] && hh.value < 24 then Some(TimeOfDay(hh.value, mm.value, ss.value)) else None
      else if hh.value < 1 || 12 < hh.value then None
      else if suffix == " " + culture.amDesignator then
        Some(TimeOfDay(hh.value % 12, mm.value, ss.value))
      else if suffix == " " + culture.pmDesignator then
        Some(TimeOfDay(hh.value % 12 + 12, mm.value, ss.value))
      else None
  }

  /** Reading a rendered text gives back the displayed fields. On a 12-hour
      dial the designators must differ, or AM and PM cannot be told apart. */
  lemma {:induction false} ReadRender(p: Pattern, t: TimeOfDay, culture: Culture)
    requires p.Is24Hour() || culture.amDesignator != culture.pmDesignator
    ensures Read(Render(p, t, culture), p, culture) == Some(Visible(p, t))
  {
    var text := Render(p, t, culture);
    var hours := if p.Is24Hour() then t.hour else Hour12(t.hour);
    var width := if p.HasSeconds() then 8 else 5;
    var clock := TwoDigits(hours) + ":" + TwoDigits(t.minute)
      + (if p.HasSeconds() then ":" + TwoDigits(t.second) else "");
    var suffix := if p.Is24Hour() then "" else " " + Designator(t.hour, culture);
    assert |clock| == width && text == clock + suffix;
    assert text[..width] == clock && text[width..] == suffix;
    TwoDigitsRoundTrip(hours);
    TwoDigitsRoundTrip(t.minute);
    TwoDigitsRoundTrip(t.second);
    assert text[..2] == TwoDigits(hours);
    assert text[3..5] == TwoDigits(t.minute);
    if p.HasSeconds() {
      assert text[6..8] == clock[6..8] == TwoDigits(t.second);
    }
    if !p.Is24Hour() {
      if t.hour < 12 {
        assert suffix == " " + culture.amDesignator && hours % 12 == t.hour;
      } else {
        assert suffix == " " + culture.pmDesignator && hours % 12 + 12 == t.hour;
        assert suffix != " " + culture.amDesignator by {
          assert suffix[1..] == culture.pmDesignator;
        }
      }
    }
  }

  /** Conversely, every text the reader accepts is exactly the rendering of
      what it read: a pattern's text determines the displayed fields. */
  lemma {:induction false} RenderRead(text: string, p: Pattern, culture: Culture, t: TimeOfDay)
    requires Read(text, p, culture) == Some(t)
    ensures Render(p, t, culture) == text
  {
    var width := if p.HasSeconds() then 8 else 5;
    var hh := ParseTwoDigits(text[..2]).value;
    ParseTwoDigitsCanonical(text[..2], hh);
    ParseTwoDigitsCanonical(text[3..5], t.minute);
    if p.HasSeconds() {
      ParseTwoDigitsCanonical(text[6..8], t.second);
    }
    var hours := if p.Is24Hour() then t.hour else Hour12(t.hour);
    assert hours == hh;
    var clock := TwoDigits(hours) + ":" + TwoDigits(t.minute)
      + (if p.HasSeconds() then ":" + TwoDigits(t.second) else "");
    assert clock == text[..width];
    if !p.Is24Hour() {
      assert text[width..] == " " + Designator(t.hour, culture);
    }
    assert text == text[..width] + text[width..];
  }
}
