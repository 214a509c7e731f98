/**
 * The countdown overlay script: the target time of day built from the
 * settings, the remaining-time formatter, and the timer tick that pushes the
 * text into a source.
 *
 * Times are whole seconds since midnight; "now" is a parameter and stands
 * for the wall-clock time rounded UP to the next whole second. For a real
 * time r and a whole-second target T, floor(T - r) == T - ceil(r), and
 * r > T exactly when ceil(r) > T, so with that reading `FormatTime` gives
 * what `format_time` gives at r.
 */
module Countdown {
  import opened Wrappers

  /** A `datetime.time` with whole seconds. */
  datatype TimeOfDay = TimeOfDay(hour: int, minute: int, second: int) {
    /** The ranges `datetime.time` accepts. */
    predicate Valid() {
      0 <= hour <= 23 && 0 <= minute <= 59 && 0 <= second <= 59
    }

    /** Seconds since midnight. */
    function Seconds(): (r: int)
      requires Valid()
      ensures 0 <= r < 86400
    {
      hour * 3600 + minute * 60 + second
    }
  }

  /** `datetime.time(h, m, s)`: `None` where Python raises ValueError. */
  function MakeTime(h: int, m: int, s: int): (r: Option<TimeOfDay>)
    ensures r.Some? <==> 0 <= h < 24 && 0 <= m < 60 && 0 <= s < 60
    ensures r.Some? ==> r.value.Valid() && r.value.hour == h && r.value.minute == m && r.value.second == s
  {
    var t := TimeOfDay(h, m, s);
    if t.Valid() then Some(t) else None
  }

  /** A valid time survives the constructor unchanged, and no invalid one does. */
  lemma MakeTimeRoundTrip(t: TimeOfDay)
    ensures MakeTime(t.hour, t.minute, t.second) == Some(t) <==> t.Valid()
  {
  }

  // ---------------------------------------------------------------------------
  // Splitting a duration into fields
  // ---------------------------------------------------------------------------

  datatype Fields = Fields(hours: int, minutes: int, seconds: int)

  /** Hours, minutes and seconds of a non-negative number of seconds, as
      `format_time` computes them with `// 3600`, `// 60 % 60` and `% 60`. */
  function Decompose(d: nat): (f: Fields)
    ensures f.hours * 3600 + f.minutes * 60 + f.seconds == d
    ensures 0 <= f.hours && 0 <= f.minutes <= 59 && 0 <= f.seconds <= 59
    ensures d < 86400 ==> f.hours <= 23
  {
    Fields(d / 3600, (d / 60) % 60, d % 60)
  }

  /** The decomposition is the only one with minutes and seconds below 60. */
  lemma DecomposeUnique(d: nat, h: int, m: int, s: int)
    requires 0 <= h && 0 <= m < 60 && 0 <= s < 60
    requires h * 3600 + m * 60 + s == d
    ensures Decompose(d) == Fields(h, m, s)
  {
  }

  /** Splitting a time's seconds since midnight gives back its own fields. */
  lemma SecondsDecompose(t: TimeOfDay)
    requires t.Valid()
    ensures Decompose(t.Seconds()) == Fields(t.hour, t.minute, t.second)
  {
    DecomposeUnique(t.Seconds(), t.hour, t.minute, t.second);
  }

  // ---------------------------------------------------------------------------
  // Two-digit fields and the clock text
  // ---------------------------------------------------------------------------

  predicate IsDigit(c: char) {
    '0' <= c <= '9'
  }

  function DigitValue(c: char): int
    requires IsDigit(c)
  {
    c as int - '0' as int
  }

  /** A two-character field of decimal digits. */
  predicate IsField(s: string) {
    |s| == 2 && IsDigit(s[0]) && IsDigit(s[1])
  }

  function FieldValue(s: string): (r: int)
    requires IsField(s)
    ensures 0 <= r <= 99
  {
    DigitValue(s[0]) * 10 + DigitValue(s[1])
  }

  /** A zero-padded two-digit field, as `%H`, `%M` and `%S` render one. */
  function TwoDigits(n: int): (r: string)
    requires 0 <= n <= 99
    ensures IsField(r) && FieldValue(r) == n
  {
    [('0' as int + n / 10) as char, ('0' as int + n % 10) as char]
  }

  /** The two shapes of countdown text: `HH:MM:SS` with a non-zero hour of at
      most 23, or `MM:SS`; minutes and seconds are at most 59. */
  predicate IsClock(r: string) {
    || (&& |r| == 8
        && IsField(r[0..2]) && r[2] == ':' && IsField(r[3..5]) && r[5] == ':' && IsField(r[6..8])
        && 1 <= FieldValue(r[0..2]) <= 23 && FieldValue(r[3..5]) <= 59 && FieldValue(r[6..8]) <= 59)
    || (&& |r| == 5
        && IsField(r[0..2]) && r[2] == ':' && IsField(r[3..5])
        && FieldValue(r[0..2]) <= 59 && FieldValue(r[3..5]) <= 59)
  }

  /** The number of seconds a clock text denotes. */
  function ClockValue(r: string): int
    requires IsClock(r)
  {
    if |r| == 8 then FieldValue(r[0..2]) * 3600 + FieldValue(r[3..5]) * 60 + FieldValue(r[6..8])
    else FieldValue(r[0..2]) * 60 + FieldValue(r[3..5])
  }

  /** The text of a remaining duration of less than a day: a clock text of
      the fixed shape that reads back as that duration, with the hour field
      only when at least an hour remains. */
  function RenderRemaining(d: nat): (r: string)
    requires d < 86400
    ensures IsClock(r)
    ensures ClockValue(r) == d
    ensures |r| == 8 <==> d >= 3600
  {
    var f := Decompose(d);
    if f.hours > 0 then TwoDigits(f.hours) + ":" + TwoDigits(f.minutes) + ":" + TwoDigits(f.seconds)
    else TwoDigits(f.minutes) + ":" + TwoDigits(f.seconds)
  }

  /** `format_time`: the stop text once now is strictly past the target,
      otherwise the remaining time as a clock text. */
  function FormatTime(now: nat, target: TimeOfDay, stopText: string): (r: string)
    requires target.Valid()
    ensures now > target.Seconds() ==> r == stopText
    ensures now <= target.Seconds() ==>
              |r| == (if target.Seconds() - now >= 3600 then 8 else 5)
    ensures now <= target.Seconds() ==> IsClock(r) && ClockValue(r) == target.Seconds() - now
  {
    var end := target.Seconds();
    if now > end then stopText else RenderRemaining(end - now)
  }

  /** Before or at the target, the countdown text reads back as exactly the
      time left. */
  lemma FormatTimeRoundTrip(now: nat, target: TimeOfDay, stopText: string)
    requires target.Valid() && now <= target.Seconds()
    ensures IsClock(FormatTime(now, target, stopText))
    ensures ClockValue(FormatTime(now, target, stopText)) == target.Seconds() - now
  {
  }

  /** At the target itself the text is "00:00", not the stop text. */
  lemma FormatTimeAtTarget(target: TimeOfDay, stopText: string)
    requires target.Valid()
    ensures FormatTime(target.Seconds(), target, stopText) == "00:00"
  {
  }

  /** Examples for a target of 11:00:00. */
  lemma FormatTimeExamples(stopText: string)
    ensures FormatTime(10 * 3600 + 59 * 60 + 30, TimeOfDay(11, 0, 0), stopText) == "00:30"
    ensures FormatTime(9 * 3600, TimeOfDay(11, 0, 0), stopText) == "02:00:00"
    ensures FormatTime(11 * 3600 + 1, TimeOfDay(11, 0, 0), stopText) == stopText
  {
    assert Decompose(30) == Fields(0, 0, 30);
    assert Decompose(7200) == Fields(2, 0, 0);
  }

  // ---------------------------------------------------------------------------
  // Settings and the timer tick
  // ---------------------------------------------------------------------------

  /** The script's `Settings` class attributes. */
  datatype Settings = Settings(countdownTime: Option<TimeOfDay>, sourceName: string, stopText: string) {
    predicate Valid() {
      countdownTime.Some? ==> countdownTime.value.Valid()
    }
  }

  /** The class attributes before the first settings update. */
  const InitialSettings := Settings(None, "", "")

  /** The settings after `script_update`, and whether the timer was (re)started. */
  datatype UpdateResult = UpdateResult(settings: Settings, timerStarted: bool)

  /** `script_update`: builds the target time first; when `datetime.time`
      raises, nothing else is assigned and the timer is not restarted. */
  function UpdateSettings(s: Settings, hour: int, minute: int, second: int,
                          sourceName: string, stopText: string): (r: UpdateResult)
    ensures r.timerStarted <==> 0 <= hour <= 23 && 0 <= minute <= 59 && 0 <= second <= 59
    ensures !r.timerStarted ==> r.settings == s
    ensures r.timerStarted ==>
              r.settings == Settings(Some(TimeOfDay(hour, minute, second)), sourceName, stopText)
    ensures s.Valid() ==> r.settings.Valid()
  {
    match MakeTime(hour, minute, second)
    case None => UpdateResult(s, false)
    case Some(t) => UpdateResult(Settings(Some(t), sourceName, stopText), true)
  }

  /** The property UI offers hour 24, which `datetime.time` rejects: the
      update is lost and the previous settings stay in force. */
  lemma HourTwentyFourRejected(s: Settings, minute: int, second: int, sourceName: string, stopText: string)
    ensures UpdateSettings(s, 24, minute, second, sourceName, stopText) == UpdateResult(s, false)
  {
  }

  /** A text pushed into a named source. */
  datatype TextUpdate = TextUpdate(source: string, text: string)

  /** `timer_callback`: nothing while the source name is empty or no target
      is set, or when no source of that name exists; otherwise the formatted
      text for the named source. */
  function TimerCallback(s: Settings, now: nat, sourceExists: bool): (r: Option<TextUpdate>)
    requires s.Valid()
    ensures r.None? <==> s.sourceName == "" || s.countdownTime.None? || !sourceExists
    ensures r.Some? ==> r.value.source == s.sourceName
    ensures r.Some? && now > s.countdownTime.value.Seconds() ==> r.value.text == s.stopText
    ensures r.Some? && now <= s.countdownTime.value.Seconds() ==>
              |r.value.text| == (if s.countdownTime.value.Seconds() - now >= 3600 then 8 else 5)
    ensures r.Some? && now <= s.countdownTime.value.Seconds() ==>
              IsClock(r.value.text) && ClockValue(r.value.text) == s.countdownTime.value.Seconds() - now
  {
    if s.sourceName == "" || s.countdownTime.None? then None
    else
      var text := FormatTime(now, s.countdownTime.value, s.stopText);
      if sourceExists then Some(TextUpdate(s.sourceName, text)) else None
  }

  /** Before the first update the tick does nothing. */
  lemma InitialTickIsSilent(now: nat, sourceExists: bool)
    ensures TimerCallback(InitialSettings, now, sourceExists) == None
  {
  }
}
