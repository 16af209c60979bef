/**
 * Wall-clock times of day as the alert-window check reads them: "HH:MM" strings split at ':'
 * and converted with Number(), then compared as decimal hours `h + m / 60`. The model compares
 * whole minutes `60 * h + m` instead; DecimalHoursOrder shows the two orders agree.
 */
module Clock {
  import opened Wrappers

  /** The current local time, `getHours() * 60 + getMinutes()`. */
  type MinuteOfDay = m: int | 0 <= m < 1440

  /** The two numbers taken from a time string; Number() does not range-check them. */
  datatype HourMinute = HourMinute(hour: nat, minute: nat)

  function Minutes(t: HourMinute): nat {
    60 * t.hour + t.minute
  }

  /** The value the source compares: `h + m / 60`. */
  function DecimalHours(t: HourMinute): real {
    t.hour as real + t.minute as real / 60.0
  }

  /** Comparing whole minutes orders time strings exactly as comparing decimal hours does. */
  lemma DecimalHoursOrder(a: HourMinute, b: HourMinute)
    ensures DecimalHours(a) <= DecimalHours(b) <==> Minutes(a) <= Minutes(b)
    ensures DecimalHours(a) < DecimalHours(b) <==> Minutes(a) < Minutes(b)
  {
    assert DecimalHours(a) * 60.0 == Minutes(a) as real;
    assert DecimalHours(b) * 60.0 == Minutes(b) as real;
  }

  predicate IsDigit(c: char) {
    '0' <= c <= '9'
  }

  predicate AllDigits(s: string) {
    forall i :: 0 <= i < |s| ==> IsDigit(s[i])
  }

  /** The decimal value of a string of digits; the empty string is 0, as Number("") is. */
  function DigitsValue(s: string): nat
    requires AllDigits(s)
    decreases |s|
  {
    if s == [] then 0 else 10 * DigitsValue(s[..|s| - 1]) + (s[|s| - 1] as int - '0' as int)
  }

  /** Number(field) on a field of decimal digits; None stands for NaN. */
  function ToNumber(field: string): (r: Option<nat>)
    ensures r.Some? <==> AllDigits(field)
  {
    if AllDigits(field) then Some(DigitsValue(field)) else None
  }

  /** The index of the first ':' in s, if any. */
  function ColonAt(s: string): (r: Option<nat>)
    ensures r.Some? ==> r.value < |s| && s[r.value] == ':'
    ensures r.Some? ==> forall j :: 0 <= j < r.value ==> s[j] != ':'
    ensures r.None? ==> forall j :: 0 <= j < |s| ==> s[j] != ':'
  {
    if s == [] then None
    else if s[0] == ':' then Some(0)
    else match ColonAt(s[1..])
      case None => None
      case Some(i) => Some(i + 1)
  }

  /** The first element of `s.split(':')`. */
  function FirstField(s: string): (r: string)
    ensures |r| <= |s| && r == s[..|r|]
    ensures forall j :: 0 <= j < |r| ==> r[j] != ':'
  {
    match ColonAt(s)
    case None => s
    case Some(i) => s[..i]
  }

  /**
   * `const [h, m] = s.split(':').map(Number)`: the first two fields of s. None when either is
   * NaN, which makes every comparison with the time false; a string without ':' has no minute
   * field, and Number(undefined) is NaN.
   */
  function ParseClock(s: string): (r: Option<HourMinute>)
    ensures (forall j :: 0 <= j < |s| ==> s[j] != ':') ==> r.None?
    ensures r.Some? ==> ColonAt(s).Some? && AllDigits(s[..ColonAt(s).value])
    ensures r.Some? ==> r.value.hour == DigitsValue(s[..ColonAt(s).value])
  {
    match ColonAt(s)
    case None => None
    case Some(i) =>
      var h := ToNumber(s[..i]);
      var m := ToNumber(FirstField(s[i + 1..]));
      if h.Some? && m.Some? then Some(HourMinute(h.value, m.value)) else None
  }

  function Digit(d: nat): char
    requires d < 10
  {
    ('0' as int + d) as char
  }

  function TwoDigits(n: nat): string
    requires n < 100
  {
    [Digit(n / 10), Digit(n % 10)]
  }

  /** The "HH:MM" spelling of a minute of the day. */
  function FormatClock(t: MinuteOfDay): string {
    TwoDigits(t / 60) + ":" + TwoDigits(t % 60)
  }

  lemma TwoDigitsValue(n: nat)
    requires n < 100
    ensures AllDigits(TwoDigits(n)) && DigitsValue(TwoDigits(n)) == n
    ensures forall j :: 0 <= j < 2 ==> TwoDigits(n)[j] != ':'
  {
    var s := TwoDigits(n);
    assert s[..1] == [Digit(n / 10)];
    assert s[..1][..0] == [];
    assert DigitsValue(s[..1]) == n / 10;
    assert s[1] as int - '0' as int == n % 10;
  }

  /** Reading back a formatted time gives the minute it was formatted from. */
  lemma {:induction false} ParseFormatClock(t: MinuteOfDay)
    ensures ParseClock(FormatClock(t)) == Some(HourMinute(t / 60, t % 60))
    ensures Minutes(HourMinute(t / 60, t % 60)) == t
  {
    var s := FormatClock(t);
    TwoDigitsValue(t / 60);
    TwoDigitsValue(t % 60);
    assert s[0] != ':' && s[1] != ':' && s[2] == ':';
    assert ColonAt(s[2..]) == Some(0);
    assert ColonAt(s[1..]) == Some(1);
    assert ColonAt(s) == Some(2);
    assert s[..2] == TwoDigits(t / 60);
    var rest := s[3..];
    assert rest == TwoDigits(t % 60);
    assert ColonAt(rest[2..]) == None;
    assert ColonAt(rest[1..]) == None;
    assert ColonAt(rest) == None;
    assert FirstField(rest) == rest;
  }

  /** The window bounds used when a channel stores no time. */
  const DefaultStart: string := "00:00"
  const DefaultEnd: string := "23:59"

  /** `field || fallback`. */
  function OrDefault(field: Option<string>, fallback: string): string {
    if Truthy(field) then field.value else fallback
  }

  /**
   * `currentHour >= start && currentHour < end` with the stored bounds, or the defaults when a
   * bound is null or empty. A bound that does not parse is NaN, and then the check is false.
   */
  function InWindow(timeStart: Option<string>, timeEnd: Option<string>, now: MinuteOfDay): (r: bool)
    ensures ParseClock(OrDefault(timeStart, DefaultStart)).None? ==> !r
    ensures ParseClock(OrDefault(timeEnd, DefaultEnd)).None? ==> !r
    ensures r ==> Minutes(ParseClock(OrDefault(timeStart, DefaultStart)).value) <= now
    ensures r ==> now < Minutes(ParseClock(OrDefault(timeEnd, DefaultEnd)).value)
  {
    var start := ParseClock(OrDefault(timeStart, DefaultStart));
    var end := ParseClock(OrDefault(timeEnd, DefaultEnd));
    start.Some? && end.Some? && Minutes(start.value) <= now < Minutes(end.value)
  }

  /** For "HH:MM" bounds the window is the half-open interval [start, end). */
  lemma WindowIsHalfOpen(start: MinuteOfDay, end: MinuteOfDay, now: MinuteOfDay)
    ensures InWindow(Some(FormatClock(start)), Some(FormatClock(end)), now) <==> start <= now < end
  {
    ParseFormatClock(start);
    ParseFormatClock(end);
  }

  /** A window whose start is not before its end, midnight-spanning ones included, never opens. */
  lemma InvertedWindowNeverOpens(start: MinuteOfDay, end: MinuteOfDay, now: MinuteOfDay)
    requires end <= start
    ensures !InWindow(Some(FormatClock(start)), Some(FormatClock(end)), now)
  {
    WindowIsHalfOpen(start, end, now);
  }

  /** With no stored bounds the window is 00:00 to 23:59: open at every minute except 23:59. */
  lemma DefaultWindow(now: MinuteOfDay)
    ensures InWindow(None, None, now) <==> now < 1439
    ensures InWindow(Some(""), Some(""), now) <==> now < 1439
  {
    FormatMidnight();
    FormatLastMinute();
    assert OrDefault(Some(""), DefaultStart) == OrDefault(None, DefaultStart) == FormatClock(0);
    assert OrDefault(Some(""), DefaultEnd) == OrDefault(None, DefaultEnd) == FormatClock(1439);
    WindowIsHalfOpen(0, 1439, now);
  }

  lemma FormatMidnight()
    ensures FormatClock(0) == DefaultStart
  {
    assert TwoDigits(0) == "00";
  }

  lemma FormatLastMinute()
    ensures FormatClock(1439) == DefaultEnd
  {
    assert TwoDigits(23) == "23" && TwoDigits(59) == "59";
  }

  /** "09:30" reads as 9.5 hours. */
  lemma ParseHalfPast()
    ensures ParseClock("09:30") == Some(HourMinute(9, 30)) && DecimalHours(HourMinute(9, 30)) == 9.5
  {
    ParseFormatted(570, "09:30");
  }

  /** "23:59", the default end, reads as just under 23.99 hours. */
  lemma ParseEndOfDay()
    ensures ParseClock(DefaultEnd) == Some(HourMinute(23, 59))
    ensures 23.98 < DecimalHours(HourMinute(23, 59)) < 23.99
  {
    assert DecimalHours(HourMinute(23, 59)) * 60.0 == 1439.0;
    ParseFormatted(1439, DefaultEnd);
  }

  lemma ParseFormatted(t: MinuteOfDay, s: string)
    requires FormatClock(t) == s
    ensures ParseClock(s) == Some(HourMinute(t / 60, t % 60))
  {
    ParseFormatClock(t);
  }

  /** A 09:00-17:00 window is open at 10:00 and shut at 08:00 and 18:00; a 09:30-17:00 window is open at 09:30 and shut at 09:29 and 17:00. */
  lemma WindowExamples()
    ensures InWindow(Some("09:00"), Some("17:00"), 600)
    ensures !InWindow(Some("09:00"), Some("17:00"), 480)
    ensures !InWindow(Some("09:00"), Some("17:00"), 1080)
    ensures InWindow(Some("09:30"), Some("17:00"), 570)
    ensures !InWindow(Some("09:30"), Some("17:00"), 569)
    ensures !InWindow(Some("09:30"), Some("17:00"), 1020)
    ensures forall now: MinuteOfDay :: !InWindow(Some("22:00"), Some("06:00"), now)
  {
    assert FormatClock(540) == "09:00";
    assert FormatClock(570) == "09:30";
    assert FormatClock(1020) == "17:00";
    assert FormatClock(1320) == "22:00";
    assert FormatClock(360) == "06:00";
    WindowIsHalfOpen(540, 1020, 600);
    WindowIsHalfOpen(540, 1020, 480);
    WindowIsHalfOpen(540, 1020, 1080);
    WindowIsHalfOpen(570, 1020, 570);
    WindowIsHalfOpen(570, 1020, 569);
    WindowIsHalfOpen(570, 1020, 1020);
    forall now: MinuteOfDay ensures !InWindow(Some("22:00"), Some("06:00"), now) {
      InvertedWindowNeverOpens(1320, 360, now);
    }
  }
}
