/** Dates, times of day and timestamps as the engine stores and compares them.
    A date is a day number (days since an epoch) standing in for
    `java.time.LocalDate`; a dose time is a minute of the day standing in for a
    `LocalTime` with whole minutes; the clock reading `LocalDateTime.now()` is a
    day, a second of the day and a nanosecond. The text forms are those of the
    source: `HH:mm` for a dose time, `<date> HH:mm` in due messages,
    `<date> HH:mm:ss` in dose history, where `<date>` is the decimal day number
    in place of `yyyy-MM-dd`. */
module Clock {
  import opened Lang
  import opened Strings

  type Day = nat
  type Minute = m: int | 0 <= m < 1440
  type SecondOfDay = s: int | 0 <= s < 86400
  type Nano = n: int | 0 <= n < 1_000_000_000

  /** A scheduled dose: `LocalDateTime.of(date, time)`. */
  datatype Slot = Slot(date: Day, time: Minute)

  /** A clock reading with sub-second precision, as `LocalDateTime.now()`. */
  datatype Timestamp = Timestamp(day: Day, second: SecondOfDay, nano: Nano)

  /** The (date, time) order that `viewReminders` and `getNextDoseDateTime` sort by. */
  predicate SlotLe(a: Slot, b: Slot)
  {
    a.date < b.date || (a.date == b.date && a.time <= b.time)
  }

  /** The instant at which a slot falls. */
  function At(s: Slot): Timestamp
  {
    Timestamp(s.date, s.time * 60, 0)
  }

  /** `LocalDateTime.isBefore`: strictly earlier. */
  predicate Before(a: Timestamp, b: Timestamp)
  {
    a.day < b.day || (a.day == b.day && (a.second < b.second || (a.second == b.second && a.nano < b.nano)))
  }

  /** The slot order agrees with the order of the instants the slots fall at. */
  lemma SlotOrderIsTimeOrder(a: Slot, b: Slot)
    ensures SlotLe(a, b) <==> !Before(At(b), At(a))
  {
  }

  /** Dropping the sub-second part, as formatting with `ss` and parsing back does. */
  function Truncated(t: Timestamp): Timestamp
  {
    t.(nano := 0)
  }

  // ---------------------------------------------------------------------------
  // Text forms

  /** Text made only of digits, spaces and colons: never holds a comma, a
      semicolon or a letter. */
  predicate NumericText(s: string)
  {
    forall i | 0 <= i < |s| :: IsDigit(s[i]) || s[i] == ' ' || s[i] == ':'
  }

  function TwoDigits(n: int): (r: string)
    requires 0 <= n < 100
    ensures |r| == 2 && AllDigits(r)
  {
    [DigitChar(n / 10), DigitChar(n % 10)]
  }

  function ParseTwoDigits(s: string): Option<int>
  {
    if |s| == 2 && IsDigit(s[0]) && IsDigit(s[1])
    then Some(DigitValue(s[0]) * 10 + DigitValue(s[1]))
    else None
  }

  lemma TwoDigitsRoundTrip(n: int)
    requires 0 <= n < 100
    ensures ParseTwoDigits(TwoDigits(n)) == Some(n)
  {
  }

  /** `LocalTime.toString()` of a whole-minute time: `HH:mm`. */
  function TimeText(m: Minute): (r: string)
    ensures |r| == 5 && NumericText(r) && Trimmed(r)
  {
    TwoDigits(m / 60) + ":" + TwoDigits(m % 60)
  }

  /** `LocalTime.parse` of an `HH:mm` text; None stands for DateTimeParseException. */
  function ParseTime(s: string): Option<Minute>
  {
    if |s| == 5 && s[2] == ':' then
      match (ParseTwoDigits(s[..2]), ParseTwoDigits(s[3..]))
      case (Some(h), Some(m)) => if h < 24 && m < 60 then Some(h * 60 + m) else None
      case _ => None
    else None
  }

  lemma TimeTextRoundTrip(m: Minute)
    ensures ParseTime(TimeText(m)) == Some(m)
  {
    var s := TimeText(m);
    assert s[..2] == TwoDigits(m / 60);
    assert s[3..] == TwoDigits(m % 60);
    TwoDigitsRoundTrip(m / 60);
    TwoDigitsRoundTrip(m % 60);
  }

  /** The `HH:mm:ss` part of a history timestamp. */
  function ClockText(s: SecondOfDay): (r: string)
    ensures |r| == 8 && NumericText(r) && Trimmed(r)
  {
    TwoDigits(s / 3600) + ":" + TwoDigits(s / 60 % 60) + ":" + TwoDigits(s % 60)
  }

  function ParseClock(s: string): Option<SecondOfDay>
  {
    if |s| == 8 && s[2] == ':' && s[5] == ':' then
      match (ParseTwoDigits(s[..2]), ParseTwoDigits(s[3..5]), ParseTwoDigits(s[6..]))
      case (Some(h), Some(m), Some(x)) =>
        if h < 24 && m < 60 && x < 60 then Some(h * 3600 + m * 60 + x) else None
      case _ => None
    else None
  }

  lemma ClockTextRoundTrip(s: SecondOfDay)
    ensures ParseClock(ClockText(s)) == Some(s)
  {
    var t := ClockText(s);
    var h, m, x := s / 3600, s / 60 % 60, s % 60;
    assert t[..2] == TwoDigits(h);
    assert t[3..5] == TwoDigits(m);
    assert t[6..] == TwoDigits(x);
    TwoDigitsRoundTrip(h);
    TwoDigitsRoundTrip(m);
    TwoDigitsRoundTrip(x);
    assert s / 60 == h * 60 + m;
    assert s == (s / 60) * 60 + x;
  }

  /** The date part of every text form (the day number in decimal). */
  function DateText(d: Day): (r: string)
    ensures |r| > 0 && AllDigits(r)
  {
    NatText(d)
  }

  function ParseDate(s: string): Option<Day>
  {
    ParseNat(s)
  }

  lemma DateTextRoundTrip(d: Day)
    ensures ParseDate(DateText(d)) == Some(d)
  {
    NatTextRoundTrip(d);
  }

  /** The `yyyy-MM-dd HH:mm` text of a slot, as written into due messages. */
  function SlotText(s: Slot): (r: string)
    ensures NumericText(r) && Trimmed(r)
  {
    DateText(s.date) + " " + TimeText(s.time)
  }

  /** `LocalDateTime.parse(text, "yyyy-MM-dd HH:mm")`. */
  function ParseSlot(s: string): Option<Slot>
  {
    if |s| >= 7 && s[|s| - 6] == ' ' then
      match (ParseDate(s[..|s| - 6]), ParseTime(s[|s| - 5..]))
      case (Some(d), Some(t)) => Some(Slot(d, t))
      case _ => None
    else None
  }

  lemma SlotTextRoundTrip(s: Slot)
    ensures ParseSlot(SlotText(s)) == Some(s)
  {
    var t := SlotText(s);
    var d := DateText(s.date);
    assert t[..|t| - 6] == d;
    assert t[|t| - 5..] == TimeText(s.time);
    DateTextRoundTrip(s.date);
    TimeTextRoundTrip(s.time);
  }

  /** The `yyyy-MM-dd HH:mm:ss` text of a history timestamp. */
  function StampText(t: Timestamp): (r: string)
    ensures NumericText(r) && Trimmed(r) && |r| > 0
  {
    DateText(t.day) + " " + ClockText(t.second)
  }

  /** `LocalDateTime.parse(text, "yyyy-MM-dd HH:mm:ss")`: no sub-second part. */
  function ParseStamp(s: string): Option<Timestamp>
  {
    if |s| >= 10 && s[|s| - 9] == ' ' then
      match (ParseDate(s[..|s| - 9]), ParseClock(s[|s| - 8..]))
      case (Some(d), Some(x)) => Some(Timestamp(d, x, 0))
      case _ => None
    else None
  }

  /** Writing a timestamp and reading it back loses exactly its sub-second part. */
  lemma StampTextRoundTrip(t: Timestamp)
    ensures ParseStamp(StampText(t)) == Some(Truncated(t))
  {
    var s := StampText(t);
    assert s[..|s| - 9] == DateText(t.day);
    assert s[|s| - 8..] == ClockText(t.second);
    DateTextRoundTrip(t.day);
    ClockTextRoundTrip(t.second);
  }
}
