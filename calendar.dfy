/**
  Instants and their rendering as `YYYY-MM-DDTHH:MM:SSZ` (section 5.6 of RFC 3339).

  An instant is a whole number of minutes since 1970-01-01T00:00Z; the
  calendar is the proleptic Gregorian one. Rendering is proved injective by
  parsing the rendered text back to the instant it came from.
 */
module Calendar {
  import opened Results

  /** Minutes since 1970-01-01T00:00Z (negative before). */
  type Instant = int

  const MinutesPerDay := 1440

  predicate IsLeapYear(y: int) {
    y % 4 == 0 && (y % 100 != 0 || y % 400 == 0)
  }

  function YearLength(y: int): nat {
    if IsLeapYear(y) then 366 else 365
  }

  /** Days from 0001-01-01 to the first day of year `y`. */
  function DaysBeforeYear(y: int): int
    requires y >= 1
  {
    var p := y - 1;
    365 * p + p / 4 - p / 100 + p / 400
  }

  /** Day number (days since 0001-01-01) of 1970-01-01. */
  const EpochDay := DaysBeforeYear(1970)

  /** First and one-past-last instants whose year has four digits. */
  const MinInstant := (DaysBeforeYear(1000) - EpochDay) * MinutesPerDay
  const EndInstant := (DaysBeforeYear(10000) - EpochDay) * MinutesPerDay

  predicate ValidInstant(t: Instant) {
    MinInstant <= t < EndInstant
  }

  lemma NextYear(y: int)
    requires y >= 1
    ensures DaysBeforeYear(y + 1) == DaysBeforeYear(y) + YearLength(y)
  {
    var p := y - 1;
    assert (p + 1) / 4 == p / 4 + (if y % 4 == 0 then 1 else 0);
    assert (p + 1) / 100 == p / 100 + (if y % 100 == 0 then 1 else 0);
    assert (p + 1) / 400 == p / 400 + (if y % 400 == 0 then 1 else 0);
  }

  lemma {:induction false} YearsIncrease(a: int, b: int)
    requires 1 <= a < b
    ensures DaysBeforeYear(a) < DaysBeforeYear(b)
    decreases b - a
  {
    NextYear(a);
    if a + 1 < b {
      YearsIncrease(a + 1, b);
    }
  }

  /** The year, at or after `y`, that contains day number `n`. */
  function YearOf(n: int, y: int): (r: int)
    requires y >= 1 && DaysBeforeYear(y) <= n
    ensures r >= y && DaysBeforeYear(r) <= n < DaysBeforeYear(r + 1)
    decreases n - DaysBeforeYear(y)
  {
    NextYear(y);
    if n < DaysBeforeYear(y + 1) then y else YearOf(n, y + 1)
  }

  function MonthLength(y: int, m: int): nat
    requires 1 <= m <= 12
  {
    [31, if IsLeapYear(y) then 29 else 28, 31, 30, 31, 30, 31, 31, 30, 31, 30, 31][m - 1]
  }

  /** Days of year `y` that precede the first day of month `m`. */
  function DaysBeforeMonth(y: int, m: int): nat
    requires 1 <= m <= 12
  {
    [0, 31, 59, 90, 120, 151, 181, 212, 243, 273, 304, 334][m - 1]
    + (if m > 2 && IsLeapYear(y) then 1 else 0)
  }

  /** The month, at or before `m`, that contains day `doy` (counted from 0) of year `y`. */
  function MonthOf(y: int, doy: int, m: int): (r: int)
    requires 0 <= doy && 1 <= m <= 12
    requires m < 12 ==> doy < DaysBeforeMonth(y, m + 1)
    requires m == 12 ==> doy < YearLength(y)
    ensures 1 <= r <= m
    ensures DaysBeforeMonth(y, r) <= doy < DaysBeforeMonth(y, r) + MonthLength(y, r)
  {
    if m == 1 || DaysBeforeMonth(y, m) <= doy then m else MonthOf(y, doy, m - 1)
  }

  /** A civil date and time of day, to the minute. */
  datatype DateTime = DateTime(year: int, month: int, day: int, hour: int, minute: int)

  /** The instant a civil date and time denotes. */
  function InstantOf(dt: DateTime): Instant
    requires dt.year >= 1 && 1 <= dt.month <= 12
  {
    (DaysBeforeYear(dt.year) + DaysBeforeMonth(dt.year, dt.month) + dt.day - 1 - EpochDay) * MinutesPerDay
    + dt.hour * 60 + dt.minute
  }

  /** The civil date and time of an instant, a genuine calendar date that denotes it. */
  function ToDateTime(t: Instant): (dt: DateTime)
    requires ValidInstant(t)
    ensures 1000 <= dt.year <= 9999 && 1 <= dt.month <= 12
    ensures 1 <= dt.day <= MonthLength(dt.year, dt.month)
    ensures 0 <= dt.hour < 24 && 0 <= dt.minute < 60
    ensures InstantOf(dt) == t
  {
    var n := t / MinutesPerDay + EpochDay;
    assert DaysBeforeYear(1) <= DaysBeforeYear(1000) <= n < DaysBeforeYear(10000) by {
      YearsIncrease(1, 1000);
    }
    var y := YearOf(n, 1);
    assert 1000 <= y <= 9999 by {
      if y < 1000 { if y + 1 < 1000 { YearsIncrease(y + 1, 1000); } }
      if y > 9999 { if 10000 < y { YearsIncrease(10000, y); } }
    }
    NextYear(y);
    var doy := n - DaysBeforeYear(y);
    var m := MonthOf(y, doy, 12);
    var rest := t % MinutesPerDay;
    DateTime(y, m, doy - DaysBeforeMonth(y, m) + 1, rest / 60, rest % 60)
  }

  function Pow10(w: nat): nat {
    if w == 0 then 1 else 10 * Pow10(w - 1)
  }

  predicate IsDigit(c: char) {
    '0' <= c <= '9'
  }

  predicate AllDigits(s: string) {
    forall i :: 0 <= i < |s| ==> IsDigit(s[i])
  }

  /** `n` written in decimal with exactly `w` digits, padded with leading zeros. */
  function Digits(n: nat, w: nat): (s: string)
    requires n < Pow10(w)
    ensures |s| == w && AllDigits(s)
  {
    if w == 0 then "" else Digits(n / 10, w - 1) + [('0' as int + n % 10) as char]
  }

  /** The number a string of decimal digits denotes. */
  function DigitsValue(s: string): nat
    requires AllDigits(s)
  {
    if s == [] then 0 else 10 * DigitsValue(s[..|s| - 1]) + (s[|s| - 1] as int - '0' as int)
  }

  lemma {:induction false} DigitsRoundTrip(n: nat, w: nat)
    requires n < Pow10(w)
    ensures DigitsValue(Digits(n, w)) == n
  {
    if w > 0 {
      var s := Digits(n, w);
      assert s[..|s| - 1] == Digits(n / 10, w - 1);
      DigitsRoundTrip(n / 10, w - 1);
    }
  }

  /** Fields small enough to be written with 4, 2, 2, 2 and 2 digits. */
  predicate Printable(dt: DateTime) {
    0 <= dt.year < 10000 && 0 <= dt.month < 100 && 0 <= dt.day < 100 && 0 <= dt.hour < 100 && 0 <= dt.minute < 100
  }

  /** `dt` laid out as `YYYY-MM-DDTHH:MM:00Z`. */
  function FormatDateTime(dt: DateTime): (s: string)
    requires Printable(dt)
    ensures |s| == 20
    ensures s[4] == '-' && s[7] == '-' && s[10] == 'T' && s[13] == ':' && s[16] == ':' && s[19] == 'Z'
    ensures s[17..19] == "00"
  {
    Digits(dt.year, 4) + "-" + Digits(dt.month, 2) + "-" + Digits(dt.day, 2) + "T"
    + Digits(dt.hour, 2) + ":" + Digits(dt.minute, 2) + ":00Z"
  }

  /** Reads the fields back from a `YYYY-MM-DDTHH:MM:00Z` text. */
  function ParseDateTime(s: string): Option<DateTime> {
    if |s| == 20 && s[4] == '-' && s[7] == '-' && s[10] == 'T' && s[13] == ':' && s[16] == ':'
       && s[17..19] == "00" && s[19] == 'Z'
       && AllDigits(s[0..4]) && AllDigits(s[5..7]) && AllDigits(s[8..10])
       && AllDigits(s[11..13]) && AllDigits(s[14..16])
    then Some(DateTime(DigitsValue(s[0..4]), DigitsValue(s[5..7]), DigitsValue(s[8..10]),
                       DigitsValue(s[11..13]), DigitsValue(s[14..16])))
    else None
  }

  lemma DateTimeRoundTrip(dt: DateTime)
    requires Printable(dt)
    ensures ParseDateTime(FormatDateTime(dt)) == Some(dt)
  {
    var s := FormatDateTime(dt);
    assert s[0..4] == Digits(dt.year, 4);
    assert s[5..7] == Digits(dt.month, 2);
    assert s[8..10] == Digits(dt.day, 2);
    assert s[11..13] == Digits(dt.hour, 2);
    assert s[14..16] == Digits(dt.minute, 2);
    DigitsRoundTrip(dt.year, 4);
    DigitsRoundTrip(dt.month, 2);
    DigitsRoundTrip(dt.day, 2);
    DigitsRoundTrip(dt.hour, 2);
    DigitsRoundTrip(dt.minute, 2);
  }

  /** The text the output file carries for instant `t` (pandas date_format '%Y-%m-%dT%H:%M:%SZ'). */
  function FormatInstant(t: Instant): (s: string)
    requires ValidInstant(t)
    ensures |s| == 20
  {
    FormatDateTime(ToDateTime(t))
  }

  /**
    Reads back an instant from its `YYYY-MM-DDTHH:MM:00Z` text; only a real
    calendar date and time of day is accepted, so each instant has one text.
   */
  function ParseInstant(s: string): Option<Instant> {
    match ParseDateTime(s)
    case None => None
    case Some(dt) =>
      if dt.year >= 1 && 1 <= dt.month <= 12 && 1 <= dt.day <= MonthLength(dt.year, dt.month)
         && dt.hour < 24 && dt.minute < 60
      then Some(InstantOf(dt))
      else None
  }

  /** A laid-out text whose time of day is past 23:59 is not read as any instant. */
  lemma TimeOutOfRangeRejected(dt: DateTime)
    requires Printable(dt) && (dt.hour >= 24 || dt.minute >= 60)
    ensures ParseInstant(FormatDateTime(dt)) == None
  {
    DateTimeRoundTrip(dt);
  }

  /** Hour 24 of 1970-01-01 is not read as midnight of the next day. */
  lemma HourTwentyFourRejected()
    ensures ParseInstant("1970-01-01T24:00:00Z") == None
  {
    var dt := DateTime(1970, 1, 1, 24, 0);
    EpochDigits();
    assert Digits(24, 2) == "24";
    assert FormatDateTime(dt) == "1970-01-01T24:00:00Z";
    TimeOutOfRangeRejected(dt);
  }

  /** Parsing the rendered text gives back the instant. */
  lemma FormatRoundTrip(t: Instant)
    requires ValidInstant(t)
    ensures ParseDateTime(FormatInstant(t)) == Some(ToDateTime(t))
    ensures ParseInstant(FormatInstant(t)) == Some(t)
  {
    DateTimeRoundTrip(ToDateTime(t));
  }

  /** Distinct instants are rendered as distinct texts. */
  lemma FormatInjective(t: Instant, u: Instant)
    requires ValidInstant(t) && ValidInstant(u) && t != u
    ensures FormatInstant(t) != FormatInstant(u)
  {
    FormatRoundTrip(t);
    FormatRoundTrip(u);
  }

  /** Instant 0 is midnight at the start of 1970-01-01. */
  lemma EpochDateTime()
    ensures ValidInstant(0) && ToDateTime(0) == DateTime(1970, 1, 1, 0, 0)
  {
    var y := YearOf(EpochDay, 1);
    if y < 1970 {
      if y + 1 < 1970 { YearsIncrease(y + 1, 1970); }
    } else if y > 1970 {
      YearsIncrease(1970, y);
    }
  }

  /** Instant 0 is rendered as 1970-01-01T00:00:00Z. */
  lemma EpochText()
    ensures ValidInstant(0) && FormatInstant(0) == "1970-01-01T00:00:00Z"
  {
    EpochDateTime();
    EpochDigits();
    assert FormatDateTime(DateTime(1970, 1, 1, 0, 0)) == "1970" + "-" + "01" + "-" + "01" + "T" + "00" + ":" + "00" + ":00Z";
  }

  lemma EpochDigits()
    ensures Digits(1970, 4) == "1970" && Digits(1, 2) == "01" && Digits(0, 2) == "00"
  {
    assert Digits(1, 1) == "1" && Digits(19, 2) == "19" && Digits(197, 3) == "197";
  }
}
