/** Calendar dates as `pd.to_datetime` reads them: the ISO 8601 text forms
    `YYYY-MM-DD`, `YYYY-MM-DD HH:MM:SS` and `YYYY-MM-DDTHH:MM:SS`, turned
    into nanoseconds since 1970-01-01 00:00:00 on the proleptic Gregorian
    calendar, as a `datetime64[ns]` value counts them. */
module Dates {
  import opened Outcomes
  import Text

  /** A time stamp without time zone, to the second. */
  datatype DateTime = DateTime(year: nat, month: nat, day: nat, hour: nat, minute: nat, second: nat)

  predicate Leap(y: int) {
    (y % 4 == 0 && y % 100 != 0) || y % 400 == 0
  }

  function YearLength(y: int): nat {
    if Leap(y) then 366 else 365
  }

  function MonthLength(y: int, m: nat): (n: nat)
    requires 1 <= m <= 12
    ensures 28 <= n <= 31
  {
    if m == 2 then (if Leap(y) then 29 else 28)
    else if m == 4 || m == 6 || m == 9 || m == 11 then 30
    else 31
  }

  /** The fields are in range: years 1 to 9999, as `datetime` allows. */
  predicate Valid(d: DateTime) {
    1 <= d.year <= 9999 && 1 <= d.month <= 12 && 1 <= d.day <= MonthLength(d.year, d.month) &&
    d.hour < 24 && d.minute < 60 && d.second < 60
  }

  /** Days of year `y` before the first of month `m`; `m == 13` gives the whole year. */
  function DaysBeforeMonth(y: int, m: nat): nat
    requires 1 <= m <= 13
  {
    if m == 1 then 0 else DaysBeforeMonth(y, m - 1) + MonthLength(y, m - 1)
  }

  /** Days from 1 January of year 1 to 1 January of year `y`. */
  function DaysBeforeYear(y: nat): int
    requires y >= 1
  {
    var p := y - 1;
    365 * p + p / 4 - p / 100 + p / 400
  }

  /** Days from 1 January of year 1 to 1 January 1970. */
  const EpochDays: int := 719162

  /** Days since 1970-01-01. */
  function DayNumber(d: DateTime): int
    requires Valid(d)
  {
    DaysBeforeYear(d.year) + DaysBeforeMonth(d.year, d.month) + d.day - 1 - EpochDays
  }

  function EpochSeconds(d: DateTime): int
    requires Valid(d)
  {
    ((DayNumber(d) * 24 + d.hour) * 60 + d.minute) * 60 + d.second
  }

  const NanosPerSecond: nat := 1000000000

  /** The `datetime64[ns]` value of `d`. */
  function EpochNanos(d: DateTime): int
    requires Valid(d)
  {
    EpochSeconds(d) * NanosPerSecond
  }

  /** The largest `datetime64[ns]` magnitude; the most negative int64 is `NaT`. */
  const MaxNanos: int := 0x7fff_ffff_ffff_ffff

  predicate InNanosRange(t: int) {
    -MaxNanos <= t <= MaxNanos
  }

  lemma EpochDaysValue()
    ensures DaysBeforeYear(1970) == EpochDays
  {
  }

  lemma EpochStart()
    ensures EpochNanos(DateTime(1970, 1, 1, 0, 0, 0)) == 0
  {
  }

  // ---------------------------------------------------------------------
  // Order

  /** `a` comes strictly before `b`, field by field from the year down. */
  predicate Earlier(a: DateTime, b: DateTime) {
    a.year < b.year ||
    (a.year == b.year && (a.month < b.month ||
    (a.month == b.month && (a.day < b.day ||
    (a.day == b.day && (a.hour < b.hour ||
    (a.hour == b.hour && (a.minute < b.minute ||
    (a.minute == b.minute && a.second < b.second)))))))))
  }

  lemma YearStep(y: nat)
    requires y >= 1
    ensures DaysBeforeYear(y + 1) == DaysBeforeYear(y) + YearLength(y)
  {
    var p := y - 1;
    assert y / 4 == p / 4 + (if y % 4 == 0 then 1 else 0);
    assert y / 100 == p / 100 + (if y % 100 == 0 then 1 else 0);
    assert y / 400 == p / 400 + (if y % 400 == 0 then 1 else 0);
  }

  /** A later year starts at least one whole year after an earlier one. */
  lemma {:induction false} YearsApart(a: nat, b: nat)
    requires 1 <= a < b
    ensures DaysBeforeYear(a) + YearLength(a) <= DaysBeforeYear(b)
    decreases b - a
  {
    YearStep(a);
    if a + 1 < b {
      YearsApart(a + 1, b);
    }
  }

  lemma {:induction false} MonthsApart(y: int, m1: nat, m2: nat)
    requires 1 <= m1 <= m2 <= 13
    ensures DaysBeforeMonth(y, m1) <= DaysBeforeMonth(y, m2)
    decreases m2 - m1
  {
    if m1 < m2 {
      MonthsApart(y, m1, m2 - 1);
    }
  }

  lemma WholeYear(y: int)
    ensures DaysBeforeMonth(y, 13) == YearLength(y)
  {
    var feb := if Leap(y) then 29 else 28;
    assert DaysBeforeMonth(y, 2) == 31;
    assert DaysBeforeMonth(y, 3) == 31 + feb;
    assert DaysBeforeMonth(y, 4) == 62 + feb;
    assert DaysBeforeMonth(y, 5) == 92 + feb;
    assert DaysBeforeMonth(y, 6) == 123 + feb;
    assert DaysBeforeMonth(y, 7) == 153 + feb;
    assert DaysBeforeMonth(y, 8) == 184 + feb;
    assert DaysBeforeMonth(y, 9) == 215 + feb;
    assert DaysBeforeMonth(y, 10) == 245 + feb;
    assert DaysBeforeMonth(y, 11) == 276 + feb;
    assert DaysBeforeMonth(y, 12) == 306 + feb;
    assert DaysBeforeMonth(y, 13) == 337 + feb;
  }

  /** The day of the year, counted from 0, is less than the length of the year. */
  lemma DayOfYearBound(d: DateTime)
    requires Valid(d)
    ensures DaysBeforeMonth(d.year, d.month) + d.day - 1 < DaysBeforeMonth(d.year, d.month + 1)
    ensures DaysBeforeMonth(d.year, d.month + 1) <= YearLength(d.year)
  {
    MonthsApart(d.year, d.month + 1, 13);
    WholeYear(d.year);
  }

  lemma EarlierDay(a: DateTime, b: DateTime)
    requires Valid(a) && Valid(b)
    requires a.year < b.year || (a.year == b.year && a.month < b.month) ||
             (a.year == b.year && a.month == b.month && a.day < b.day)
    ensures DayNumber(a) < DayNumber(b)
  {
    DayOfYearBound(a);
    if a.year < b.year {
      YearsApart(a.year, b.year);
    } else if a.month < b.month {
      MonthsApart(a.year, a.month + 1, b.month);
    }
  }

  /** Later dates have larger stamps, so sorting by stamp sorts by date. */
  lemma EarlierNanos(a: DateTime, b: DateTime)
    requires Valid(a) && Valid(b) && Earlier(a, b)
    ensures EpochNanos(a) < EpochNanos(b)
  {
    if a.year < b.year || (a.year == b.year && a.month < b.month) ||
       (a.year == b.year && a.month == b.month && a.day < b.day) {
      EarlierDay(a, b);
    }
    assert EpochSeconds(a) < EpochSeconds(b);
  }

  /** Distinct dates have distinct stamps. */
  lemma NanosInjective(a: DateTime, b: DateTime)
    requires Valid(a) && Valid(b) && EpochNanos(a) == EpochNanos(b)
    ensures a == b
  {
    if Earlier(a, b) {
      EarlierNanos(a, b);
    } else if Earlier(b, a) {
      EarlierNanos(b, a);
    }
  }

  // ---------------------------------------------------------------------
  // Text

  /** The `n` digits at `s[i..i + n]`, if they are digits. */
  function FieldAt(s: string, i: nat, n: nat): (r: Option<nat>)
    ensures r.Some? <==> i + n <= |s| && Text.AllDigits(s[i..i + n])
    ensures r.Some? ==> r.value == Text.DigitsValue(s[i..i + n])
  {
    if i + n <= |s| && Text.AllDigits(s[i..i + n]) then Some(Text.DigitsValue(s[i..i + n])) else None
  }

  /** The text has the fixed layout of one of the three forms. */
  predicate IsoLayout(s: string) {
    (|s| == 10 || (|s| == 19 && (s[10] == ' ' || s[10] == 'T') && s[13] == ':' && s[16] == ':')) &&
    s[4] == '-' && s[7] == '-'
  }

  /** `YYYY-MM-DD`, `YYYY-MM-DD HH:MM:SS` or `YYYY-MM-DDTHH:MM:SS` with
      every field in range; a date alone is midnight. */
  function ParseIso(s: string): (r: Option<DateTime>)
    ensures r.Some? ==> Valid(r.value) && IsoLayout(s)
  {
    if !IsoLayout(s) then None
    else
      var y := FieldAt(s, 0, 4);
      var mo := FieldAt(s, 5, 2);
      var d := FieldAt(s, 8, 2);
      var h := if |s| == 19 then FieldAt(s, 11, 2) else Some(0);
      var mi := if |s| == 19 then FieldAt(s, 14, 2) else Some(0);
      var se := if |s| == 19 then FieldAt(s, 17, 2) else Some(0);
      if y.None? || mo.None? || d.None? || h.None? || mi.None? || se.None? then None
      else
        var t := DateTime(y.value, mo.value, d.value, h.value, mi.value, se.value);
        if Valid(t) then Some(t) else None
  }

  /** `str(Timestamp)` for a whole-second stamp: `YYYY-MM-DD HH:MM:SS`. */
  function FormatIso(d: DateTime): (s: string)
    requires Valid(d)
    ensures |s| == 19
  {
    Text.Pad4(d.year) + "-" + Text.Pad2(d.month) + "-" + Text.Pad2(d.day) + " " +
    Text.Pad2(d.hour) + ":" + Text.Pad2(d.minute) + ":" + Text.Pad2(d.second)
  }

  /** The date part `YYYY-MM-DD`. */
  function FormatIsoDate(d: DateTime): (s: string)
    requires Valid(d)
    ensures |s| == 10
  {
    Text.Pad4(d.year) + "-" + Text.Pad2(d.month) + "-" + Text.Pad2(d.day)
  }

  lemma DateFields(d: DateTime, s: string)
    requires Valid(d) && |s| >= 10 && s[..10] == FormatIsoDate(d)
    ensures s[4] == '-' && s[7] == '-'
    ensures FieldAt(s, 0, 4) == Some(d.year)
    ensures FieldAt(s, 5, 2) == Some(d.month)
    ensures FieldAt(s, 8, 2) == Some(d.day)
  {
    var t := FormatIsoDate(d);
    assert s[0..4] == t[0..4] == Text.Pad4(d.year);
    assert s[5..7] == t[5..7] == Text.Pad2(d.month);
    assert s[8..10] == t[8..10] == Text.Pad2(d.day);
  }

  lemma FormatIsoSplit(d: DateTime)
    requires Valid(d)
    ensures FormatIso(d)[..10] == FormatIsoDate(d)
    ensures FormatIso(d)[10] == ' ' && FormatIso(d)[13] == ':' && FormatIso(d)[16] == ':'
    ensures FormatIso(d)[11..13] == Text.Pad2(d.hour)
    ensures FormatIso(d)[14..16] == Text.Pad2(d.minute)
    ensures FormatIso(d)[17..19] == Text.Pad2(d.second)
  {
    TimeParts(FormatIsoDate(d), Text.Pad2(d.hour), Text.Pad2(d.minute), Text.Pad2(d.second));
  }

  /** Where the parts of `YYYY-MM-DD HH:MM:SS` sit in the text. */
  lemma TimeParts(date: string, h: string, m: string, sec: string)
    requires |date| == 10 && |h| == 2 && |m| == 2 && |sec| == 2
    ensures var s := date + " " + h + ":" + m + ":" + sec;
      s[..10] == date && s[10] == ' ' && s[11..13] == h && s[13] == ':' && s[14..16] == m &&
      s[16] == ':' && s[17..19] == sec
  {
  }

  /** Reading back the text of a stamp gives the stamp. */
  lemma ParseFormatIso(d: DateTime)
    requires Valid(d)
    ensures ParseIso(FormatIso(d)) == Some(d)
  {
    var s := FormatIso(d);
    FormatIsoSplit(d);
    DateFields(d, s);
  }

  /** Reading back the date alone gives midnight of that date. */
  lemma ParseFormatIsoDate(d: DateTime)
    requires Valid(d)
    ensures ParseIso(FormatIsoDate(d)) == Some(DateTime(d.year, d.month, d.day, 0, 0, 0))
  {
    var s := FormatIsoDate(d);
    assert s[..10] == s;
    DateFields(d, s);
  }
}
