/** Instants as whole seconds since 1970-01-01T00:00:00Z, and the proleptic Gregorian calendar
    fields behind the textual forms the source reads and writes: the basic ISO 8601 form
    `YYYYMMDDTHHMMSSZ`, the date-time form of section 5.6 of RFC 3339 and the plain
    `YYYY-MM-DD` full-date. Years are those with four digits, 0000 to 9999. */
module Calendar {
  import opened Wrappers
  import opened Strings

  datatype DateTime = DateTime(year: int, month: int, day: int, hour: int, minute: int, second: int)

  predicate IsLeap(y: int) {
    y % 4 == 0 && (y % 100 != 0 || y % 400 == 0)
  }

  /** Days of the year before the first of month `m` (1 to 13) in a common year. */
  const CUMULATIVE: seq<int> := [0, 31, 59, 90, 120, 151, 181, 212, 243, 273, 304, 334, 365]

  function DaysBeforeMonth(y: int, m: int): int
    requires 1 <= m <= 13
  {
    CUMULATIVE[m - 1] + (if m > 2 && IsLeap(y) then 1 else 0)
  }

  function DaysInMonth(y: int, m: int): int
    requires 1 <= m <= 12
  {
    DaysBeforeMonth(y, m + 1) - DaysBeforeMonth(y, m)
  }

  function DaysInYear(y: int): int {
    if IsLeap(y) then 366 else 365
  }

  /** Number of leap years in the years 0 to y - 1. */
  function LeapsBefore(y: nat): int {
    (y + 3) / 4 - (y + 99) / 100 + (y + 399) / 400
  }

  /** Day number of January 1 of year y, counting 0000-01-01 as day 0. */
  function YearStart(y: nat): int {
    365 * y + LeapsBefore(y)
  }

  /** Day number of 1970-01-01. */
  const EPOCH_DAY: int := 719528
  const SECONDS_PER_DAY: int := 86400
  /** 0000-01-01T00:00:00Z and 9999-12-31T23:59:59Z. */
  const MIN_INSTANT: int := -62167219200
  const MAX_INSTANT: int := 253402300799

  predicate ValidDate(y: int, m: int, d: int) {
    0 <= y <= 9999 && 1 <= m <= 12 && 1 <= d <= DaysInMonth(y, m)
  }

  predicate Valid(dt: DateTime) {
    ValidDate(dt.year, dt.month, dt.day) && 0 <= dt.hour < 24 && 0 <= dt.minute < 60 && 0 <= dt.second < 60
  }

  /** Seconds since the Unix epoch of a UTC date and time. */
  function ToEpoch(dt: DateTime): int
    requires Valid(dt)
  {
    (YearStart(dt.year) + DaysBeforeMonth(dt.year, dt.month) + dt.day - 1 - EPOCH_DAY) * SECONDS_PER_DAY
    + dt.hour * 3600 + dt.minute * 60 + dt.second
  }

  lemma LeapStep(y: nat)
    ensures LeapsBefore(y + 1) == LeapsBefore(y) + (if IsLeap(y) then 1 else 0)
  {
    Step4(y);
    Step100(y);
    Step400(y);
    LeapDivisors(y);
  }

  lemma LeapDivisors(y: nat)
    ensures y % 100 == 0 ==> y % 4 == 0
    ensures y % 400 == 0 ==> y % 100 == 0
  {
    if y % 100 == 0 {
      var k := y / 100;
      assert y == 4 * (25 * k);
    }
    if y % 400 == 0 {
      var k := y / 400;
      assert y == 100 * (4 * k);
    }
  }

  lemma Step4(y: nat)
    ensures (y + 4) / 4 - (y + 3) / 4 == (if y % 4 == 0 then 1 else 0)
  {
    var q, r := y / 4, y % 4;
    assert y == 4 * q + r;
    assert (y + 4) / 4 == q + 1;
    assert (y + 3) / 4 == q + (if r == 0 then 0 else 1);
  }

  lemma Step100(y: nat)
    ensures (y + 100) / 100 - (y + 99) / 100 == (if y % 100 == 0 then 1 else 0)
  {
    var q, r := y / 100, y % 100;
    assert y == 100 * q + r;
    assert (y + 100) / 100 == q + 1;
    assert (y + 99) / 100 == q + (if r == 0 then 0 else 1);
  }

  lemma Step400(y: nat)
    ensures (y + 400) / 400 - (y + 399) / 400 == (if y % 400 == 0 then 1 else 0)
  {
    var q, r := y / 400, y % 400;
    assert y == 400 * q + r;
    assert (y + 400) / 400 == q + 1;
    assert (y + 399) / 400 == q + (if r == 0 then 0 else 1);
  }

  lemma {:induction false} LeapsBounded(y: nat)
    ensures 0 <= LeapsBefore(y) <= y
  {
    if y > 0 {
      LeapsBounded(y - 1);
      LeapStep(y - 1);
    }
  }

  lemma YearLength(y: nat)
    ensures YearStart(y + 1) == YearStart(y) + DaysInYear(y)
  {
    LeapStep(y);
  }

  /** The year containing day number n, searched upwards from a year that starts no later. */
  function YearFrom(n: int, y: nat): (r: nat)
    requires YearStart(y) <= n
    ensures y <= r && YearStart(r) <= n < YearStart(r + 1)
    decreases n - YearStart(y)
  {
    YearLength(y);
    if n < YearStart(y + 1) then y else YearFrom(n, y + 1)
  }

  /** The month containing day `doy` (counted from 0) of year y, searched upwards from m. */
  function MonthFrom(y: int, doy: int, m: int): (r: int)
    requires 1 <= m <= 12 && DaysBeforeMonth(y, m) <= doy < DaysInYear(y)
    ensures m <= r <= 12 && DaysBeforeMonth(y, r) <= doy < DaysBeforeMonth(y, r + 1)
    decreases 12 - m
  {
    if m == 12 || doy < DaysBeforeMonth(y, m + 1) then m else MonthFrom(y, doy, m + 1)
  }

  /** The calendar date of day number n (counted from 0000-01-01). */
  function CivilFromDays(n: int): (r: (int, int, int))
    requires 0 <= n < YearStart(10000)
    ensures ValidDate(r.0, r.1, r.2)
    ensures YearStart(r.0) + DaysBeforeMonth(r.0, r.1) + r.2 - 1 == n
  {
    LeapsBounded(n / 366);
    var y := YearFrom(n, n / 366);
    assert y <= 9999 by {
      if y >= 10000 {
        YearStartMonotone(10000, y);
      }
    }
    YearLength(y);
    var doy := n - YearStart(y);
    var m := MonthFrom(y, doy, 1);
    (y, m, doy - DaysBeforeMonth(y, m) + 1)
  }

  lemma SplitSeconds(t: int)
    ensures (t / SECONDS_PER_DAY) * SECONDS_PER_DAY + t % SECONDS_PER_DAY == t
    ensures 0 <= t % SECONDS_PER_DAY < SECONDS_PER_DAY
    ensures var secs := t % SECONDS_PER_DAY;
      secs / 3600 < 24 && secs / 3600 * 3600 + secs % 3600 / 60 * 60 + secs % 60 == secs
  {
  }

  /** The UTC calendar fields of an instant with a four-digit year. */
  function FromEpoch(t: int): (dt: DateTime)
    requires MIN_INSTANT <= t <= MAX_INSTANT
    ensures Valid(dt) && ToEpoch(dt) == t
  {
    SplitSeconds(t);
    assert YearStart(10000) == 3652425;
    var n := t / SECONDS_PER_DAY + EPOCH_DAY;
    var secs := t % SECONDS_PER_DAY;
    var (y, m, d) := CivilFromDays(n);
    DateTime(y, m, d, secs / 3600, secs % 3600 / 60, secs % 60)
  }

  lemma {:induction false} YearStartMonotone(a: nat, b: nat)
    requires a <= b
    ensures YearStart(a) <= YearStart(b)
    decreases b - a
  {
    if a < b {
      YearStartMonotone(a, b - 1);
      YearLength(b - 1);
    }
  }

  // ---------------------------------------------------------------- fixed-width digits

  function Pow10(w: nat): nat {
    if w == 0 then 1 else 10 * Pow10(w - 1)
  }

  /** `n` written with exactly `w` digits, zero-padded on the left. */
  function Digits(n: nat, w: nat): (r: string)
    ensures |r| == w && AllDigits(r)
  {
    if w == 0 then [] else Digits(n / 10, w - 1) + [DigitChar(n % 10)]
  }

  lemma {:induction false} DigitsValueOf(n: nat, w: nat)
    requires n < Pow10(w)
    ensures DigitsValue(Digits(n, w)) == n
  {
    if w > 0 {
      var r := Digits(n, w);
      assert r[..|r| - 1] == Digits(n / 10, w - 1);
      DigitsValueOf(n / 10, w - 1);
    }
  }

  lemma DigitsValue2(s: string)
    requires |s| == 2 && AllDigits(s)
    ensures DigitsValue(s) == 10 * DigitValue(s[0]) + DigitValue(s[1])
  {
    var p := s[..1];
    assert p[..0] == [] && p[0] == s[0] && s[..|s| - 1] == p;
    assert DigitsValue(p) == DigitValue(s[0]);
  }

  lemma DigitsValue4(s: string)
    requires |s| == 4 && AllDigits(s)
    ensures DigitsValue(s) == 1000 * DigitValue(s[0]) + 100 * DigitValue(s[1]) + 10 * DigitValue(s[2]) + DigitValue(s[3])
  {
    DigitsValue2(s[..2]);
    assert s[..3][..2] == s[..2];
  }

  /** The value of the digits `s[i..j]`, when they are all digits. */
  function Field(s: string, i: nat, j: nat): Option<nat>
    requires i <= j <= |s|
  {
    if AllDigits(s[i..j]) then Some(DigitsValue(s[i..j])) else None
  }

  // ---------------------------------------------------------------- basic ISO 8601 form

  /** `%Y%m%dT%H%M%SZ`, the form the JSON dates of a task use. */
  function FormatBasic(t: int): (r: string)
    requires MIN_INSTANT <= t <= MAX_INSTANT
    ensures |r| == 16 && r[8] == 'T' && r[15] == 'Z'
  {
    var dt := FromEpoch(t);
    Digits(dt.year, 4) + Digits(dt.month, 2) + Digits(dt.day, 2) + "T"
    + Digits(dt.hour, 2) + Digits(dt.minute, 2) + Digits(dt.second, 2) + "Z"
  }

  /** The calendar fields of a date-time built from parsed pieces, when they form a real one. */
  function Assemble(y: Option<nat>, m: Option<nat>, d: Option<nat>,
                    h: Option<nat>, mi: Option<nat>, s: Option<nat>): Option<DateTime>
  {
    if y.None? || m.None? || d.None? || h.None? || mi.None? || s.None? then None
    else
      var dt := DateTime(y.value, m.value, d.value, h.value, mi.value, s.value);
      if Valid(dt) then Some(dt) else None
  }

  /** Reading `%Y%m%dT%H%M%SZ` with every field at its full width. */
  function ParseBasic(s: string): (r: Option<int>)
    ensures r.Some? ==> MIN_INSTANT <= r.value <= MAX_INSTANT
  {
    if |s| != 16 || s[8] != 'T' || s[15] != 'Z' then None
    else
      match Assemble(Field(s, 0, 4), Field(s, 4, 6), Field(s, 6, 8), Field(s, 9, 11), Field(s, 11, 13), Field(s, 13, 15))
      case None => None
      case Some(dt) => ToEpochBounds(dt); Some(ToEpoch(dt))
  }

  lemma ToEpochBounds(dt: DateTime)
    requires Valid(dt)
    ensures MIN_INSTANT <= ToEpoch(dt) <= MAX_INSTANT
  {
    YearLength(dt.year);
    YearStartMonotone(dt.year + 1, 10000);
    assert YearStart(10000) == 3652425;
  }

  /** Formatting an instant and reading it back gives the same second. */
  lemma BasicRoundTrip(t: int)
    requires MIN_INSTANT <= t <= MAX_INSTANT
    ensures ParseBasic(FormatBasic(t)) == Some(t)
  {
    var dt := FromEpoch(t);
    FieldsRead(dt);
    BasicFields(Digits(dt.year, 4), Digits(dt.month, 2), Digits(dt.day, 2),
                Digits(dt.hour, 2), Digits(dt.minute, 2), Digits(dt.second, 2));
  }

  /** Each field of a valid date-time fits its width and reads back as itself. */
  lemma FieldsRead(dt: DateTime)
    requires Valid(dt)
    ensures DigitsValue(Digits(dt.year, 4)) == dt.year && DigitsValue(Digits(dt.month, 2)) == dt.month
    ensures DigitsValue(Digits(dt.day, 2)) == dt.day && DigitsValue(Digits(dt.hour, 2)) == dt.hour
    ensures DigitsValue(Digits(dt.minute, 2)) == dt.minute && DigitsValue(Digits(dt.second, 2)) == dt.second
  {
    Pow10Widths();
    MonthLength(dt.year, dt.month);
    DigitsValueOf(dt.year, 4);
    DigitsValueOf(dt.month, 2);
    DigitsValueOf(dt.day, 2);
    DigitsValueOf(dt.hour, 2);
    DigitsValueOf(dt.minute, 2);
    DigitsValueOf(dt.second, 2);
  }

  lemma MonthLength(y: int, m: int)
    requires 1 <= m <= 12
    ensures DaysInMonth(y, m) <= 31
  {
  }

  lemma Pow10Widths()
    ensures Pow10(2) == 100 && Pow10(4) == 10000
  {
    assert Pow10(1) == 10;
    assert Pow10(3) == 1000;
  }

  /** The six digit fields of a basic-form text are read back from their own positions. */
  lemma BasicFields(y: string, m: string, d: string, h: string, mi: string, sec: string)
    requires |y| == 4 && |m| == 2 && |d| == 2 && |h| == 2 && |mi| == 2 && |sec| == 2
    ensures var s := y + m + d + "T" + h + mi + sec + "Z";
      |s| == 16 && s[8] == 'T' && s[15] == 'Z' &&
      s[0..4] == y && s[4..6] == m && s[6..8] == d && s[9..11] == h && s[11..13] == mi && s[13..15] == sec
  {
  }

  // ---------------------------------------------------------------- RFC 3339 and full-date

  /** A `full-date` of section 5.6 of RFC 3339, `YYYY-MM-DD`, taken at midnight UTC. */
  function ParseFullDate(s: string): (r: Option<int>)
    ensures r.Some? ==> |s| == 10 && s[4] == '-' && s[7] == '-'
  {
    if |s| != 10 || s[4] != '-' || s[7] != '-' then None
    else
      match Assemble(Field(s, 0, 4), Field(s, 5, 7), Field(s, 8, 10), Some(0), Some(0), Some(0))
      case None => None
      case Some(dt) => Some(ToEpoch(dt))
  }

  /** The offset in seconds east of UTC of a `time-offset` (`Z`, `z` or `+HH:MM` / `-HH:MM`). */
  function ParseOffset(s: string): Option<int> {
    if s == "Z" || s == "z" then Some(0)
    else if |s| == 6 && (s[0] == '+' || s[0] == '-') && s[3] == ':' then
      match (Field(s, 1, 3), Field(s, 4, 6))
      case (Some(h), Some(m)) =>
        var magnitude: int := h * 3600 + m * 60;
        if h < 24 && m < 60 then Some(if s[0] == '-' then -magnitude else magnitude) else None
      case _ => None
    else None
  }

  /** Length of the `time-secfrac` at the start of `s` (a dot and at least one digit), or 0. */
  function FractionLength(s: string): (n: nat)
    ensures n <= |s|
  {
    if |s| >= 2 && s[0] == '.' && IsDigit(s[1]) then 1 + DigitRun(s[1..]) else 0
  }

  function DigitRun(s: string): (n: nat)
    ensures n <= |s| && AllDigits(s[..n])
  {
    if s != [] && IsDigit(s[0]) then
      var n := 1 + DigitRun(s[1..]);
      assert s[..n] == [s[0]] + s[1..][..n - 1];
      n
    else 0
  }

  /** A `partial-time` without fraction, `HH:MM:SS`, as seconds after midnight. */
  function ParseTime(s: string): (r: Option<int>)
    ensures r.Some? ==> 0 <= r.value < SECONDS_PER_DAY
  {
    if |s| != 8 || s[2] != ':' || s[5] != ':' then None
    else
      match (Field(s, 0, 2), Field(s, 3, 5), Field(s, 6, 8))
      case (Some(h), Some(m), Some(sec)) =>
        if h < 24 && m < 60 && sec < 60 then Some(h * 3600 + m * 60 + sec) else None
      case _ => None
  }

  /** A `date-time` of section 5.6 of RFC 3339 (the separator may also be `t` or a space); the
      fraction of a second is dropped, and the offset is subtracted to give the UTC instant. */
  function ParseRfc3339(s: string): Option<int> {
    if |s| < 20 || s[10] !in {'T', 't', ' '} then None
    else
      match ParseFullDate(s[..10])
      case None => None
      case Some(day) =>
        match ParseTime(s[11..19])
        case None => None
        case Some(secs) =>
          match ParseOffset(s[19 + FractionLength(s[19..])..])
          case None => None
          case Some(off) => Some(day + secs - off)
  }

  /** 2025-06-01 is 1748736000 seconds after the epoch. */
  lemma FullDateExample()
    ensures ParseFullDate("2025-06-01") == Some(1748736000)
  {
    var s := "2025-06-01";
    assert s[0..4] == "2025" && s[5..7] == "06" && s[8..10] == "01";
    DigitsValue4("2025");
    DigitsValue2("06");
    DigitsValue2("01");
    assert Field(s, 0, 4) == Some(2025);
    assert Field(s, 5, 7) == Some(6);
    assert Field(s, 8, 10) == Some(1);
    var dt := DateTime(2025, 6, 1, 0, 0, 0);
    assert Assemble(Some(2025), Some(6), Some(1), Some(0), Some(0), Some(0)) == Some(dt);
    assert ToEpoch(dt) == 1748736000;
  }

  /** The same instant as an RFC 3339 date-time in UTC. */
  lemma DateTimeExample()
    ensures ParseRfc3339("2025-06-01T00:00:00Z") == Some(1748736000)
  {
    FullDateExample();
    TimeExample("00:00:00", 0, 0, 0);
    assert FractionLength("" + "Z") == 0;
    assert ParseOffset("Z") == Some(0);
    Rfc3339Parts("2025-06-01", 'T', "00:00:00", "", "Z", 1748736000, 0, 0);
    ExampleText();
  }

  lemma ExampleText()
    ensures "2025-06-01" + ['T'] + "00:00:00" + "" + "Z" == "2025-06-01T00:00:00Z"
  {
    assert "00:00:00" + "" == "00:00:00";
  }

  /** The same instant with a two-hour offset and a fraction of a second, which is dropped. */
  lemma DateTimeOffsetExample()
    ensures ParseRfc3339("2025-06-01" + [' '] + "02:00:00" + ".5" + "+02:00") == Some(1748736000)
  {
    FullDateExample();
    TimeExample("02:00:00", 0, 2, 0);
    FractionExample();
    OffsetExample();
    Rfc3339Parts("2025-06-01", ' ', "02:00:00", ".5", "+02:00", 1748736000, 7200, 7200);
  }

  lemma Rfc3339Parts(date: string, sep: char, time: string, frac: string, offset: string, day: int, secs: int, off: int)
    requires |date| == 10 && sep in {'T', 't', ' '} && |time| == 8
    requires ParseFullDate(date) == Some(day) && ParseTime(time) == Some(secs)
    requires FractionLength(frac + offset) == |frac| && ParseOffset(offset) == Some(off)
    ensures ParseRfc3339(date + [sep] + time + frac + offset) == Some(day + secs - off)
  {
    var s := date + [sep] + time + frac + offset;
    assert s[..10] == date;
    assert s[11..19] == time;
    assert s[19..] == frac + offset;
    assert s[19 + |frac|..] == offset;
  }

  lemma FractionExample()
    ensures FractionLength(".5" + "+02:00") == 2
  {
    assert ".5" + "+02:00" == ".5+02:00";
    assert ".5+02:00"[1..] == "5+02:00";
    assert "5+02:00"[1..] == "+02:00";
  }

  lemma OffsetExample()
    ensures ParseOffset("+02:00") == Some(7200)
  {
    var o := "+02:00";
    assert o[1..3] == "02" && o[4..6] == "00";
    DigitsValue2("00");
    DigitsValue2("02");
  }

  lemma TimeExample(s: string, d0: nat, d1: nat, d3: nat)
    requires d0 <= 2 && d1 <= 9 && d3 <= 5
    requires s == [DigitChar(d0), DigitChar(d1), ':', DigitChar(d3), '0', ':', '0', '0']
    requires d0 * 10 + d1 < 24
    ensures ParseTime(s) == Some((d0 * 10 + d1) * 3600 + d3 * 600)
  {
    DigitsValue2(s[0..2]);
    DigitsValue2(s[3..5]);
    DigitsValue2(s[6..8]);
  }

  /** A plain date is never mistaken for a date-time, and a date-time is never a plain date. */
  lemma FormsDisjoint(s: string)
    ensures ParseFullDate(s).Some? ==> ParseRfc3339(s).None?
  {
  }
}
