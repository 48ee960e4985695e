/**
 * Date-times as the scripts receive them from MySQL `DATETIME` columns, the
 * `strftime("%Y-%m-%d %H:%M:%S")` layout they print, and the whole-day
 * difference of Python's `datetime` subtraction.
 */
module DateTimes {
  import opened Optional
  import opened Digits

  /** A `datetime` with whole seconds, as stored in a `DATETIME` column. */
  datatype DateTime = DateTime(year: int, month: int, day: int, hour: int, minute: int, second: int)

  predicate IsLeapYear(y: int) {
    y % 4 == 0 && (y % 100 != 0 || y % 400 == 0)
  }

  function DaysInMonth(y: int, m: int): (n: int)
    requires 1 <= m <= 12
    ensures 28 <= n <= 31
  {
    if m == 2 then (if IsLeapYear(y) then 29 else 28)
    else if m == 4 || m == 6 || m == 9 || m == 11 then 30
    else 31
  }

  /**
   * Every field inside the range a MySQL `DATETIME` gives it (years 1000 to
   * 9999). The day is bounded by 31 only: no operation here depends on the
   * length of the month.
   */
  predicate Valid(dt: DateTime) {
    && 1000 <= dt.year <= 9999
    && 1 <= dt.month <= 12
    && 1 <= dt.day <= 31
    && 0 <= dt.hour < 24
    && 0 <= dt.minute < 60
    && 0 <= dt.second < 60
  }

  /** A date-time read from a `DATETIME` column. */
  type Stamp = dt: DateTime | Valid(dt) witness DateTime(1000, 1, 1, 0, 0, 0)

  /** The character positions of `YYYY-MM-DD HH:MM:SS` that hold separators. */
  predicate IsSeparatorPosition(k: int) {
    k == 4 || k == 7 || k == 10 || k == 13 || k == 16
  }

  /** `s` has the 19-character `YYYY-MM-DD HH:MM:SS` shape. */
  predicate IsLayout(s: string) {
    && |s| == 19
    && s[4] == '-' && s[7] == '-' && s[10] == ' ' && s[13] == ':' && s[16] == ':'
    && forall k :: 0 <= k < 19 && !IsSeparatorPosition(k) ==> IsDigit(s[k])
  }

  /** `dt.strftime("%Y-%m-%d %H:%M:%S")`. */
  function Format(dt: DateTime): (r: string)
    requires Valid(dt)
    ensures IsLayout(r)
  {
    Pad(dt.year, 4) + "-" + Pad(dt.month, 2) + "-" + Pad(dt.day, 2) + " "
      + Pad(dt.hour, 2) + ":" + Pad(dt.minute, 2) + ":" + Pad(dt.second, 2)
  }

  /** Reads the `YYYY-MM-DD HH:MM:SS` layout back into a date-time. */
  function Parse(s: string): Option<DateTime> {
    if !IsLayout(s) then None
    else
      assert AllDigits(s[0..4]) && AllDigits(s[5..7]) && AllDigits(s[8..10]);
      assert AllDigits(s[11..13]) && AllDigits(s[14..16]) && AllDigits(s[17..19]);
      var dt := DateTime(ValueOf(s[0..4]), ValueOf(s[5..7]), ValueOf(s[8..10]),
                         ValueOf(s[11..13]), ValueOf(s[14..16]), ValueOf(s[17..19]));
      if Valid(dt) then Some(dt) else None
  }

  /** The printed layout determines the date-time: formatting then parsing is the identity. */
  lemma {:induction false} ParseFormat(dt: DateTime)
    requires Valid(dt)
    ensures Parse(Format(dt)) == Some(dt)
  {
    var s := Format(dt);
    assert s[0..4] == Pad(dt.year, 4);
    assert s[5..7] == Pad(dt.month, 2);
    assert s[8..10] == Pad(dt.day, 2);
    assert s[11..13] == Pad(dt.hour, 2);
    assert s[14..16] == Pad(dt.minute, 2);
    assert s[17..19] == Pad(dt.second, 2);
    PadValue(dt.year, 4);
    PadValue(dt.month, 2);
    PadValue(dt.day, 2);
    PadValue(dt.hour, 2);
    PadValue(dt.minute, 2);
    PadValue(dt.second, 2);
  }

  /** Distinct date-times never print the same. */
  lemma FormatInjective(a: DateTime, b: DateTime)
    requires Valid(a) && Valid(b) && Format(a) == Format(b)
    ensures a == b
  {
    ParseFormat(a);
    ParseFormat(b);
  }

  /**
   * `format_datetime(dt)` of the report scripts: "Never" for `None`, the
   * fixed layout otherwise. (A `datetime` object is always truthy, so the
   * script's second "Never" test only differs for `None`.)
   */
  function FormatDatetime(dt: Option<DateTime>): (r: string)
    requires dt.Some? ==> Valid(dt.value)
    ensures r == "Never" <==> dt.None?
    ensures dt.Some? ==> IsLayout(r) && Parse(r) == dt
  {
    match dt
    case None => "Never"
    case Some(t) =>
      ParseFormat(t);
      Format(t)
  }

  /** Days from 0001-01-01 to January 1st of year `y` (Python's `_days_before_year`). */
  function DaysBeforeYear(y: int): int {
    var y1 := y - 1;
    y1 * 365 + y1 / 4 - y1 / 100 + y1 / 400
  }

  /** Days in year `y` before the first day of month `m`. */
  function DaysBeforeMonth(y: int, m: int): int
    requires 1 <= m <= 12
    decreases m
  {
    if m == 1 then 0 else DaysBeforeMonth(y, m - 1) + DaysInMonth(y, m - 1)
  }

  /** Proleptic Gregorian ordinal (`date.toordinal()`): 0001-01-01 is day 1. */
  function Ordinal(dt: DateTime): int
    requires 1 <= dt.month <= 12
  {
    DaysBeforeYear(dt.year) + DaysBeforeMonth(dt.year, dt.month) + dt.day
  }

  /** Seconds since 0001-01-01 00:00:00 minus one day, a monotone clock for subtraction. */
  function Seconds(dt: DateTime): int
    requires 1 <= dt.month <= 12
  {
    Ordinal(dt) * 86400 + dt.hour * 3600 + dt.minute * 60 + dt.second
  }

  /**
   * `(later - earlier).days`: Python normalises a `timedelta` so that its
   * `days` is the floor of the difference in days, negative when `earlier`
   * is in fact later.
   */
  function WholeDaysBetween(later: DateTime, earlier: DateTime): (d: int)
    requires Valid(later) && Valid(earlier)
    ensures d * 86400 <= Seconds(later) - Seconds(earlier) < (d + 1) * 86400
  {
    (Seconds(later) - Seconds(earlier)) / 86400
  }
}
