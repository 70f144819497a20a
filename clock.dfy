/**
 * Time as the crawlers see it: an integer epoch "now", naive local civil
 * date-times, and Python's datetime range.  The conversion between epoch seconds
 * and local civil time (`datetime.fromtimestamp`, `datetime.timestamp`) depends on
 * the machine's time zone and is a parameter, `Calendar`; Gregorian date validity
 * is concrete.
 */
module Clock {
  import opened Wrappers

  /** A naive `datetime` to the second. */
  datatype Civil = Civil(year: int, month: int, day: int, hour: int, minute: int, second: int)

  /** Local time zone: epoch seconds to civil time and back. */
  datatype Calendar = Calendar(toCivil: int -> Civil, toEpoch: Civil -> int)

  const MinuteSeconds: int := 60
  const HourSeconds: int := 3600
  const DaySeconds: int := 86400

  /** The epoch seconds of 0001-01-01 00:00:00 and 9999-12-31 23:59:59, the ends of `datetime`'s range (UTC). */
  const MinStamp: int := -62135596800
  const MaxStamp: int := 253402300799

  /**
   * `now - timedelta(seconds=d)`, or None when the result leaves `datetime`'s
   * range, where Python raises OverflowError.
   */
  function Back(now: int, d: int): (r: Option<int>)
    ensures r.Some? <==> MinStamp <= now - d <= MaxStamp
    ensures r.Some? ==> r.value == now - d
  {
    if MinStamp <= now - d <= MaxStamp then Some(now - d) else None
  }

  predicate IsLeap(y: int) {
    y % 4 == 0 && (y % 100 != 0 || y % 400 == 0)
  }

  function DaysInMonth(y: int, m: int): (n: int)
    requires 1 <= m <= 12
    ensures 28 <= n <= 31
  {
    if m == 2 then (if IsLeap(y) then 29 else 28)
    else if m == 4 || m == 6 || m == 9 || m == 11 then 30
    else 31
  }

  /** `datetime(y, m, d)` does not raise ValueError. */
  predicate ValidDate(y: int, m: int, d: int) {
    1 <= y <= 9999 && 1 <= m <= 12 && 1 <= d <= DaysInMonth(y, m)
  }

  predicate ValidTime(h: int, mi: int, s: int) {
    0 <= h <= 23 && 0 <= mi <= 59 && 0 <= s <= 59
  }

  predicate ValidCivil(c: Civil) {
    ValidDate(c.year, c.month, c.day) && ValidTime(c.hour, c.minute, c.second)
  }

  /** Every instant the calendar produces is a valid date-time. */
  ghost predicate Sane(cal: Calendar) {
    forall t :: ValidCivil(cal.toCivil(t))
  }

  /** `a > b` on naive datetimes: lexicographic on the fields. */
  predicate Later(a: Civil, b: Civil) {
    if a.year != b.year then a.year > b.year
    else if a.month != b.month then a.month > b.month
    else if a.day != b.day then a.day > b.day
    else if a.hour != b.hour then a.hour > b.hour
    else if a.minute != b.minute then a.minute > b.minute
    else a.second > b.second
  }

  /** The time truncated to the minute, as `strftime('%Y-%m-%d %H:%M')` keeps it. */
  function ToMinute(c: Civil): Civil {
    c.(second := 0)
  }

  /** Midnight of the same day. */
  function AtMidnight(c: Civil): Civil {
    c.(hour := 0, minute := 0, second := 0)
  }

  /** What the Autohome and Dongchedi parsers return: an integer epoch timestamp, or the text itself. */
  datatype Stamp = Epoch(seconds: int) | Verbatim(text: string)

  /** `int((now - timedelta(seconds=d)).timestamp())`; OverflowError escapes. */
  function Ago(now: int, d: int): (r: Outcome<Stamp>)
    ensures r.Done? <==> MinStamp <= now - d <= MaxStamp
    ensures r.Done? ==> r.value == Epoch(now - d)
  {
    match Back(now, d)
    case None => Raised
    case Some(t) => Done(Epoch(t))
  }

  /** A time parser with the clock and calendar fixed; an exception may escape it. */
  type Reader = string -> Outcome<Stamp>
}
