/**
 * Time values as the counter engine sees them. A JavaScript `Date` holds a
 * number of milliseconds since the epoch; the calendar (time zone rules,
 * month lengths, leap years, date-string parsing) is not modelled but taken
 * as a `Calendar` value, so that every call site that derives a month from
 * an instant uses one and the same mapping.
 */
module Dates {
  import opened Prelude

  /** A `Date` is valid only within 8.64e15 ms of the epoch (the TimeClip range). */
  const MaxTimeValue: int := 8_640_000_000_000_000

  predicate InRange(t: int)
  {
    -MaxTimeValue <= t <= MaxTimeValue
  }

  /**
   * A calendar month as one integer, `year * 12 + (month - 1)`, the way
   * `Date.UTC(year, monthIndex, 1)` folds an out-of-range month index into
   * the year.
   */
  function MonthIndex(year: int, month: int): int
  {
    year * 12 + month - 1
  }

  function YearOf(idx: int): int
  {
    idx / 12
  }

  function MonthOf(idx: int): (m: int)
    ensures 1 <= m <= 12
  {
    idx % 12 + 1
  }

  lemma MonthIndexRoundTrip(idx: int)
    ensures MonthIndex(YearOf(idx), MonthOf(idx)) == idx
  {
  }

  lemma YearMonthRoundTrip(year: int, month: int)
    requires 1 <= month <= 12
    ensures YearOf(MonthIndex(year, month)) == year
    ensures MonthOf(MonthIndex(year, month)) == month
  {
    var idx := MonthIndex(year, month);
    assert idx == year * 12 + (month - 1) && 0 <= month - 1 < 12;
  }

  /**
   * The calendar and clock services the engine consumes:
   *  - localMonth(t): `getFullYear() * 12 + getMonth()` of instant t in the
   *    host's time zone (luxon's default zone is the same one);
   *  - utcMonth(t): the same in UTC;
   *  - utcMonthStart(i): `Date.UTC(y, m, 1)` for month index i = y * 12 + m;
   *  - parseDate(s): `new Date(s)` for a string;
   *  - parseIso(s): luxon `DateTime.fromISO(s)`.
   */
  datatype Calendar = Calendar(
    localMonth: int -> int,
    utcMonth: int -> int,
    utcMonthStart: int -> int,
    parseDate: string -> Option<int>,
    parseIso: string -> Option<int>)

  /** UTC months are consecutive intervals: each instant lies in the month utcMonth names. */
  ghost predicate UtcConsistent(cal: Calendar)
  {
    && (forall i, j :: i <= j ==> cal.utcMonthStart(i) <= cal.utcMonthStart(j))
    && (forall t :: cal.utcMonthStart(cal.utcMonth(t)) <= t < cal.utcMonthStart(cal.utcMonth(t) + 1))
  }

  /** A month's start is at or before an instant exactly when the month is not after the instant's month. */
  lemma MonthStartOrder(cal: Calendar, i: int, t: int)
    requires UtcConsistent(cal)
    ensures cal.utcMonthStart(i) <= t <==> i <= cal.utcMonth(t)
  {
    var m := cal.utcMonth(t);
    if i <= m {
      assert cal.utcMonthStart(i) <= cal.utcMonthStart(m);
    } else {
      assert cal.utcMonthStart(m + 1) <= cal.utcMonthStart(i);
    }
  }

  /**
   * A stored `date` property as JavaScript sees it: a `Date` (a timestamp),
   * a string, a number, `null`, or missing (`undefined`).
   */
  datatype DateValue = Timestamp(ms: int) | Text(text: string) | Number(n: int) | Null | Undefined

  /** JavaScript truthiness, as `if (user.date)` tests it; any `Date` object is truthy. */
  predicate Truthy(d: DateValue)
  {
    match d
    case Timestamp(_) => true
    case Text(s) => s != ""
    case Number(n) => n != 0
    case Null => false
    case Undefined => false
  }

  /** `new Date(d)`: the time value, or None for an Invalid Date. */
  function JsDate(d: DateValue, cal: Calendar): (r: Option<int>)
    ensures r.Some? ==> InRange(r.value)
  {
    var t := match d
      case Timestamp(ms) => Some(ms)
      case Text(s) => cal.parseDate(s)
      case Number(n) => Some(n)
      case Null => Some(0)
      case Undefined => None;
    if t.Some? && InRange(t.value) then t else None
  }
}
