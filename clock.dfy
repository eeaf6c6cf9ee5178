/**
 * Wall-clock arithmetic on instants held as integer milliseconds.
 * The local day is a fixed 24-hour span: day `d` covers
 * `[d * MsPerDay, (d + 1) * MsPerDay)`, with no time zone offset and no
 * daylight-saving change. The JavaScript `Date` getters and setters used by
 * the components become the functions below.
 */
module Clock {

  const MsPerMinute: int := 60_000
  const MsPerHour: int := 3_600_000
  const MsPerDay: int := 86_400_000

  /** Day 0 (1970-01-01) was a Thursday; `getDay()` counts Sunday as 0. */
  const EpochWeekday: int := 4

  /** The local calendar date of an instant, as a day number (`toDateString()` up to naming). */
  function DayNumber(t: int): int { t / MsPerDay }

  /** Local midnight of the day holding `t`. */
  function DayStart(t: int): int { DayNumber(t) * MsPerDay }

  /** Milliseconds elapsed since local midnight. */
  function MsOfDay(t: int): (r: int)
    ensures 0 <= r < MsPerDay
  { t % MsPerDay }

  /** `getHours()` */
  function Hours(t: int): (r: int)
    ensures 0 <= r < 24
  { MsOfDay(t) / MsPerHour }

  /** `getMinutes()` */
  function Minutes(t: int): (r: int)
    ensures 0 <= r < 60
  { MsOfDay(t) % MsPerHour / MsPerMinute }

  /** `getHours() * 60 + getMinutes()`: whole minutes since local midnight, seconds dropped. */
  function MinuteOfDay(t: int): (r: int)
    ensures 0 <= r < 24 * 60
    ensures r == MsOfDay(t) / MsPerMinute
  {
    Hours(t) * 60 + Minutes(t)
  }

  /** `getDay()`: 0 for Sunday through 6 for Saturday. */
  function Weekday(t: int): (r: int)
    ensures 0 <= r < 7
  { (DayNumber(t) + EpochWeekday) % 7 }

  /** `d.setHours(h, 0, 0, 0)`: the day of `t` at `h:00:00.000`; an hour past 23 rolls into later days. */
  function SetHours(t: int, h: int): int { DayStart(t) + h * MsPerHour }

  /** `d.setDate(d.getDate() + n)`: the same time of day, `n` days later. */
  function AddDays(t: int, n: int): int { t + n * MsPerDay }

  /** An instant is fixed by its day number and its offset within the day. */
  lemma Decompose(t: int)
    ensures t == DayNumber(t) * MsPerDay + MsOfDay(t)
  {
  }

  /** Division by the day length recovers the day and the offset of any instant written as such. */
  lemma DayOf(d: int, r: int)
    requires 0 <= r < MsPerDay
    ensures DayNumber(d * MsPerDay + r) == d
    ensures MsOfDay(d * MsPerDay + r) == r
  {
    Decompose(d * MsPerDay + r);
  }

  /** `setHours(h, 0, 0, 0)` with an hour of the day lands on that day at exactly `h:00`. */
  lemma SetHoursOnDay(t: int, h: int)
    requires 0 <= h < 24
    ensures DayNumber(SetHours(t, h)) == DayNumber(t)
    ensures MsOfDay(SetHours(t, h)) == h * MsPerHour
    ensures Hours(SetHours(t, h)) == h && Minutes(SetHours(t, h)) == 0
    ensures MinuteOfDay(SetHours(t, h)) == h * 60
  {
    DayOf(DayNumber(t), h * MsPerHour);
  }

  /** Moving by whole days keeps the time of day and shifts the date by exactly that many days. */
  lemma AddDaysShifts(t: int, n: int)
    ensures DayNumber(AddDays(t, n)) == DayNumber(t) + n
    ensures MsOfDay(AddDays(t, n)) == MsOfDay(t)
  {
    Decompose(t);
    assert AddDays(t, n) == (DayNumber(t) + n) * MsPerDay + MsOfDay(t);
    DayOf(DayNumber(t) + n, MsOfDay(t));
  }

  /** `setHours(h, 0, 0, 0)` always lands on a whole minute. */
  lemma SetHoursWholeMinute(t: int, h: int)
    ensures SetHours(t, h) % MsPerMinute == 0
  {
    var q := DayNumber(t) * 1440 + h * 60;
    assert SetHours(t, h) == q * MsPerMinute;
  }

  /** Adding whole minutes does not change the remainder below a minute. */
  lemma MinuteRemainderShift(q: int, m: int)
    ensures (q * MsPerMinute + m) % MsPerMinute == m % MsPerMinute
  {
  }

  /** An instant on a whole minute sits exactly `MinuteOfDay` minutes after its midnight. */
  lemma WholeMinuteOfDay(t: int)
    requires t % MsPerMinute == 0
    ensures MsOfDay(t) == MinuteOfDay(t) * MsPerMinute
  {
    Decompose(t);
    var q := DayNumber(t) * 1440;
    assert t == q * MsPerMinute + MsOfDay(t);
    MinuteRemainderShift(q, MsOfDay(t));
  }
}
