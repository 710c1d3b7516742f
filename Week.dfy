/**
 * Calendar weeks as the app computes them: `startOfWeek` moves a date back to
 * the Monday of its week (Sunday belongs to the week that started six days
 * earlier) and clears the time of day; `weekId` names a week by that Monday.
 *
 * Dates are day numbers (days since 1970-01-01, a Thursday) with the
 * milliseconds elapsed since local midnight.  The `YYYY-MM-DD` text of a
 * Monday is in one-to-one correspondence with its day number, so the week key
 * is the Monday's day number.
 */
module Week {

  const MsPerDay: int := 86400000

  /** A local point in time. */
  datatype Instant = Instant(day: int, ms: int)

  predicate ValidInstant(t: Instant) {
    0 <= t.ms < MsPerDay
  }

  /** `Date.getDay`: 0 is Sunday, 1 Monday, ..., 6 Saturday. */
  function DayOfWeek(day: int): (w: int)
    ensures 0 <= w < 7
  {
    (day + 4) % 7
  }

  /** The day offset `(day === 0 ? -6 : 1) - day` applied by `startOfWeek`. */
  function MondayShift(weekday: int): (s: int)
    requires 0 <= weekday < 7
    ensures -6 <= s <= 0
    ensures weekday == 0 ==> s == -6
    ensures weekday == 1 ==> s == 0
    ensures (weekday + s) % 7 == 1
  {
    (if weekday == 0 then -6 else 1) - weekday
  }

  /** Moving `k` days on moves the weekday `k` places round the week. */
  lemma DayOfWeekAdd(day: int, k: int)
    ensures DayOfWeek(day + k) == (DayOfWeek(day) + k) % 7
  {
    var q := (day + 4) / 7;
    assert day + 4 == 7 * q + DayOfWeek(day);
    assert day + k + 4 == 7 * q + (DayOfWeek(day) + k);
    ModShift(DayOfWeek(day) + k, q);
  }

  lemma ModShift(a: int, q: int)
    ensures (7 * q + a) % 7 == a % 7
  {
    var r := a % 7;
    var p := a / 7;
    assert a == 7 * p + r;
    assert 7 * q + a == 7 * (q + p) + r;
  }

  /** `startOfWeek(date)`: the Monday of the date's week, at 00:00:00.000. */
  function StartOfWeek(t: Instant): (r: Instant)
    ensures ValidInstant(r) && r.ms == 0
    ensures DayOfWeek(r.day) == 1
    ensures t.day - 6 <= r.day <= t.day
    ensures DayOfWeek(t.day) == 0 ==> r.day == t.day - 6
  {
    var shift := MondayShift(DayOfWeek(t.day));
    DayOfWeekAdd(t.day, shift);
    Instant(t.day + shift, 0)
  }

  /** `weekId(date)`: the key of the date's week, its Monday. */
  function WeekId(t: Instant): (r: int)
    ensures DayOfWeek(r) == 1
    ensures r <= t.day < r + 7
  {
    StartOfWeek(t).day
  }

  /** Two Mondays less than a week apart are the same day. */
  lemma MondaysCoincide(m1: int, m2: int)
    requires DayOfWeek(m1) == 1 && DayOfWeek(m2) == 1
    requires m1 <= m2 < m1 + 7
    ensures m1 == m2
  {
    DayOfWeekAdd(m1, m2 - m1);
    assert (1 + (m2 - m1)) % 7 == 1;
  }

  /** A Monday is its own week's start. */
  lemma MondayIsFixed(t: Instant)
    requires DayOfWeek(t.day) == 1
    ensures WeekId(t) == t.day
  {
    MondaysCoincide(WeekId(t), t.day);
  }

  /** The seven days Monday..Sunday of one week all carry the Monday's key. */
  lemma WholeWeekSharesId(monday: int, k: int, ms: int)
    requires DayOfWeek(monday) == 1
    requires 0 <= k < 7
    ensures WeekId(Instant(monday + k, ms)) == monday
  {
    var r := WeekId(Instant(monday + k, ms));
    if r <= monday {
      MondaysCoincide(r, monday);
    } else {
      MondaysCoincide(monday, r);
    }
  }

  /** Two dates share a week key exactly when the second lies in the Monday..Sunday span of the first's week. */
  lemma SameWeekIff(a: Instant, b: Instant)
    ensures WeekId(a) == WeekId(b) <==> WeekId(a) <= b.day <= WeekId(a) + 6
  {
    if WeekId(a) <= b.day <= WeekId(a) + 6 {
      WholeWeekSharesId(WeekId(a), b.day - WeekId(a), b.ms);
    }
  }
}
