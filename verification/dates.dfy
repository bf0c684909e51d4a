/** Instants and calendar days. An instant is a count of milliseconds (what
    `Date.prototype.getTime` returns) with the local time zone's fixed offset
    already added, so that a calendar day is a block of `DAY` consecutive
    instants starting at local midnight. The date-fns predicates the source
    calls become comparisons against an explicit `now`. */
module Dates {

  type Instant = int

  /** Milliseconds in one day. */
  const DAY: int := 86_400_000

  /** The calendar day an instant falls on (floor division). */
  function DayOf(t: Instant): int {
    t / DAY
  }

  /** The first instant of the day `t` falls on (local midnight). */
  function StartOfDay(t: Instant): (r: Instant)
    ensures r <= t < r + DAY
    ensures DayOf(r) == DayOf(t)
  {
    DayOf(t) * DAY
  }

  /** date-fns `isPast`: strictly before now. */
  predicate IsPast(t: Instant, now: Instant) {
    t < now
  }

  /** date-fns `isFuture`: strictly after now. */
  predicate IsFuture(t: Instant, now: Instant) {
    t > now
  }

  /** date-fns `isToday`: on the same calendar day as now. */
  predicate IsToday(t: Instant, now: Instant) {
    DayOf(t) == DayOf(now)
  }

  /** date-fns `addDays`, without daylight-saving shifts: the same time of
      day, `n` calendar days later. */
  function AddDays(t: Instant, n: int): (r: Instant)
    ensures DayOf(r) == DayOf(t) + n
    ensures r - StartOfDay(r) == t - StartOfDay(t)
  {
    assert (t + n * DAY) / DAY == t / DAY + n;
    t + n * DAY
  }

  /** Later instants never fall on earlier days. */
  lemma DayOfMonotone(a: Instant, b: Instant)
    requires a <= b
    ensures DayOf(a) <= DayOf(b)
  {
  }

  /** "In the past and not today" is "on an earlier day". */
  lemma PastNotTodayIsEarlierDay(t: Instant, now: Instant)
    ensures (IsPast(t, now) && !IsToday(t, now)) <==> DayOf(t) < DayOf(now)
  {
    if t < now {
      DayOfMonotone(t, now);
    } else {
      DayOfMonotone(now, t);
    }
  }

  /** "Not in the past and not today" is "on a later day". */
  lemma NotPastNotTodayIsLaterDay(t: Instant, now: Instant)
    ensures (!IsPast(t, now) && !IsToday(t, now)) <==> DayOf(t) > DayOf(now)
  {
    if t < now {
      DayOfMonotone(t, now);
    } else {
      DayOfMonotone(now, t);
    }
  }

  /** "In the future or today" is "on this day or a later one". */
  lemma FutureOrTodayIsNotEarlierDay(t: Instant, now: Instant)
    ensures (IsFuture(t, now) || IsToday(t, now)) <==> DayOf(t) >= DayOf(now)
  {
    PastNotTodayIsEarlierDay(t, now);
  }
}
