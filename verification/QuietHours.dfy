/**
 Quiet hours (server/src/dnd.rs). Time runs in whole minutes from the Unix epoch, since only hours and
 minutes are looked at; a zone is its offset from UTC at every instant.
 */
module QuietHours {
  import opened Wrappers

  const Day := 1440
  const Week := 7 * Day

  /** The two ends as minutes of the day; an end that cannot be read is none. */
  datatype Window = Window(start: Option<nat>, end: Option<nat>)

  predicate Readable(w: Window) {
    (w.start.Some? ==> w.start.value < Day) && (w.end.Some? ==> w.end.value < Day)
  }

  predicate WindowContains(w: Window, minute: nat) {
    if w.start.None? || w.end.None? then false
    else if w.start.value == w.end.value then false
    else if w.start.value < w.end.value then w.start.value <= minute < w.end.value
    else w.start.value <= minute || minute < w.end.value
  }

  /** Minutes from the start to the end, forwards around the clock. */
  function Length(w: Window): (n: nat)
    ensures n < Day
  {
    if w.start.None? || w.end.None? then 0 else (w.end.value - w.start.value) % Day
  }

  /** A window holds a minute exactly when, going round from its start, the minute comes before its end. */
  lemma ContainsAroundTheClock(w: Window, minute: nat)
    requires Readable(w) && minute < Day
    ensures WindowContains(w, minute) <==> w.start.Some? && w.end.Some? && (minute - w.start.value) % Day < Length(w)
  {
    if w.start.Some? && w.end.Some? {
      var s, e := w.start.value, w.end.value;
      AroundTheClock(minute, s);
      AroundTheClock(e, s);
    }
  }

  lemma AroundTheClock(a: int, b: int)
    requires 0 <= a < Day && 0 <= b < Day
    ensures (a - b) % Day == if a < b then a - b + Day else a - b
  {
  }

  function Swapped(w: Window): Window {
    Window(w.end, w.start)
  }

  /** Swapping two different ends gives exactly the other minutes. */
  lemma SwappedIsComplement(w: Window, minute: nat)
    requires w.start.Some? && w.end.Some? && w.start != w.end
    ensures WindowContains(Swapped(w), minute) <==> !WindowContains(w, minute)
    ensures Readable(w) ==> Length(w) + Length(Swapped(w)) == Day
  {
    if Readable(w) {
      AroundTheClock(w.start.value, w.end.value);
      AroundTheClock(w.end.value, w.start.value);
    }
  }

  // ----- the schedule -----

  /** A name that is no time zone gives none. */
  datatype Schedule = Schedule(zone: Option<int -> int>, weekday: Option<Window>, weekend: Option<Window>)

  /** Days from Monday; the epoch was a Thursday. */
  function DayOfWeek(local: int): (d: nat)
    ensures d < 7
  {
    (local / Day + 3) % 7
  }

  function WindowFor(s: Schedule, local: int): Option<Window> {
    if DayOfWeek(local) >= 5 then s.weekend else s.weekday
  }

  predicate ScheduleSuppresses(s: Schedule, now: int) {
    if s.zone.None? then false
    else
      var local := now + s.zone.value(now);
      match WindowFor(s, local)
      case None => false
      case Some(w) => WindowContains(w, local % Day)
  }

  /** A manual pause wins over the schedule. */
  predicate IsSuppressed(s: Option<Schedule>, pausedUntil: Option<int>, now: int) {
    (pausedUntil.Some? && now < pausedUntil.value) || (s.Some? && ScheduleSuppresses(s.value, now))
  }

  // ----- counting -----

  function Count(f: int -> bool, start: int, n: nat): nat {
    if n == 0 then 0 else Count(f, start, n - 1) + if f(start + n - 1) then 1 else 0
  }

  lemma {:induction false} CountSplit(f: int -> bool, start: int, n: nat, m: nat)
    ensures Count(f, start, n + m) == Count(f, start, n) + Count(f, start + n, m)
  {
    if m > 0 {
      CountSplit(f, start, n, m - 1);
    }
  }

  /** Between `lo` and `hi` and nowhere else. */
  lemma {:induction false} CountBetween(f: int -> bool, start: int, n: nat, lo: nat, hi: nat)
    requires lo <= hi && forall t :: start <= t < start + n ==> (f(t) <==> lo <= t - start < hi)
    ensures Count(f, start, n) == if n <= lo then 0 else if n <= hi then n - lo else hi - lo
  {
    if n > 0 {
      CountBetween(f, start, n - 1, lo, hi);
    }
  }

  lemma {:induction false} CountOpposite(f: int -> bool, g: int -> bool, start: int, n: nat)
    requires forall t :: start <= t < start + n ==> f(t) == !g(t)
    ensures Count(f, start, n) + Count(g, start, n) == n
  {
    if n > 0 {
      CountOpposite(f, g, start, n - 1);
    }
  }

  /** Over one day a window holds as many minutes as it is long. */
  lemma DayCount(f: int -> bool, start: int, w: Window)
    requires Readable(w) && forall t :: start <= t < start + Day ==> f(t) == WindowContains(w, t - start)
    ensures Count(f, start, Day) == Length(w)
  {
    if w.start.None? || w.end.None? || w.start == w.end {
      CountBetween(f, start, Day, 0, 0);
    } else {
      var s, e := w.start.value, w.end.value;
      AroundTheClock(e, s);
      if s < e {
        CountBetween(f, start, Day, s, e);
      } else {
        var g := t => !f(t);
        CountBetween(g, start, Day, e, s);
        CountOpposite(f, g, start, Day);
      }
    }
  }

  /** Whatever repeats is counted equally often in every stretch of one period. */
  lemma PeriodShifted(f: int -> bool, period: nat, start: int)
    requires period > 0 && f(start) == f(start + period)
    ensures Count(f, start, period) == Count(f, start + 1, period)
  {
    CountSplit(f, start, 1, period - 1);
    CountSplit(f, start + 1, period - 1, 1);
    assert Count(f, start, 1) == Count(f, start, 0) + if f(start) then 1 else 0;
    assert Count(f, start + period, 1) == Count(f, start + period, 0) + if f(start + period) then 1 else 0;
  }

  lemma {:induction false} EveryPeriodAlike(f: int -> bool, period: nat, a: int, b: int)
    requires period > 0 && forall t :: f(t) == f(t + period)
    ensures Count(f, a, period) == Count(f, b, period)
    decreases if a <= b then b - a else a - b
  {
    if a < b {
      PeriodShifted(f, period, a);
      EveryPeriodAlike(f, period, a + 1, b);
    } else if a > b {
      PeriodShifted(f, period, b);
      EveryPeriodAlike(f, period, a, b + 1);
    }
  }

  // ----- a week in a zone without clock changes -----

  function At(s: Schedule): int -> bool {
    t => ScheduleSuppresses(s, t)
  }

  function LengthOf(w: Option<Window>): nat {
    if w.None? then 0 else Length(w.value)
  }

  ghost predicate AlwaysOffset(s: Schedule, offset: int) {
    s.zone.Some? && forall t :: s.zone.value(t) == offset
  }

  ghost predicate ReadableSchedule(s: Schedule) {
    (s.weekday.Some? ==> Readable(s.weekday.value)) && (s.weekend.Some? ==> Readable(s.weekend.value))
  }

  lemma DayAndMinute(day: int, k: nat)
    requires k < Day
    ensures (day * Day + k) / Day == day && (day * Day + k) % Day == k
  {
  }

  /** One local day has as many suppressed minutes as its window is long. */
  lemma ScheduledDay(s: Schedule, offset: int, day: int)
    requires ReadableSchedule(s) && AlwaysOffset(s, offset)
    ensures Count(At(s), day * Day - offset, Day) == LengthOf(if (day + 3) % 7 >= 5 then s.weekend else s.weekday)
  {
    var start := day * Day - offset;
    var w := if (day + 3) % 7 >= 5 then s.weekend else s.weekday;
    var shown := if w.None? then Window(None, None) else w.value;
    forall t | start <= t < start + Day
      ensures At(s)(t) == WindowContains(shown, t - start)
    {
      DayAndMinute(day, t - start);
      assert t + s.zone.value(t) == day * Day + (t - start);
    }
    DayCount(At(s), start, shown);
  }

  lemma WeekLater(s: Schedule, offset: int, t: int)
    requires AlwaysOffset(s, offset)
    ensures At(s)(t) == At(s)(t + Week)
  {
    var local := t + offset;
    assert t + s.zone.value(t) == local && t + Week + s.zone.value(t + Week) == local + Week;
    WeekOn(local);
  }

  lemma WeekOn(local: int)
    ensures DayOfWeek(local + Week) == DayOfWeek(local) && (local + Week) % Day == local % Day
  {
    assert (local + Week) / Day == local / Day + 7;
  }

  /** From Monday on. */
  function DaysTotal(s: Schedule, n: nat): nat {
    if n == 0 then 0 else DaysTotal(s, n - 1) + LengthOf(if n > 5 then s.weekend else s.weekday)
  }

  lemma NthDay(s: Schedule, offset: int, monday: int, n: nat)
    requires ReadableSchedule(s) && AlwaysOffset(s, offset) && 1 <= n <= 7 && monday == 4 * Day - offset
    ensures Count(At(s), monday + (n - 1) * Day, Day) == LengthOf(if n > 5 then s.weekend else s.weekday)
  {
    ScheduledDay(s, offset, n + 3);
    assert (n + 3) * Day - offset == monday + (n - 1) * Day;
    assert (n + 3 + 3) % 7 == n - 1;
  }

  lemma {:induction false} DaysCount(s: Schedule, offset: int, monday: int, n: nat)
    requires ReadableSchedule(s) && AlwaysOffset(s, offset) && n <= 7 && monday == 4 * Day - offset
    ensures Count(At(s), monday, n * Day) == DaysTotal(s, n)
  {
    if n > 0 {
      DaysCount(s, offset, monday, n - 1);
      NthDay(s, offset, monday, n);
      hide Count, LengthOf, AlwaysOffset, ReadableSchedule, At;
      CountSplit(At(s), monday, (n - 1) * Day, Day);
    }
  }

  lemma WholeWeek(s: Schedule)
    ensures DaysTotal(s, 7) == 5 * LengthOf(s.weekday) + 2 * LengthOf(s.weekend)
  {
    var a := LengthOf(s.weekday);
    assert DaysTotal(s, 2) == DaysTotal(s, 1) + a == DaysTotal(s, 0) + a + a;
    assert DaysTotal(s, 4) == DaysTotal(s, 3) + a == DaysTotal(s, 2) + a + a;
    assert DaysTotal(s, 6) == DaysTotal(s, 5) + LengthOf(s.weekend);
  }

  /** Any seven days on end, starting at any minute, have five weekday windows and two weekend windows of quiet. */
  lemma WeekCount(s: Schedule, offset: int, start: int)
    requires ReadableSchedule(s) && AlwaysOffset(s, offset)
    ensures Count(At(s), start, Week) == 5 * LengthOf(s.weekday) + 2 * LengthOf(s.weekend)
  {
    forall t
      ensures At(s)(t) == At(s)(t + Week)
    {
      WeekLater(s, offset, t);
    }
    EveryPeriodAlike(At(s), Week, start, 4 * Day - offset);
    DaysCount(s, offset, 4 * Day - offset, 7);
    WholeWeek(s);
  }

  /** A stretch that begins paused: every minute of the pause, and from then on what the schedule says. */
  lemma PauseThenSchedule(s: Schedule, until: int, start: int, n: nat)
    requires start <= until <= start + n
    ensures Count(t => IsSuppressed(Some(s), Some(until), t), start, n) == (until - start) + Count(At(s), until, n - (until - start))
  {
    var f := t => IsSuppressed(Some(s), Some(until), t);
    var paused := until - start;
    CountSplit(f, start, paused, n - paused);
    CountBetween(f, start, paused, 0, paused);
    CountSame(f, At(s), until, n - paused);
  }

  lemma {:induction false} CountSame(f: int -> bool, g: int -> bool, start: int, n: nat)
    requires forall t :: start <= t < start + n ==> f(t) == g(t)
    ensures Count(f, start, n) == Count(g, start, n)
  {
    if n > 0 {
      CountSame(f, g, start, n - 1);
    }
  }
}
