/**
 The SSL Labs scheduler (app/utils/ssllabs.py, rescheduling in app/services/ssllabs.py).
 An instant is a number of microseconds since the start of 1 January of year 1, in UTC.
 */
module Schedule {
  import opened Wrappers

  // ---------------------------------------------------------------- the calendar

  type Instant = int

  const SECOND: int := 1_000_000
  const DAY: int := 86_400 * SECOND

  predicate IsLeap(year: int) {
    year % 4 == 0 && (year % 100 != 0 || year % 400 == 0)
  }

  /** Days from the epoch to 1 January of a year, in the proleptic Gregorian calendar. */
  function YearStart(year: int): int {
    var y := year - 1;
    365 * y + y / 4 - y / 100 + y / 400
  }

  /** Days of the year before month `n` (0 is January). */
  function DaysBefore(n: int, leap: bool): int
    requires 0 <= n < 12
  {
    [0, 31, 59, 90, 120, 151, 181, 212, 243, 273, 304, 334][n] + (if leap && n >= 2 then 1 else 0)
  }

  /** First day of month `m`; month 0 is January of year 1. */
  function MonthStart(m: int): int {
    YearStart(m / 12 + 1) + DaysBefore(m % 12, IsLeap(m / 12 + 1))
  }

  /** `calendar.monthrange(...)[1]`. */
  function MonthLength(m: int): int {
    var n := m % 12;
    if n == 1 then (if IsLeap(m / 12 + 1) then 29 else 28)
    else if n == 3 || n == 5 || n == 8 || n == 10 then 30
    else 31
  }

  lemma Fours(n: int)
    ensures n / 4 == (n - 1) / 4 + (if n % 4 == 0 then 1 else 0)
  {
  }

  lemma Hundreds(n: int)
    ensures n / 100 == (n - 1) / 100 + (if n % 100 == 0 then 1 else 0)
    ensures n % 100 == 0 ==> n % 4 == 0
  {
  }

  lemma FourHundreds(n: int)
    ensures n / 400 == (n - 1) / 400 + (if n % 400 == 0 then 1 else 0)
    ensures n % 400 == 0 ==> n % 100 == 0
  {
  }

  lemma YearStep(year: int)
    ensures YearStart(year + 1) == YearStart(year) + if IsLeap(year) then 366 else 365
  {
    Fours(year);
    Hundreds(year);
    FourHundreds(year);
  }

  lemma MonthIndex(m: int)
    ensures m % 12 < 11 ==> (m + 1) % 12 == m % 12 + 1 && (m + 1) / 12 == m / 12
    ensures m % 12 == 11 ==> (m + 1) % 12 == 0 && (m + 1) / 12 == m / 12 + 1
  {
  }

  /** Months follow each other without gap. */
  lemma MonthStep(m: int)
    ensures MonthStart(m + 1) == MonthStart(m) + MonthLength(m)
    ensures 28 <= MonthLength(m) <= 31
  {
    MonthIndex(m);
    YearStep(m / 12 + 1);
    hide YearStart, IsLeap;
  }

  function MonthFrom(day: int, m: int): (r: int)
    requires MonthStart(m) <= day
    ensures MonthStart(r) <= day < MonthStart(r + 1)
    decreases day - MonthStart(m)
  {
    hide *;
    MonthStep(m);
    if day < MonthStart(m + 1) then m else MonthFrom(day, m + 1)
  }

  function MonthBack(day: int, m: int): (r: int)
    requires day < MonthStart(m)
    ensures MonthStart(r) <= day < MonthStart(r + 1)
    decreases MonthStart(m) - day
  {
    hide *;
    MonthStep(m - 1);
    if MonthStart(m - 1) <= day then m - 1 else MonthBack(day, m - 1)
  }

  /** The month a day falls into. */
  function MonthOf(day: int): (m: int)
    ensures MonthStart(m) <= day < MonthStart(m + 1)
  {
    hide *;
    if day >= MonthStart(0) then MonthFrom(day, 0) else MonthBack(day, 0)
  }

  lemma {:induction false} LaterMonths(m: int, n: int)
    requires m <= n
    ensures MonthStart(m) <= MonthStart(n)
    decreases n - m
  {
    if m < n {
      hide *;
      LaterMonths(m, n - 1);
      MonthStep(n - 1);
    }
  }

  /** A day falls into one month only. */
  lemma MonthIsUnique(day: int, m: int)
    requires MonthStart(m) <= day < MonthStart(m + 1)
    ensures MonthOf(day) == m
  {
    var r := MonthOf(day);
    hide *;
    if r < m {
      LaterMonths(r + 1, m);
    } else if m < r {
      LaterMonths(m + 1, r);
    }
  }

  /** Month, day of the month (from 1), and time of day. */
  function Month(i: Instant): int {
    MonthOf(i / DAY)
  }

  function DayOfMonth(i: Instant): int {
    i / DAY - MonthStart(MonthOf(i / DAY)) + 1
  }

  function TimeOfDay(i: Instant): int {
    i % DAY
  }

  function At(m: int, day: int, time: int): Instant {
    (MonthStart(m) + day - 1) * DAY + time
  }

  lemma DayBounds(i: Instant)
    ensures 1 <= DayOfMonth(i) <= MonthLength(Month(i))
    ensures 0 <= TimeOfDay(i) < DAY
    ensures i == At(Month(i), DayOfMonth(i), TimeOfDay(i))
  {
    hide MonthStart, MonthLength, MonthOf;
    MonthStep(MonthOf(i / DAY));
    DayParts(i);
    hide DAY;
  }

  lemma DayParts(i: Instant)
    ensures 0 <= i % DAY < DAY && i == (i / DAY) * DAY + i % DAY
  {
  }

  lemma AtParts(m: int, day: int, time: int)
    requires 1 <= day <= MonthLength(m) && 0 <= time < DAY
    ensures Month(At(m, day, time)) == m && DayOfMonth(At(m, day, time)) == day && TimeOfDay(At(m, day, time)) == time
  {
    hide MonthStart, MonthLength, MonthOf, IsLeap;
    var days := MonthStart(m) + day - 1;
    DivDay(days, time);
    MonthStep(m);
    MonthIsUnique(days, m);
  }

  lemma DivDay(days: int, time: int)
    requires 0 <= time < DAY
    ensures (days * DAY + time) / DAY == days && (days * DAY + time) % DAY == time
  {
  }

  // ---------------------------------------------------------------- the schedule

  datatype Frequency = Weekly | Monthly

  function Min(a: int, b: int): int {
    if a < b then a else b
  }

  /** `_advance_schedule_base`. */
  function Advance(f: Frequency, i: Instant): Instant {
    match f
    case Weekly => i + 7 * DAY
    case Monthly =>
      var m := Month(i) + 1;
      At(m, Min(DayOfMonth(i), MonthLength(m)), TimeOfDay(i))
  }

  /** The k-th occurrence after a base, without jitter. */
  function Occurrence(f: Frequency, base: Instant, k: nat): Instant {
    if k == 0 then base else Advance(f, Occurrence(f, base, k - 1))
  }

  lemma AdvanceMonth(i: Instant)
    ensures var m, r := Month(i) + 1, Advance(Monthly, i);
            && r == At(m, Min(DayOfMonth(i), MonthLength(m)), TimeOfDay(i))
            && Month(r) == m && DayOfMonth(r) == Min(DayOfMonth(i), MonthLength(m)) && TimeOfDay(r) == TimeOfDay(i)
  {
    hide Month, DayOfMonth, TimeOfDay, MonthLength, At;
    var m := Month(i) + 1;
    DayBounds(i);
    MonthStep(m);
    AtParts(m, Min(DayOfMonth(i), MonthLength(m)), TimeOfDay(i));
  }

  lemma AtDistance(m: int, day: int, n: int, other: int, time: int, low: int, high: int)
    requires low <= MonthStart(n) + other - MonthStart(m) - day <= high
    ensures At(m, day, time) + low * DAY <= At(n, other, time) <= At(m, day, time) + high * DAY
  {
    hide MonthStart;
  }

  /** Consecutive weekly occurrences are 7 days apart, monthly ones 28 to 31 days, at the same time of day. */
  lemma StepLength(f: Frequency, i: Instant)
    ensures match f
            case Weekly => Advance(f, i) == i + 7 * DAY
            case Monthly => i + 28 * DAY <= Advance(f, i) <= i + 31 * DAY
    ensures TimeOfDay(Advance(f, i)) == TimeOfDay(i)
  {
    hide Month, DayOfMonth, TimeOfDay, MonthStart, MonthLength, At, DAY;
    if f == Monthly {
      var m, day, time := Month(i), DayOfMonth(i), TimeOfDay(i);
      DayBounds(i);
      MonthStep(m);
      MonthStep(m + 1);
      AdvanceMonth(i);
      AtDistance(m, day, m + 1, Min(day, MonthLength(m + 1)), time, 28, 31);
    } else {
      WeekLater(i);
    }
  }

  lemma WeekLater(i: Instant)
    ensures TimeOfDay(i + 7 * DAY) == TimeOfDay(i)
  {
    assert i + 7 * DAY == (i / DAY + 7) * DAY + i % DAY;
    DivDay(i / DAY + 7, i % DAY);
  }

  /** The least length of the months `m + 1 .. m + k`, and `day` if that is less. */
  function Clamped(m: int, day: int, k: nat): int {
    if k == 0 then day else Min(Clamped(m, day, k - 1), MonthLength(m + k))
  }

  /**
   After k monthly steps the day of the month is the start day, or the length of the shortest month
   passed if that is less: a day once lost is not regained.
   */
  lemma {:induction false} MonthlyDay(base: Instant, k: nat)
    ensures var r := Occurrence(Monthly, base, k);
            && Month(r) == Month(base) + k
            && DayOfMonth(r) == Clamped(Month(base), DayOfMonth(base), k)
            && TimeOfDay(r) == TimeOfDay(base)
  {
    hide Month, DayOfMonth, TimeOfDay, MonthLength, Advance;
    if k > 0 {
      MonthlyDay(base, k - 1);
      AdvanceMonth(Occurrence(Monthly, base, k - 1));
    }
  }

  lemma {:induction false} OccurrencesAdd(f: Frequency, base: Instant, j: nat, k: nat)
    ensures Occurrence(f, Occurrence(f, base, j), k) == Occurrence(f, base, j + k)
  {
    hide Advance;
    if k > 0 {
      OccurrencesAdd(f, base, j, k - 1);
    }
  }

  // ---------------------------------------------------------------- jitter

  function Name(f: Frequency): string {
    match f case Weekly => "weekly" case Monthly => "monthly"
  }

  /** `_deterministic_jitter_seconds`; `digest` stands for the first eight bytes of SHA-256. */
  function JitterSeconds(digest: string -> nat, key: string, max: int): (r: nat)
    ensures max > 0 ==> r <= max
    ensures max <= 0 ==> r == 0
  {
    if max <= 0 then 0 else digest(key) % (max + 1)
  }

  /** The jitter of a schedule; the key names the frequency as well. */
  function Jitter(digest: string -> nat, f: Frequency, key: Option<string>, maxSeconds: int): int {
    if key.None? then 0 else JitterSeconds(digest, Name(f) + ":" + key.value, maxSeconds) * SECOND
  }

  // ---------------------------------------------------------------- the next time

  /** `r` is the first occurrence after the base that lies strictly after `minimum`. */
  ghost predicate IsNext(f: Frequency, base: Instant, jitter: int, minimum: Option<Instant>, r: Instant) {
    exists k: nat :: IsNextAt(f, base, jitter, minimum, r, k)
  }

  predicate IsNextAt(f: Frequency, base: Instant, jitter: int, minimum: Option<Instant>, r: Instant, k: nat) {
    && k >= 1 && r == Occurrence(f, base, k) + jitter
    && match minimum
       case None => k == 1
       case Some(t) => r > t && forall j :: 1 <= j < k ==> Occurrence(f, base, j) + jitter <= t
  }

  /** `next_schedule_time`. */
  method NextScheduleTime(digest: string -> nat, f: Frequency, reference: Instant, key: Option<string>, maxSeconds: int,
                          minimum: Option<Instant>, includesJitter: bool) returns (r: Instant)
    ensures var jitter := Jitter(digest, f, key, maxSeconds);
            IsNext(f, if includesJitter then reference - jitter else reference, jitter, minimum, r)
  {
    hide Advance, Jitter, SECOND, DAY;
    var jitter := Jitter(digest, f, key, maxSeconds);
    var base := if includesJitter then reference - jitter else reference;
    var candidate := base;
    ghost var k := 0;
    while true
      invariant candidate == Occurrence(f, base, k)
      invariant forall j :: 1 <= j <= k ==> minimum.Some? && Occurrence(f, base, j) + jitter <= minimum.value
      decreases if minimum.None? then 1 - k else minimum.value - candidate - jitter
    {
      Grows(f, candidate);
      candidate := Advance(f, candidate);
      k := k + 1;
      r := candidate + jitter;
      if minimum.None? || r > minimum.value {
        assert IsNextAt(f, base, jitter, minimum, r, k);
        return;
      }
    }
  }

  lemma Grows(f: Frequency, i: Instant)
    ensures Advance(f, i) > i
  {
    StepLength(f, i);
    hide Advance, TimeOfDay;
  }

  lemma {:induction false} OccurrencesGrow(f: Frequency, base: Instant, j: nat, k: nat)
    requires j < k
    ensures Occurrence(f, base, j) < Occurrence(f, base, k)
  {
    hide Advance;
    Grows(f, Occurrence(f, base, k - 1));
    if j < k - 1 {
      OccurrencesGrow(f, base, j, k - 1);
    }
  }

  /** `r` is an occurrence later than `t`, and none of those is earlier. */
  ghost predicate IsLeastAfter(f: Frequency, base: Instant, jitter: int, t: Instant, r: Instant) {
    && r > t && (exists k: nat :: k > 0 && r == Occurrence(f, base, k) + jitter)
    && forall k: nat :: k > 0 && Occurrence(f, base, k) + jitter > t ==> r <= Occurrence(f, base, k) + jitter
  }

  /** Without a minimum the next time is the first occurrence; else it is the least later occurrence there is. */
  lemma NextIsLeast(f: Frequency, base: Instant, jitter: int, minimum: Option<Instant>, r: Instant)
    ensures IsNext(f, base, jitter, minimum, r) <==>
              match minimum
              case None => r == Advance(f, base) + jitter
              case Some(t) => IsLeastAfter(f, base, jitter, t, r)
  {
    hide *;
    FirstOccurrence(f, base);
    match minimum
    case None => NextWithoutMinimum(f, base, jitter, r);
    case Some(t) =>
      if IsNext(f, base, jitter, Some(t), r) {
        NextGivesLeast(f, base, jitter, t, r);
      }
      if IsLeastAfter(f, base, jitter, t, r) {
        LeastGivesNext(f, base, jitter, t, r);
      }
  }

  lemma NextWithoutMinimum(f: Frequency, base: Instant, jitter: int, r: Instant)
    ensures IsNext(f, base, jitter, None, r) <==> r == Occurrence(f, base, 1) + jitter
  {
    hide Advance, Occurrence;
    if r == Occurrence(f, base, 1) + jitter {
      assert IsNextAt(f, base, jitter, None, r, 1);
    }
  }

  lemma NextGivesLeast(f: Frequency, base: Instant, jitter: int, t: Instant, r: Instant)
    requires IsNext(f, base, jitter, Some(t), r)
    ensures IsLeastAfter(f, base, jitter, t, r)
  {
    hide Advance, Occurrence;
    var k: nat :| IsNextAt(f, base, jitter, Some(t), r, k);
    forall i: nat | i > 0 && Occurrence(f, base, i) + jitter > t ensures r <= Occurrence(f, base, i) + jitter {
      if k < i {
        OccurrencesGrow(f, base, k, i);
      }
    }
  }

  lemma LeastGivesNext(f: Frequency, base: Instant, jitter: int, t: Instant, r: Instant)
    requires IsLeastAfter(f, base, jitter, t, r)
    ensures IsNext(f, base, jitter, Some(t), r)
  {
    hide Advance, Occurrence;
    var k: nat :| k > 0 && r == Occurrence(f, base, k) + jitter;
    forall j | 1 <= j < k ensures Occurrence(f, base, j) + jitter <= t {
      OccurrencesGrow(f, base, j, k);
    }
    assert IsNextAt(f, base, jitter, Some(t), r, k);
  }

  lemma FirstOccurrence(f: Frequency, base: Instant)
    ensures Occurrence(f, base, 1) == Advance(f, base)
  {
    hide Advance;
    assert Occurrence(f, base, 0) == base;
  }

  /** There is only one such time. */
  lemma NextIsUnique(f: Frequency, base: Instant, jitter: int, minimum: Option<Instant>, a: Instant, b: Instant)
    requires IsNext(f, base, jitter, minimum, a) && IsNext(f, base, jitter, minimum, b)
    ensures a == b
  {
    hide Occurrence;
    var j: nat :| IsNextAt(f, base, jitter, minimum, a, j);
    var k: nat :| IsNextAt(f, base, jitter, minimum, b, k);
  }

  // ---------------------------------------------------------------- rescheduling after a scan

  const WEEKLY_JITTER: int := 24 * 3600
  const MONTHLY_JITTER: int := 2 * 24 * 3600

  function MaxJitter(f: Frequency): int {
    match f case Weekly => WEEKLY_JITTER case Monthly => MONTHLY_JITTER
  }

  /** The jitter of a target: digits of its key's digest, up to one day for weekly scans and two for monthly ones. */
  lemma JitterIs(digest: string -> nat, key: string)
    ensures Jitter(digest, Weekly, Some(key), MaxJitter(Weekly)) == digest("weekly:" + key) % 86401 * 1_000_000
    ensures Jitter(digest, Monthly, Some(key), MaxJitter(Monthly)) == digest("monthly:" + key) % 172801 * 1_000_000
    ensures forall max :: max > 0 ==>
              Jitter(digest, Weekly, Some(key), max) == digest("weekly:" + key) % (max + 1) * 1_000_000
    ensures forall f, max :: max <= 0 ==> Jitter(digest, f, Some(key), max) == 0
    ensures forall f, max :: Jitter(digest, f, None, max) == 0
  {
    assert "weekly" + ":" + key == "weekly:" + key && "monthly" + ":" + key == "monthly:" + key;
  }

  class Target {
    const key: string
    var frequency: Option<Frequency>
    var next: Option<Instant>
    var completedAt: Option<Instant>

    constructor (key: string, frequency: Option<Frequency>)
      ensures this.key == key && this.frequency == frequency && next == None && completedAt == None
    {
      this.key, this.frequency, next, completedAt := key, frequency, None, None;
    }

    function JitterOf(digest: string -> nat, f: Frequency): int {
      Jitter(digest, f, Some(key), MaxJitter(f))
    }

    /** The rescheduling part of `_mark_scan_state`. */
    method MarkScanState(digest: string -> nat, completed: bool, now: Instant)
      modifies this
      ensures frequency == old(frequency)
      ensures !completed ==> next == old(next) && completedAt == old(completedAt)
      ensures completed ==> completedAt == Some(now)
      ensures completed && frequency.None? ==> next == None
      ensures completed && frequency.Some? ==>
        && next.Some? && next.value > now
        && (old(next).Some? && old(next).value > now ==> next == old(next))
        && (old(next).None? ==> IsNext(frequency.value, now, JitterOf(digest, frequency.value), None, next.value))
        && (old(next).Some? && old(next).value <= now ==>
             IsNext(frequency.value, old(next).value - JitterOf(digest, frequency.value),
               JitterOf(digest, frequency.value), Some(now), next.value))
    {
      hide Jitter, MaxJitter, IsNext;
      if !completed {
        return;
      }
      completedAt := Some(now);
      if frequency.None? {
        next := None;
        return;
      }
      var f := frequency.value;
      if next.None? {
        var r := NextScheduleTime(digest, f, now, Some(key), MaxJitter(f), None, false);
        JitterIsPositive(digest, f, Some(key), MaxJitter(f));
        FirstIsLater(f, now, JitterOf(digest, f), r);
        next := Some(r);
      } else if next.value <= now {
        var r := NextScheduleTime(digest, f, next.value, Some(key), MaxJitter(f), Some(now), true);
        NextIsLater(f, next.value - JitterOf(digest, f), JitterOf(digest, f), now, r);
        next := Some(r);
      }
    }
  }

  lemma JitterIsPositive(digest: string -> nat, f: Frequency, key: Option<string>, max: int)
    ensures 0 <= Jitter(digest, f, key, max)
    ensures max > 0 ==> Jitter(digest, f, key, max) <= max * SECOND
  {
  }

  lemma FirstIsLater(f: Frequency, base: Instant, jitter: int, r: Instant)
    requires IsNext(f, base, jitter, None, r) && jitter >= 0
    ensures r > base
  {
    Grows(f, base);
    hide Advance;
    assert Occurrence(f, base, 1) == Advance(f, Occurrence(f, base, 0));
  }

  lemma NextIsLater(f: Frequency, base: Instant, jitter: int, minimum: Instant, r: Instant)
    requires IsNext(f, base, jitter, Some(minimum), r)
    ensures r > minimum
  {
    hide Occurrence;
  }

  /** A scheduled time that is an occurrence of `start` with the jitter added once. */
  ghost predicate OnGrid(f: Frequency, start: Instant, jitter: int, scheduled: Instant) {
    exists k: nat :: scheduled == Occurrence(f, start, k) + jitter
  }

  /**
   Jitter never accumulates: rescheduling a time on the grid of `start` gives a later time on the
   same grid, with the jitter added once.
   */
  lemma RescheduleStaysOnGrid(f: Frequency, start: Instant, jitter: int, scheduled: Instant, now: Instant, r: Instant)
    requires OnGrid(f, start, jitter, scheduled) && scheduled <= now
    requires IsNext(f, scheduled - jitter, jitter, Some(now), r)
    ensures OnGrid(f, start, jitter, r) && r > now
  {
    hide Advance, Occurrence;
    var k: nat :| scheduled == Occurrence(f, start, k) + jitter;
    var j: nat :| IsNextAt(f, scheduled - jitter, jitter, Some(now), r, j);
    OccurrencesAdd(f, start, k, j);
    assert r == Occurrence(f, start, k + j) + jitter;
  }

  /** The times a target takes in a run of completed scans. */
  ghost predicate IsRun(f: Frequency, jitter: int, times: seq<Instant>, nows: seq<Instant>) {
    && |times| == |nows| + 1
    && forall k :: 0 <= k < |nows| ==>
         if times[k] > nows[k] then times[k + 1] == times[k]
         else IsNext(f, times[k] - jitter, jitter, Some(nows[k]), times[k + 1])
  }

  /** Over any run of completed scans the schedule stays on the grid of the first reference. */
  lemma {:induction false} RunStaysOnGrid(f: Frequency, start: Instant, jitter: int, times: seq<Instant>,
      nows: seq<Instant>)
    requires IsRun(f, jitter, times, nows) && OnGrid(f, start, jitter, times[0])
    ensures forall k :: 0 <= k < |times| ==> OnGrid(f, start, jitter, times[k])
  {
    hide OnGrid, IsNext;
    if |nows| > 0 {
      var n := |nows| - 1;
      RunStaysOnGrid(f, start, jitter, times[..n + 1], nows[..n]);
      assert times[..n + 1][n] == times[n];
      if times[n] <= nows[n] {
        RescheduleStaysOnGrid(f, start, jitter, times[n], nows[n], times[n + 1]);
      }
      forall k | 0 <= k < |times| ensures OnGrid(f, start, jitter, times[k]) {
        if k <= n {
          assert times[..n + 1][k] == times[k];
        }
      }
    }
  }
}
