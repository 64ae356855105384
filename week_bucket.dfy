/** Week bucketing relative to a reference instant `now` (today at noon on
    the local clock), and the calendar dates the daily view shows for a week. */
module WeekBucket {
  import opened Common

  const Day: int := 86400

  datatype Week = Week1 | Week2 | Week3 | Week4 {
    function Name(): string
    {
      match this
      case Week1 => "week1"
      case Week2 => "week2"
      case Week3 => "week3"
      case Week4 => "week4"
    }

    function Number(): int
    {
      match this
      case Week1 => 1
      case Week2 => 2
      case Week3 => 3
      case Week4 => 4
    }

    /** Whole days between the end of this week's interval and `now`. */
    function EndOffset(): int
    {
      7 * (4 - Number())
    }
  }

  function WeekStart(w: Week, now: int): int
  {
    now - (w.EndOffset() + 6) * Day
  }

  function WeekEnd(w: Week, now: int): int
  {
    now - w.EndOffset() * Day
  }

  /** The closed interval `[start, end]` of week `w` contains `t`. */
  predicate InWeek(w: Week, t: int, now: int)
  {
    WeekStart(w, now) <= t <= WeekEnd(w, now)
  }

  /** The `week_ranges` dictionary, in its insertion order (most recent first). */
  function WeekRanges(now: int): seq<(Week, int, int)>
  {
    [ (Week4, WeekStart(Week4, now), WeekEnd(Week4, now)),
      (Week3, WeekStart(Week3, now), WeekEnd(Week3, now)),
      (Week2, WeekStart(Week2, now), WeekEnd(Week2, now)),
      (Week1, WeekStart(Week1, now), WeekEnd(Week1, now)) ]
  }

  lemma RangesAreWeeks(now: int)
    ensures |WeekRanges(now)| == 4
    ensures forall k :: 0 <= k < 4 ==>
      var (w, start, end) := WeekRanges(now)[k];
      w.Number() == 4 - k && start == WeekStart(w, now) && end == WeekEnd(w, now)
  {
  }

  /** The bucket labels in the order a pivot's sorted columns show them. */
  const AllWeeks: seq<Week> := [Week1, Week2, Week3, Week4]

  /** The bucket of a (possibly missing) timestamp: the unique week whose
      interval holds it, or none. */
  function WeekOf(date: Option<int>, now: int): (bucket: Option<Week>)
    ensures date.None? ==> bucket.None?
    ensures forall w :: bucket == Some(w) <==> date.Some? && InWeek(w, date.value, now)
  {
    match date
    case None => None
    case Some(t) =>
      if InWeek(Week4, t, now) then Some(Week4)
      else if InWeek(Week3, t, now) then Some(Week3)
      else if InWeek(Week2, t, now) then Some(Week2)
      else if InWeek(Week1, t, now) then Some(Week1)
      else None
  }

  /** `assign_week_bucket` of the main page: a missing timestamp has no
      bucket; otherwise the first range in `week_ranges` that holds it. */
  method AssignWeekBucket(date: Option<int>, now: int) returns (bucket: Option<Week>)
    ensures bucket.Some? <==> date.Some? && exists w :: InWeek(w, date.value, now)
    ensures bucket.Some? ==> InWeek(bucket.value, date.value, now)
    ensures bucket == WeekOf(date, now)
  {
    if date.None? {
      return None;
    }
    var t := date.value;
    var ranges := WeekRanges(now);
    RangesAreWeeks(now);
    for i := 0 to |ranges|
      invariant forall w: Week :: w.Number() > 4 - i ==> !InWeek(w, t, now)
    {
      var (week, start, end) := ranges[i];
      if start <= t <= end {
        assert InWeek(week, t, now);
        return Some(week);
      }
    }
    return None;
  }

  /** `start <= date` on pandas timestamps: false when either side is NaT. */
  predicate TimestampLe(a: Option<int>, b: Option<int>)
  {
    a.Some? && b.Some? && a.value <= b.value
  }

  /** `assign_week_bucket` of the second dashboard and `assign_week` of the
      CLSA page: the same loop without the missing-value guard, where the
      comparisons against NaT are simply false. */
  method AssignWeekUnguarded(date: Option<int>, now: int) returns (bucket: Option<Week>)
    ensures bucket == WeekOf(date, now)
  {
    var ranges := WeekRanges(now);
    RangesAreWeeks(now);
    for i := 0 to |ranges|
      invariant forall w: Week :: w.Number() > 4 - i ==> date.None? || !InWeek(w, date.value, now)
    {
      var (week, start, end) := ranges[i];
      if TimestampLe(Some(start), date) && TimestampLe(date, Some(end)) {
        assert InWeek(week, date.value, now);
        return Some(week);
      }
    }
    return None;
  }

  /** No timestamp lies in two weeks' intervals. */
  lemma IntervalsDisjoint(v: Week, w: Week, t: int, now: int)
    requires InWeek(v, t, now) && InWeek(w, t, now)
    ensures v == w
  {
  }

  /** Each interval is six days long, and the next-older week ends a whole
      day before the next-newer one starts: the windows leave 24-hour gaps. */
  lemma IntervalLayout(now: int)
    ensures forall w :: WeekEnd(w, now) - WeekStart(w, now) == 6 * Day
    ensures WeekStart(Week4, now) - WeekEnd(Week3, now) == Day
    ensures WeekStart(Week3, now) - WeekEnd(Week2, now) == Day
    ensures WeekStart(Week2, now) - WeekEnd(Week1, now) == Day
    ensures WeekEnd(Week4, now) == now && WeekStart(Week1, now) == now - 27 * Day
  {
  }

  /** Strictly between two consecutive windows. */
  predicate InGap(t: int, now: int)
  {
    || WeekEnd(Week3, now) < t < WeekStart(Week4, now)
    || WeekEnd(Week2, now) < t < WeekStart(Week3, now)
    || WeekEnd(Week1, now) < t < WeekStart(Week2, now)
  }

  /** A present timestamp is left unbucketed exactly when it is after `now`,
      more than 27 days before it, or inside one of the three gaps. */
  lemma UnbucketedExactly(t: int, now: int)
    ensures WeekOf(Some(t), now).None? <==> t > now || t < now - 27 * Day || InGap(t, now)
  {
  }

  /** Twelve hours before the start of week4 is a present timestamp with no bucket. */
  lemma GapExample(now: int)
    ensures WeekOf(Some(now - 6 * Day - Day / 2), now) == None
    ensures WeekOf(Some(now - 6 * Day), now) == Some(Week4)
    ensures WeekOf(Some(now - 7 * Day), now) == Some(Week3)
  {
  }

  // ---------------------------------------------------------------------
  // Calendar dates of the daily view.

  /** The calendar date (days since the epoch) of a local timestamp
      (`.dt.date`): the day whose midnight-to-midnight span holds `t`. */
  function DayOf(t: int): (d: int)
    ensures d * Day <= t < d * Day + Day
  {
    t / Day
  }

  /** `pd.date_range(week_start, week_end).date`: one date per day from the
      week's start to its end. */
  function WeekDates(w: Week, now: int): (dates: seq<int>)
    ensures |dates| == 7
    ensures forall i :: 0 <= i < 7 ==> dates[i] == DayOf(WeekStart(w, now) + i * Day)
  {
    var first := DayOf(WeekStart(w, now));
    var dates := seq(7, i => first + i);
    assert forall i :: 0 <= i < 7 ==> DayOf(WeekStart(w, now) + i * Day) == first + i by {
      forall i | 0 <= i < 7 ensures DayOf(WeekStart(w, now) + i * Day) == first + i {
        DayShift(WeekStart(w, now), i);
      }
    }
    dates
  }

  lemma DayShift(t: int, n: int)
    ensures DayOf(t + n * Day) == DayOf(t) + n
  {
    var q, r := t / Day, t % Day;
    assert t == q * Day + r && 0 <= r < Day;
    assert t + n * Day == (q + n) * Day + r;
  }

  lemma DayMonotone(a: int, b: int)
    requires a <= b
    ensures DayOf(a) <= DayOf(b)
  {
    var qa, ra := a / Day, a % Day;
    var qb, rb := b / Day, b % Day;
    assert a == qa * Day + ra && b == qb * Day + rb;
  }

  /** The seven dates are consecutive, run from the date of the week's start
      to the date of its end, and hold the date of every bucketed timestamp. */
  lemma WeekDatesCoverWeek(w: Week, now: int, t: int)
    ensures forall i :: 0 < i < 7 ==> WeekDates(w, now)[i] == WeekDates(w, now)[i - 1] + 1
    ensures WeekDates(w, now)[0] == DayOf(WeekStart(w, now))
    ensures WeekDates(w, now)[6] == DayOf(WeekEnd(w, now))
    ensures InWeek(w, t, now) ==> DayOf(t) in WeekDates(w, now)
  {
    var dates := WeekDates(w, now);
    var s := WeekStart(w, now);
    DayShift(s, 0);
    forall i | 0 < i < 7 ensures dates[i] == dates[i - 1] + 1 {
      DayShift(s, i);
      DayShift(s, i - 1);
    }
    assert WeekEnd(w, now) == s + 6 * Day;
    if InWeek(w, t, now) {
      DayMonotone(s, t);
      DayMonotone(t, s + 6 * Day);
      DayShift(s, 6);
      var k := DayOf(t) - DayOf(s);
      assert 0 <= k < 7;
      DayShift(s, k);
      assert dates[k] == DayOf(t);
    }
  }

  lemma WeekCases(w: Week)
    ensures w == Week1 || w == Week2 || w == Week3 || w == Week4
  {
  }

  /** The four bucket labels, each once. */
  lemma AllWeeksDistinct()
    ensures Distinct(AllWeeks)
    ensures forall w: Week :: w in AllWeeks
  {
    forall w: Week ensures w in AllWeeks { WeekCases(w); }
  }

  /** `sorted(week_bucket.dropna().unique(), reverse=True)`: the weeks in use,
      newest first. */
  function UsedWeeksDescending(buckets: seq<Option<Week>>): (weeks: seq<Week>)
    ensures forall w :: w in weeks <==> Some(w) in buckets
    ensures forall i, j :: 0 <= i < j < |weeks| ==> weeks[i].Number() > weeks[j].Number()
  {
    var weeks :=
      (if Some(Week4) in buckets then [Week4] else [])
      + (if Some(Week3) in buckets then [Week3] else [])
      + (if Some(Week2) in buckets then [Week2] else [])
      + (if Some(Week1) in buckets then [Week1] else []);
    assert forall w :: w in weeks <==> Some(w) in buckets by {
      forall w: Week ensures w in weeks <==> Some(w) in buckets {
        WeekCases(w);
      }
    }
    weeks
  }
}
