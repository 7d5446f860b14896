/** The week view: the day records of one week, how many of them are
    completed, their hours, and the bounds of the week buttons. The
    completed days arrive as a set; only membership is asked of it. */
module WeeklyOverview {
  import opened Common
  import opened LearningPlanGenerator

  /** The number of the last course week. */
  const LastWeek := 13

  /** First day of week `w`: `(w - 1) * 7 + 1`. */
  function WeekStartDay(w: int): int
  {
    (w - 1) * 7 + 1
  }

  /** Last day of week `w`: `Math.min(startDay + 6, 90)`. */
  function WeekEndDay(w: int): (e: int)
    ensures e <= CourseDays && e <= WeekStartDay(w) + 6
    ensures e == WeekStartDay(w) + 6 || e == CourseDays
  {
    if WeekStartDay(w) + 6 <= CourseDays then WeekStartDay(w) + 6 else CourseDays
  }

  predicate InWeek(day: int, w: int)
  {
    WeekStartDay(w) <= day <= WeekEndDay(w)
  }

  /** `getWeekDays`: the records whose day lies in the week, in input order. */
  function GetWeekDays(days: seq<DayContent>, w: int): (r: seq<DayContent>)
    ensures |r| <= |days|
    ensures forall x :: x in r <==> x in days && InWeek(x.day, w)
  {
    if days == [] then []
    else if InWeek(days[0].day, w) then [days[0]] + GetWeekDays(days[1..], w)
    else GetWeekDays(days[1..], w)
  }

  /** The entries of `weekDays` whose day is completed. */
  function CompletedEntries(weekDays: seq<DayContent>, completed: set<int>): (r: seq<DayContent>)
    ensures |r| <= |weekDays|
    ensures forall x :: x in r <==> x in weekDays && x.day in completed
  {
    if weekDays == [] then []
    else if weekDays[0].day in completed then [weekDays[0]] + CompletedEntries(weekDays[1..], completed)
    else CompletedEntries(weekDays[1..], completed)
  }

  /** `completedThisWeek`. */
  function CompletedThisWeek(weekDays: seq<DayContent>, completed: set<int>): (n: int)
    ensures 0 <= n <= |weekDays|
  {
    |CompletedEntries(weekDays, completed)|
  }

  /** Sum of `timeAllocation` over a list of records. */
  function Hours(ds: seq<DayContent>): int
  {
    if ds == [] then 0 else ds[0].timeAllocation + Hours(ds[1..])
  }

  /** `totalHoursThisWeek`. */
  function TotalHoursThisWeek(weekDays: seq<DayContent>): int
  {
    Hours(weekDays)
  }

  /** `completedHoursThisWeek`. */
  function CompletedHoursThisWeek(weekDays: seq<DayContent>, completed: set<int>): int
  {
    Hours(CompletedEntries(weekDays, completed))
  }

  /** The week the "previous" button goes to; it does nothing in week 1. */
  function PreviousWeek(w: int): (r: Option<int>)
    ensures r.Some? <==> w > 1
    ensures r.Some? ==> r.value == w - 1
  {
    if w > 1 then Some(w - 1) else None
  }

  /** The week the "next" button goes to; it does nothing in week 13. */
  function NextWeek(w: int): (r: Option<int>)
    ensures r.Some? <==> w < LastWeek
    ensures r.Some? ==> r.value == w + 1
  {
    if w < LastWeek then Some(w + 1) else None
  }

  /* ---------------- properties ---------------- */

  /** Days strictly ascending along the list. */
  predicate AscendingDays(ds: seq<DayContent>)
  {
    forall i, j :: 0 <= i < j < |ds| ==> ds[i].day < ds[j].day
  }

  lemma PrependAscending(x: DayContent, rest: seq<DayContent>)
    requires AscendingDays(rest)
    requires forall y :: y in rest ==> x.day < y.day
    ensures AscendingDays([x] + rest)
  {
    var r := [x] + rest;
    forall i, j | 0 <= i < j < |r| ensures r[i].day < r[j].day {
      assert r[j] == rest[j - 1];
      if i > 0 {
        assert r[i] == rest[i - 1];
      }
    }
  }

  /** The week filter keeps the order of its input: a list sorted by day
      stays sorted. */
  lemma {:induction false} WeekDaysKeepOrder(days: seq<DayContent>, w: int)
    requires AscendingDays(days)
    ensures AscendingDays(GetWeekDays(days, w))
  {
    if days != [] {
      var tail := days[1..];
      assert AscendingDays(tail) by {
        forall i, j | 0 <= i < j < |tail| ensures tail[i].day < tail[j].day {
          assert tail[i] == days[i + 1] && tail[j] == days[j + 1];
        }
      }
      WeekDaysKeepOrder(tail, w);
      var rest := GetWeekDays(tail, w);
      if InWeek(days[0].day, w) {
        forall y | y in rest ensures days[0].day < y.day {
          var k :| 0 <= k < |tail| && tail[k] == y;
          assert days[k + 1] == y;
        }
        PrependAscending(days[0], rest);
      }
    }
  }

  lemma {:induction false} WeekDaysAppend(xs: seq<DayContent>, ys: seq<DayContent>, w: int)
    ensures GetWeekDays(xs + ys, w) == GetWeekDays(xs, w) + GetWeekDays(ys, w)
  {
    if xs == [] {
      assert xs + ys == ys;
    } else {
      assert (xs + ys)[1..] == xs[1..] + ys;
      WeekDaysAppend(xs[1..], ys, w);
    }
  }

  /** The completed entries keep their input order and multiplicity: the
      filter splits over concatenation and keeps a single entry exactly
      when its day is completed. */
  lemma {:induction false} CompletedEntriesAppend(xs: seq<DayContent>, ys: seq<DayContent>, completed: set<int>)
    ensures CompletedEntries(xs + ys, completed) == CompletedEntries(xs, completed) + CompletedEntries(ys, completed)
    ensures forall d :: CompletedEntries([d], completed) == if d.day in completed then [d] else []
  {
    if xs == [] {
      assert xs + ys == ys;
    } else {
      assert (xs + ys)[1..] == xs[1..] + ys;
      CompletedEntriesAppend(xs[1..], ys, completed);
    }
    forall d ensures CompletedEntries([d], completed) == if d.day in completed then [d] else [] {
      assert [d][1..] == [];
    }
  }

  /** `completedThisWeek` counts the week entries whose day is completed:
      it adds up over any split of the week, and a single entry counts 1
      exactly when its day is completed. */
  lemma CompletedThisWeekCounts(xs: seq<DayContent>, ys: seq<DayContent>, completed: set<int>)
    ensures CompletedThisWeek(xs + ys, completed) == CompletedThisWeek(xs, completed) + CompletedThisWeek(ys, completed)
    ensures forall d :: CompletedThisWeek([d], completed) == if d.day in completed then 1 else 0
  {
    CompletedEntriesAppend(xs, ys, completed);
  }

  lemma {:induction false} WeekDaysAllIn(xs: seq<DayContent>, w: int)
    requires forall i :: 0 <= i < |xs| ==> InWeek(xs[i].day, w)
    ensures GetWeekDays(xs, w) == xs
  {
    if xs != [] {
      WeekDaysAllIn(xs[1..], w);
    }
  }

  lemma {:induction false} WeekDaysNoneIn(xs: seq<DayContent>, w: int)
    requires forall i :: 0 <= i < |xs| ==> !InWeek(xs[i].day, w)
    ensures GetWeekDays(xs, w) == []
  {
    if xs != [] {
      WeekDaysNoneIn(xs[1..], w);
    }
  }

  /** Weeks 1..12 span seven days; week 13 spans days 85..90. */
  lemma WeekLength(w: int)
    requires 1 <= w <= LastWeek
    ensures WeekEndDay(w) - WeekStartDay(w) + 1 == if w < LastWeek then 7 else 6
    ensures w == LastWeek ==> WeekStartDay(w) == 85 && WeekEndDay(w) == CourseDays
  {
  }

  /** On the generated calendar, week `w` of 1..13 is exactly the slice of
      days `WeekStartDay(w) .. WeekEndDay(w)`; week 13 is days 85..90. */
  lemma CalendarWeek(days: seq<DayContent>, w: int)
    requires |days| == CourseDays && forall i :: 0 <= i < |days| ==> days[i].day == i + 1
    requires 1 <= w <= LastWeek
    ensures GetWeekDays(days, w) == days[WeekStartDay(w) - 1 .. WeekEndDay(w)]
  {
    var a, b := WeekStartDay(w) - 1, WeekEndDay(w);
    var pre, mid, post := days[..a], days[a..b], days[b..];
    assert days == pre + mid + post;
    forall i | 0 <= i < |pre| ensures !InWeek(pre[i].day, w) {
      assert pre[i] == days[i];
    }
    forall i | 0 <= i < |mid| ensures InWeek(mid[i].day, w) {
      assert mid[i] == days[a + i];
    }
    forall i | 0 <= i < |post| ensures !InWeek(post[i].day, w) {
      assert post[i] == days[b + i];
    }
    WeekDaysAppend(pre + mid, post, w);
    WeekDaysAppend(pre, mid, w);
    WeekDaysNoneIn(pre, w);
    WeekDaysAllIn(mid, w);
    WeekDaysNoneIn(post, w);
  }

  /** On the generated calendar weeks 1..12 list seven days and week 13 six. */
  lemma CalendarWeekLength(days: seq<DayContent>, w: int)
    requires |days| == CourseDays && forall i :: 0 <= i < |days| ==> days[i].day == i + 1
    requires 1 <= w <= LastWeek
    ensures |GetWeekDays(days, w)| == if w < LastWeek then 7 else 6
  {
    CalendarWeek(days, w);
    WeekLength(w);
  }

  /** The hours of a slice of the calendar are the allocations of its days. */
  lemma {:induction false} CalendarSliceHours(days: seq<DayContent>, a: int, b: int)
    requires IsCourseCalendar(days)
    requires 0 <= a <= b <= |days|
    ensures Hours(days[a..b]) == BlockHours(a + 1, b - a)
    decreases b - a
  {
    if a < b {
      assert days[a..b][1..] == days[a + 1..b];
      CalendarSliceHours(days, a + 1, b);
    }
  }

  /** On the generated calendar weeks 1..12 hold 11 hours and week 13,
      Monday to Saturday, holds 8. */
  lemma CalendarWeekHours(days: seq<DayContent>, w: int)
    requires IsCourseCalendar(days)
    requires 1 <= w <= LastWeek
    ensures TotalHoursThisWeek(GetWeekDays(days, w)) == if w < LastWeek then 11 else 8
  {
    CalendarWeek(days, w);
    var a := WeekStartDay(w) - 1;
    CalendarSliceHours(days, a, WeekEndDay(w));
    if w < LastWeek {
      SevenDayBlockHours(a + 1);
    } else {
      assert BlockHours(85, 6) == 8 by {
        BlockHoursShift(85, 6);
        BlockHoursShift(85, 5);
        BlockHoursShift(85, 4);
        BlockHoursShift(85, 3);
        BlockHoursShift(85, 2);
        BlockHoursShift(85, 1);
      }
    }
  }

  /** With non-negative allocations the completed hours of a week never
      exceed its total hours; they are equal when every day is completed. */
  lemma {:induction false} CompletedHoursAtMostTotal(weekDays: seq<DayContent>, completed: set<int>)
    requires forall i :: 0 <= i < |weekDays| ==> weekDays[i].timeAllocation >= 0
    ensures 0 <= CompletedHoursThisWeek(weekDays, completed) <= TotalHoursThisWeek(weekDays)
    ensures (forall i :: 0 <= i < |weekDays| ==> weekDays[i].day in completed) ==>
      CompletedHoursThisWeek(weekDays, completed) == TotalHoursThisWeek(weekDays)
  {
    if weekDays != [] {
      CompletedHoursAtMostTotal(weekDays[1..], completed);
    }
  }

  /** Every day of the week completed means a count equal to the week's
      length; none completed means zero. */
  lemma {:induction false} CompletedCountExtremes(weekDays: seq<DayContent>, completed: set<int>)
    ensures (forall i :: 0 <= i < |weekDays| ==> weekDays[i].day in completed) ==>
      CompletedThisWeek(weekDays, completed) == |weekDays|
    ensures (forall i :: 0 <= i < |weekDays| ==> weekDays[i].day !in completed) ==>
      CompletedThisWeek(weekDays, completed) == 0
  {
    if weekDays != [] {
      CompletedCountExtremes(weekDays[1..], completed);
    }
  }

  /** The week buttons keep the week within 1..13, and each target week's
      first day lies in the course. */
  lemma WeekNavigationInRange(w: int)
    requires 1 <= w <= LastWeek
    ensures PreviousWeek(w).Some? ==> 1 <= PreviousWeek(w).value <= LastWeek
    ensures NextWeek(w).Some? ==> 1 <= NextWeek(w).value <= LastWeek
    ensures 1 <= WeekStartDay(w) <= CourseDays && GetWeekNumber(WeekStartDay(w)) == w
  {
  }
}
