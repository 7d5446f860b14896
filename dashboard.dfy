/** The dashboard's client-side state: the generated day records, the
    current day, the completed days and the view on show, with the
    operations its buttons and child views trigger.

    The completed days are a JavaScript `Set`, which iterates in insertion
    order; it is kept here as a list without repeats, in insertion order. */
module Dashboard {
  import opened Common
  import opened LearningPlanGenerator
  import WeeklyOverview

  datatype View = DashboardView | DayView | WeekView

  /** The list has no repeats, as a `Set`'s members have none. */
  predicate NoRepeats(xs: seq<int>)
  {
    forall i, j :: 0 <= i < j < |xs| ==> xs[i] != xs[j]
  }

  /** `new Set([...prev, day])`: `day` joins the end unless present. */
  function AddDay(prev: seq<int>, day: int): (r: seq<int>)
    ensures forall d :: d in r <==> d in prev || d == day
    ensures NoRepeats(prev) ==> NoRepeats(r)
    ensures |r| == if day in prev then |prev| else |prev| + 1
    ensures r[..|prev|] == prev
  {
    if day in prev then prev else prev + [day]
  }

  /** `days.find(d => d.day === day)?.timeAllocation || 0`: the allocation
      of the first record for `day`, or 0 when there is none. */
  function AllocationOf(days: seq<DayContent>, day: int): (h: int)
    ensures (forall i :: 0 <= i < |days| ==> days[i].day != day) ==> h == 0
    ensures forall i :: 0 <= i < |days| && days[i].day == day && (forall j :: 0 <= j < i ==> days[j].day != day)
              ==> h == days[i].timeAllocation
  {
    if days == [] then 0
    else if days[0].day == day then days[0].timeAllocation
    else AllocationOf(days[1..], day)
  }

  /** `getTotalHoursCompleted`: the reduce over the completed days, in
      their insertion order. */
  function TotalHoursCompleted(days: seq<DayContent>, completed: seq<int>): int
  {
    if completed == [] then 0
    else TotalHoursCompleted(days, completed[..|completed| - 1]) + AllocationOf(days, completed[|completed| - 1])
  }

  /** "Skip to Next Day": `Math.min(currentDay + 1, 90)`. */
  function NextDay(currentDay: int): int
  {
    if currentDay + 1 <= CourseDays then currentDay + 1 else CourseDays
  }

  /** "Go to Previous Day": `Math.max(currentDay - 1, 1)`. */
  function PreviousDay(currentDay: int): int
  {
    if currentDay - 1 >= 1 then currentDay - 1 else 1
  }

  /** `onWeekChange(week)`: the first day of that week. */
  function FirstDayOfWeek(week: int): int
  {
    (week - 1) * 7 + 1
  }

  /** The seven days of the recent-progress strip: `Math.max(1, currentDay - 6 + i)`. */
  function RecentWindow(currentDay: int): (r: seq<int>)
    ensures |r| == 7
  {
    seq(7, i => if currentDay - 6 + i >= 1 then currentDay - 6 + i else 1)
  }

  class DashboardState {
    var days: seq<DayContent>
    var currentDay: int
    var completedDays: seq<int>
    var view: View

    /** The component after its plan effect has run: the generated
        calendar, day 1, nothing completed, the dashboard on show. */
    constructor (plan: LearningPlan)
      ensures IsCourseCalendar(days)
      ensures forall i :: 0 <= i < |days| ==> days[i] == DayRecord(plan, i + 1)
      ensures currentDay == 1 && completedDays == [] && view == DashboardView
    {
      var generated := GenerateDayStructure(plan);
      days := generated;
      currentDay := 1;
      completedDays := [];
      view := DashboardView;
    }

    /** `markDayComplete(day)`. */
    method MarkDayComplete(day: int)
      modifies this
      ensures completedDays == AddDay(old(completedDays), day)
      ensures days == old(days) && currentDay == old(currentDay) && view == old(view)
    {
      completedDays := AddDay(completedDays, day);
    }

    /** The "next day" button. */
    method SkipToNextDay()
      modifies this
      ensures currentDay == NextDay(old(currentDay))
      ensures days == old(days) && completedDays == old(completedDays) && view == old(view)
    {
      currentDay := if currentDay + 1 <= CourseDays then currentDay + 1 else CourseDays;
    }

    /** The "previous day" button. */
    method GoToPreviousDay()
      modifies this
      ensures currentDay == PreviousDay(old(currentDay))
      ensures days == old(days) && completedDays == old(completedDays) && view == old(view)
    {
      currentDay := if currentDay - 1 >= 1 then currentDay - 1 else 1;
    }

    /** `onDaySelect(day)` from the week view: that day, shown in the day view. */
    method SelectDay(day: int)
      modifies this
      ensures currentDay == day && view == DayView
      ensures days == old(days) && completedDays == old(completedDays)
    {
      currentDay := day;
      view := DayView;
    }

    /** `onWeekChange(week)` from the week view. */
    method ChangeWeek(week: int)
      modifies this
      ensures currentDay == FirstDayOfWeek(week)
      ensures days == old(days) && completedDays == old(completedDays) && view == old(view)
    {
      currentDay := (week - 1) * 7 + 1;
    }

    /** A click on a day of the recent-progress strip. */
    method PickRecentDay(i: int)
      requires 0 <= i < 7
      modifies this
      ensures currentDay == RecentWindow(old(currentDay))[i]
      ensures days == old(days) && completedDays == old(completedDays) && view == old(view)
    {
      currentDay := RecentWindow(currentDay)[i];
    }
  }

  /* ---------------- properties ---------------- */

  /** Marking a day complete is idempotent, grows the set by at most one
      day and removes nothing. */
  lemma AddDayFacts(prev: seq<int>, day: int)
    ensures AddDay(AddDay(prev, day), day) == AddDay(prev, day)
    ensures |prev| <= |AddDay(prev, day)| <= |prev| + 1
    ensures forall d :: d in prev ==> d in AddDay(prev, day)
  {
  }

  /** Each newly completed day adds its allocation to the total hours;
      completing a day again adds nothing. */
  lemma TotalHoursAfterAdd(days: seq<DayContent>, completed: seq<int>, day: int)
    ensures TotalHoursCompleted(days, AddDay(completed, day)) ==
      TotalHoursCompleted(days, completed) + (if day in completed then 0 else AllocationOf(days, day))
  {
    if day !in completed {
      assert (completed + [day])[..|completed|] == completed;
    }
  }

  /** On the generated calendar a course day's allocation is its
      `TimeAllocation`, and any other day counts 0. */
  lemma CalendarAllocation(days: seq<DayContent>, day: int)
    requires IsCourseCalendar(days)
    ensures 1 <= day <= CourseDays ==> AllocationOf(days, day) == TimeAllocation(day)
    ensures !(1 <= day <= CourseDays) ==> AllocationOf(days, day) == 0
  {
    if 1 <= day <= CourseDays {
      assert days[day - 1].day == day;
    }
  }

  /** On the generated calendar the total hours lie between one and three
      hours per completed course day. */
  lemma {:induction false} CalendarTotalHoursBounds(days: seq<DayContent>, completed: seq<int>)
    requires IsCourseCalendar(days)
    requires forall i :: 0 <= i < |completed| ==> 1 <= completed[i] <= CourseDays
    ensures |completed| <= TotalHoursCompleted(days, completed) <= 3 * |completed|
  {
    if completed != [] {
      var init := completed[..|completed| - 1];
      CalendarTotalHoursBounds(days, init);
      CalendarAllocation(days, completed[|completed| - 1]);
    }
  }

  /** From a day in 1..90 both buttons stay in 1..90; "next" then
      "previous" returns to the start below day 90, and "previous" then
      "next" above day 1. */
  lemma DayNavigation(currentDay: int)
    requires 1 <= currentDay <= CourseDays
    ensures 1 <= NextDay(currentDay) <= CourseDays && 1 <= PreviousDay(currentDay) <= CourseDays
    ensures currentDay < CourseDays ==> PreviousDay(NextDay(currentDay)) == currentDay
    ensures currentDay > 1 ==> NextDay(PreviousDay(currentDay)) == currentDay
    ensures NextDay(CourseDays) == CourseDays && PreviousDay(1) == 1
  {
  }

  /** `onWeekChange` lands on the first day of the chosen week: a day of
      that week, the start of its week, within the course for weeks 1..13. */
  lemma WeekChangeLandsOnWeekStart(week: int)
    ensures GetWeekNumber(FirstDayOfWeek(week)) == week
    ensures WeekStart(FirstDayOfWeek(week)) == FirstDayOfWeek(week)
    ensures FirstDayOfWeek(week) == WeeklyOverview.WeekStartDay(week)
    ensures 1 <= week <= WeeklyOverview.LastWeek ==> 1 <= FirstDayOfWeek(week) <= 85
  {
  }

  /** Every day of the strip lies in `1 .. currentDay`, the days never
      decrease, the last is the current day, and from day 7 on the strip is
      the seven days ending at the current day. */
  lemma RecentWindowFacts(currentDay: int)
    requires currentDay >= 1
    ensures forall i :: 0 <= i < 7 ==> 1 <= RecentWindow(currentDay)[i] <= currentDay
    ensures forall i, j :: 0 <= i <= j < 7 ==> RecentWindow(currentDay)[i] <= RecentWindow(currentDay)[j]
    ensures RecentWindow(currentDay)[6] == currentDay
    ensures currentDay >= 7 ==> forall i :: 0 <= i < 7 ==> RecentWindow(currentDay)[i] == currentDay - 6 + i
  {
  }

  /** Before day 7 the strip repeats day 1 at its start. */
  lemma RecentWindowEarly()
    ensures RecentWindow(3) == [1, 1, 1, 1, 1, 2, 3]
  {
  }
}
