/** The fixed 90-day calendar: which weekday a course day falls on, whether it
    is a weekend day, how many hours it is allotted, which week it belongs to,
    and the 90 day records built from a day-keyed learning plan. */
module LearningPlanGenerator {
  import opened Common

  /** Length of the course in days. */
  const CourseDays := 90

  datatype Video = Video(title: string, link: string)

  /** A learning plan maps keys `day1` .. `day90` to the day's videos. */
  type LearningPlan = map<string, seq<Video>>

  /** A day record as the generator builds it; the optional summary, key
      points and quiz of the record type are never set by the generator. */
  datatype DayContent = DayContent(day: int, videos: seq<Video>, isWeekend: bool, timeAllocation: int)

  /** JavaScript's `%` on integers with a positive divisor: the remainder
      takes the sign of the dividend. */
  function JsRem(a: int, b: int): (r: int)
    requires b > 0
    ensures a >= 0 ==> 0 <= r < b
    ensures a < 0 ==> -b < r <= 0
  {
    if a >= 0 then a % b else -((-a) % b)
  }

  /** `((day - 1) % 7) + 1`: 1 is Monday and 7 is Sunday for positive days. */
  function DayOfWeek(day: int): (r: int)
    ensures day >= 1 ==> 1 <= r <= 7 && r == (day - 1) % 7 + 1
    ensures day < 1 ==> -5 <= r <= 1
  {
    JsRem(day - 1, 7) + 1
  }

  predicate IsWeekend(day: int)
  {
    DayOfWeek(day) == 6 || DayOfWeek(day) == 7
  }

  /** Three hours on weekend days, one hour otherwise. */
  function TimeAllocation(day: int): int
  {
    if IsWeekend(day) then 3 else 1
  }

  /** The template-literal key `day${day}` under which a plan lists a day's videos. */
  function DayKey(day: int): string
  {
    "day" + IntToString(day)
  }

  /** The record the generator pushes for `day`. */
  function DayRecord(plan: LearningPlan, day: int): DayContent
  {
    var key := DayKey(day);
    var weekend := IsWeekend(day);
    DayContent(day, if key in plan then plan[key] else [], weekend, if weekend then 3 else 1)
  }

  /** The shape every generated day list has: day `i + 1` at index `i`
      for the 90 course days, with its weekend flag and allocation. */
  predicate IsCourseCalendar(days: seq<DayContent>)
  {
    && |days| == CourseDays
    && forall i :: 0 <= i < |days| ==>
         days[i].day == i + 1 && days[i].isWeekend == IsWeekend(i + 1) && days[i].timeAllocation == TimeAllocation(i + 1)
  }

  /** `generateDayStructure`: one record per course day, in day order. */
  method GenerateDayStructure(plan: LearningPlan) returns (days: seq<DayContent>)
    ensures |days| == CourseDays
    ensures forall i :: 0 <= i < |days| ==> days[i] == DayRecord(plan, i + 1)
    ensures IsCourseCalendar(days)
    ensures forall i :: 0 <= i < |days| ==> days[i].day == i + 1
    ensures forall i :: 0 <= i < |days| ==>
      days[i].videos == (if DayKey(i + 1) in plan then plan[DayKey(i + 1)] else [])
    ensures forall i :: 0 <= i < |days| ==>
      (days[i].isWeekend <==> ((i % 7) + 1 == 6 || (i % 7) + 1 == 7))
    ensures forall i :: 0 <= i < |days| ==>
      days[i].timeAllocation == (if days[i].isWeekend then 3 else 1)
  {
    days := [];
    var day := 1;
    while day <= CourseDays
      invariant 1 <= day <= CourseDays + 1
      invariant |days| == day - 1
      invariant forall i :: 0 <= i < |days| ==> days[i] == DayRecord(plan, i + 1)
    {
      var key := DayKey(day);
      var videos := if key in plan then plan[key] else [];
      var dayOfWeek := JsRem(day - 1, 7) + 1;
      var weekend := dayOfWeek == 6 || dayOfWeek == 7;
      days := days + [DayContent(day, videos, weekend, if weekend then 3 else 1)];
      day := day + 1;
    }
  }

  lemma DayOneIsMonday()
    ensures GetDayOfWeekName(1) == Some("Monday")
  {
  }

  /** The weekday, hence the weekend flag and the allocation, repeat every
      seven days. */
  lemma WeekdayPeriodic(day: int)
    requires day >= 1
    ensures DayOfWeek(day + 7) == DayOfWeek(day)
    ensures IsWeekend(day + 7) == IsWeekend(day)
    ensures TimeAllocation(day + 7) == TimeAllocation(day)
    ensures GetDayOfWeekName(day + 7) == GetDayOfWeekName(day)
  {
  }

  /** Total allocation of the `n` consecutive days starting at `day`. */
  function BlockHours(day: int, n: nat): int
    decreases n
  {
    if n == 0 then 0 else TimeAllocation(day) + BlockHours(day + 1, n - 1)
  }

  lemma {:induction false} BlockHoursShift(day: int, n: nat)
    requires n >= 1
    ensures BlockHours(day, n) == TimeAllocation(day) + BlockHours(day + 1, n - 1)
    ensures BlockHours(day, n) == BlockHours(day, n - 1) + TimeAllocation(day + n - 1)
    decreases n
  {
    if n > 1 {
      BlockHoursShift(day + 1, n - 1);
    }
  }

  /** Any seven consecutive course days hold five one-hour weekdays and two
      three-hour weekend days: eleven hours in all. */
  lemma {:induction false} SevenDayBlockHours(day: int)
    requires day >= 1
    ensures BlockHours(day, 7) == 11
  {
    if day > 1 {
      SevenDayBlockHours(day - 1);
      BlockHoursShift(day - 1, 7);
      BlockHoursShift(day, 7);
      WeekdayPeriodic(day - 1);
    }
  }

  const DayNames: seq<string> := ["", "Monday", "Tuesday", "Wednesday", "Thursday", "Friday", "Saturday", "Sunday"]

  /** `getDayOfWeekName`: indexing the name table; a negative index gives
      `undefined` (None), index 0 the empty string. */
  function GetDayOfWeekName(day: int): (r: Option<string>)
    ensures day >= 1 ==> r == Some(DayNames[DayOfWeek(day)]) && r.value != ""
    ensures DayOfWeek(day) < 0 <==> r.None?
  {
    var i := DayOfWeek(day);
    if 0 <= i < |DayNames| then Some(DayNames[i]) else None
  }

  /** "Saturday" and "Sunday" are named exactly on the weekend days. */
  lemma WeekendNames(day: int)
    ensures IsWeekend(day) <==> GetDayOfWeekName(day) in {Some("Saturday"), Some("Sunday")}
  {
    var i := DayOfWeek(day);
    if 0 <= i < 6 {
      assert DayNames[i] != "Saturday" && DayNames[i] != "Sunday";
    }
  }

  /** `getWeekNumber`: `Math.ceil(day / 7)`. */
  function GetWeekNumber(day: int): (w: int)
    ensures 7 * (w - 1) < day <= 7 * w
  {
    (day + 6) / 7
  }

  lemma WeekNumberMonotone(d1: int, d2: int)
    requires d1 <= d2
    ensures GetWeekNumber(d1) <= GetWeekNumber(d2)
  {
  }

  /** Days 1..90 fall in weeks 1..13, and every one of the 13 weeks is hit. */
  lemma WeekNumberOnto(day: int, week: int)
    ensures 1 <= day <= CourseDays ==> 1 <= GetWeekNumber(day) <= 13
    ensures 1 <= week <= 13 ==> 1 <= 7 * week - 6 <= CourseDays && GetWeekNumber(7 * week - 6) == week
  {
  }

  /** The first day of the week that holds `day`: `floor((day-1)/7)*7+1`. */
  function WeekStart(day: int): int
  {
    ((day - 1) / 7) * 7 + 1
  }

  /** `getCurrentWeekDays`: the seven days from the week's start, keeping
      only those up to day 90. */
  function GetCurrentWeekDays(currentDay: int): (r: seq<int>)
    ensures |r| <= 7
    ensures forall i :: 0 <= i < |r| ==> r[i] == WeekStart(currentDay) + i && r[i] <= CourseDays
    ensures |r| == if WeekStart(currentDay) > CourseDays then 0
                   else if WeekStart(currentDay) + 6 <= CourseDays then 7
                   else CourseDays - WeekStart(currentDay) + 1
  {
    KeepUpTo(seq(7, i => WeekStart(currentDay) + i), CourseDays)
  }

  /** `.filter(d => d <= bound)` on a list of consecutive days. */
  function KeepUpTo(xs: seq<int>, bound: int): (r: seq<int>)
    requires forall i :: 0 <= i < |xs| ==> xs[i] == xs[0] + i
    ensures |r| <= |xs|
    ensures forall i :: 0 <= i < |r| ==> r[i] == xs[i] && r[i] <= bound
    ensures |xs| > 0 ==> |r| == if xs[0] > bound then 0
                               else if xs[0] + |xs| - 1 <= bound then |xs|
                               else bound - xs[0] + 1
  {
    if xs == [] then []
    else if xs[0] <= bound then [xs[0]] + KeepUpTo(xs[1..], bound)
    else KeepUpTo(xs[1..], bound)
  }

  /** The current week holds the current day; the last week has six days;
      every listed day is in the same week as the current day. */
  lemma CurrentWeekDaysFacts(currentDay: int)
    ensures 1 <= currentDay <= CourseDays ==> currentDay in GetCurrentWeekDays(currentDay)
    ensures 85 <= currentDay <= CourseDays ==> GetCurrentWeekDays(currentDay) == [85, 86, 87, 88, 89, 90]
    ensures forall d :: d in GetCurrentWeekDays(currentDay) ==> GetWeekNumber(d) == GetWeekNumber(currentDay)
  {
    var r := GetCurrentWeekDays(currentDay);
    var s := WeekStart(currentDay);
    if 1 <= currentDay <= CourseDays {
      assert r[currentDay - s] == currentDay;
    }
    forall d | d in r ensures GetWeekNumber(d) == GetWeekNumber(currentDay) {
      var i :| 0 <= i < |r| && r[i] == d;
      assert d == s + i;
    }
  }
}
