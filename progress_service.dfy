/** The `user_progress` table and the statistics derived from it.

    The table is a map keyed on `(user_id, day)`. Every write is an upsert
    in the store's merge style: a column named in the payload overwrites
    the stored value, a column left out of the payload (a JavaScript
    `undefined`, which JSON serialisation drops) keeps its stored value, or
    starts out null on a fresh row. The store's answer to each call is a
    parameter: `failure == Some(e)` means the store reported `e`, in which
    case nothing is written and `e` is handed back to the caller. */
module ProgressService {
  import opened Common

  type UserId = string
  type Timestamp = string
  type Key = (UserId, int)

  /** The last day of the course, the anchor of the current streak. */
  const LastDay := 90

  datatype StoreError = StoreError(message: string)
  datatype Result<T> = Ok(value: T) | Err(error: StoreError)

  /** The stored columns of one row besides its key. */
  datatype ProgressRow = ProgressRow(
    completed: bool,
    completedAt: Option<Timestamp>,
    timeSpent: Option<int>,
    quizScore: Option<int>,
    notes: Option<string>,
    updatedAt: Option<Timestamp>)

  /** A row as a select returns it: key columns and stored columns. */
  datatype ProgressRecord = ProgressRecord(userId: UserId, day: int, row: ProgressRow)

  /** One column of an upsert payload: left out, or given a value. */
  datatype Field<T> = Keep | Put(value: T)

  datatype Patch = Patch(
    completed: Field<bool>,
    completedAt: Field<Option<Timestamp>>,
    timeSpent: Field<Option<int>>,
    quizScore: Field<Option<int>>,
    notes: Field<Option<string>>,
    updatedAt: Field<Option<Timestamp>>)

  /** The `Partial<UserProgress>` argument of `updateProgress`; its own
      `user_id` and `day`, when present, override the call's arguments. */
  datatype Updates = Updates(userId: Option<UserId>, day: Option<int>, fields: Patch)

  datatype UserStats = UserStats(
    totalDaysCompleted: int,
    totalHoursLearned: real,
    currentStreak: int,
    longestStreak: int,
    averageQuizScore: real)

  function FieldOr<T>(f: Field<T>, stored: T): T
  {
    match f
    case Keep => stored
    case Put(v) => v
  }

  /** A fresh row before the payload is applied: not completed, every
      optional column null. */
  const FreshRow := ProgressRow(false, None, None, None, None, None)

  function Merge(stored: ProgressRow, p: Patch): ProgressRow
  {
    ProgressRow(
      FieldOr(p.completed, stored.completed),
      FieldOr(p.completedAt, stored.completedAt),
      FieldOr(p.timeSpent, stored.timeSpent),
      FieldOr(p.quizScore, stored.quizScore),
      FieldOr(p.notes, stored.notes),
      FieldOr(p.updatedAt, stored.updatedAt))
  }

  /** Insert-or-merge of one row. */
  function Upsert(rows: map<Key, ProgressRow>, key: Key, p: Patch): (r: map<Key, ProgressRow>)
    ensures r.Keys == rows.Keys + {key}
    ensures forall k :: k in rows && k != key ==> r[k] == rows[k]
  {
    rows[key := Merge(if key in rows then rows[key] else FreshRow, p)]
  }

  /** `undefined` arguments are dropped from the payload. */
  function Optional<T>(v: Option<T>): Field<Option<T>>
  {
    if v.Some? then Put(v) else Keep
  }

  /** Payload of `markDayComplete`. */
  function CompletePatch(timeSpent: Option<int>, quizScore: Option<int>, notes: Option<string>, now: Timestamp): Patch
  {
    Patch(Put(true), Put(Some(now)), Optional(timeSpent), Optional(quizScore), Optional(notes), Put(Some(now)))
  }

  /** Payload of `markDayIncomplete`: `completed_at` is sent as null. */
  function IncompletePatch(now: Timestamp): Patch
  {
    Patch(Put(false), Put(None), Keep, Keep, Keep, Put(Some(now)))
  }

  /** `updated_at` is spread after `updates`, so it always wins. */
  function UpdatePatch(updates: Updates, now: Timestamp): Patch
  {
    updates.fields.(updatedAt := Put(Some(now)))
  }

  function UpdateKey(userId: UserId, day: int, updates: Updates): Key
  {
    (if updates.userId.Some? then updates.userId.value else userId,
     if updates.day.Some? then updates.day.value else day)
  }

  /** The days a user has a completed row for. */
  function CompletedDays(rows: map<Key, ProgressRow>, u: UserId): set<int>
  {
    set k | k in rows && k.0 == u && rows[k].completed :: k.1
  }

  function DaysOf(records: seq<ProgressRecord>): set<int>
  {
    set r | r in records :: r.day
  }

  /** Every wanted row of the user is still pending or already listed. */
  ghost predicate Covered(rows: map<Key, ProgressRow>, u: UserId, pending: set<int>,
                          out: seq<ProgressRecord>, onlyCompleted: bool)
  {
    forall k :: k in rows && k.0 == u && (onlyCompleted ==> rows[k].completed) ==> k.1 in pending || k.1 in DaysOf(out)
  }

  /** Moving one pending day to the listed records keeps every row covered. */
  lemma CoveredStep(rows: map<Key, ProgressRow>, u: UserId, pending: set<int>,
                    out: seq<ProgressRecord>, onlyCompleted: bool, rec: ProgressRecord)
    requires Covered(rows, u, pending, out, onlyCompleted)
    ensures Covered(rows, u, pending - {rec.day}, out + [rec], onlyCompleted)
  {
    var xs := out + [rec];
    assert rec in xs;
    forall k | k in rows && k.0 == u && (onlyCompleted ==> rows[k].completed)
      ensures k.1 in pending - {rec.day} || k.1 in DaysOf(xs)
    {
      if k.1 in DaysOf(out) {
        var r :| r in out && r.day == k.1;
        assert r in xs;
      }
    }
  }

  /** Each listed record is the user's stored row for its day. */
  ghost predicate RowsMatch(rows: map<Key, ProgressRow>, u: UserId, out: seq<ProgressRecord>)
  {
    forall i :: 0 <= i < |out| ==>
      out[i].userId == u && (u, out[i].day) in rows && out[i].row == rows[(u, out[i].day)]
  }

  /** Listing a stored row keeps every listed record a stored row. */
  lemma RowsMatchStep(rows: map<Key, ProgressRow>, u: UserId, out: seq<ProgressRecord>, d: int)
    requires RowsMatch(rows, u, out) && (u, d) in rows
    ensures RowsMatch(rows, u, out + [ProgressRecord(u, d, rows[(u, d)])])
  {
    var xs := out + [ProgressRecord(u, d, rows[(u, d)])];
    forall i | 0 <= i < |xs| ensures xs[i].userId == u && (u, xs[i].day) in rows && xs[i].row == rows[(u, xs[i].day)] {
      if i < |out| {
        assert xs[i] == out[i];
      }
    }
  }

  /** Listing the least pending day keeps the listed days ascending and
      below every day still pending. */
  lemma AscendingStep(out: seq<ProgressRecord>, pending: set<int>, rec: ProgressRecord)
    requires forall i, j :: 0 <= i < j < |out| ==> out[i].day < out[j].day
    requires forall i, d :: 0 <= i < |out| && d in pending ==> out[i].day < d
    requires rec.day in pending && forall x :: x in pending ==> rec.day <= x
    ensures var xs := out + [rec];
      && (forall i, j :: 0 <= i < j < |xs| ==> xs[i].day < xs[j].day)
      && (forall i, d :: 0 <= i < |xs| && d in pending - {rec.day} ==> xs[i].day < d)
  {
    var xs := out + [rec];
    forall i, j | 0 <= i < j < |xs| ensures xs[i].day < xs[j].day {
      if j < |out| {
        assert xs[i] == out[i] && xs[j] == out[j];
      } else {
        assert xs[i] == out[i] && xs[j] == rec;
      }
    }
    forall i, d | 0 <= i < |xs| && d in pending - {rec.day} ensures xs[i].day < d {
      if i < |out| {
        assert xs[i] == out[i];
      } else {
        assert xs[i] == rec;
      }
    }
  }

  /** Listing any pending day keeps the listed days distinct and apart from
      every day still pending. */
  lemma DistinctStep(out: seq<ProgressRecord>, pending: set<int>, rec: ProgressRecord)
    requires forall i, j :: 0 <= i < j < |out| ==> out[i].day != out[j].day
    requires forall i, d :: 0 <= i < |out| && d in pending ==> out[i].day != d
    requires rec.day in pending
    ensures var xs := out + [rec];
      && (forall i, j :: 0 <= i < j < |xs| ==> xs[i].day != xs[j].day)
      && (forall i, d :: 0 <= i < |xs| && d in pending - {rec.day} ==> xs[i].day != d)
  {
    var xs := out + [rec];
    forall i, j | 0 <= i < j < |xs| ensures xs[i].day != xs[j].day {
      if j < |out| {
        assert xs[i] == out[i] && xs[j] == out[j];
      } else {
        assert xs[i] == out[i] && xs[j] == rec;
      }
    }
    forall i, d | 0 <= i < |xs| && d in pending - {rec.day} ensures xs[i].day != d {
      if i < |out| {
        assert xs[i] == out[i];
      } else {
        assert xs[i] == rec;
      }
    }
  }

  /** What a select on `user_id = u` may return. */
  ghost predicate ListsUserRows(rows: map<Key, ProgressRow>, u: UserId, records: seq<ProgressRecord>, onlyCompleted: bool)
  {
    && (forall i :: 0 <= i < |records| ==>
          records[i].userId == u && (u, records[i].day) in rows && records[i].row == rows[(u, records[i].day)])
    && (forall i :: 0 <= i < |records| ==> onlyCompleted ==> records[i].row.completed)
    && (forall i, j :: 0 <= i < j < |records| ==> records[i].day != records[j].day)
    && (forall k :: k in rows && k.0 == u && (onlyCompleted ==> rows[k].completed) ==> k.1 in DaysOf(records))
  }

  lemma MinExists(s: set<int>)
    requires s != {}
    ensures exists m :: m in s && forall x :: x in s ==> m <= x
  {
    SomeMember(s);
    var y :| y in s;
    if s != {y} {
      MinExists(s - {y});
      var m :| m in s - {y} && forall x :: x in s - {y} ==> m <= x;
      forall x | x in s && x != y ensures x in s - {y} {
      }
      if y < m {
        assert forall x :: x in s ==> y <= x;
      } else {
        assert forall x :: x in s ==> m <= x;
      }
    } else {
      assert forall x :: x in s ==> y <= x;
    }
  }

  class ProgressStore {
    var rows: map<Key, ProgressRow>

    constructor ()
      ensures rows == map[]
    {
      rows := map[];
    }

    /** `getUserProgress`: the user's rows ordered by day ascending. */
    method GetUserProgress(userId: UserId, failure: Option<StoreError>) returns (r: Result<seq<ProgressRecord>>)
      ensures failure.Some? ==> r == Err(failure.value)
      ensures failure.None? ==> r.Ok? && ListsUserRows(rows, userId, r.value, false)
      ensures failure.None? ==> forall i, j :: 0 <= i < j < |r.value| ==> r.value[i].day < r.value[j].day
    {
      if failure.Some? {
        return Err(failure.value);
      }
      var pending := set k | k in rows.Keys && k.0 == userId :: k.1;
      var out: seq<ProgressRecord> := [];
      while pending != {}
        invariant forall d :: d in pending ==> (userId, d) in rows
        invariant Covered(rows, userId, pending, out, false)
        invariant RowsMatch(rows, userId, out)
        invariant forall i, j :: 0 <= i < j < |out| ==> out[i].day < out[j].day
        invariant forall i, d :: 0 <= i < |out| && d in pending ==> out[i].day < d
        decreases |pending|
      {
        MinExists(pending);
        var d :| d in pending && forall x :: x in pending ==> d <= x;
        var rec := ProgressRecord(userId, d, rows[(userId, d)]);
        RowsMatchStep(rows, userId, out, d);
        CoveredStep(rows, userId, pending, out, false, rec);
        AscendingStep(out, pending, rec);
        out := out + [rec];
        pending := pending - {d};
      }
      return Ok(out);
    }

    /** The select of `getUserStats`: completed rows of the user, in no
        particular order. */
    method GetCompletedRows(userId: UserId, failure: Option<StoreError>) returns (r: Result<seq<ProgressRecord>>)
      ensures failure.Some? ==> r == Err(failure.value)
      ensures failure.None? ==> r.Ok? && ListsUserRows(rows, userId, r.value, true)
    {
      if failure.Some? {
        return Err(failure.value);
      }
      var pending := set k | k in rows.Keys && k.0 == userId && rows[k].completed :: k.1;
      var out: seq<ProgressRecord> := [];
      while pending != {}
        invariant forall d :: d in pending ==> (userId, d) in rows && rows[(userId, d)].completed
        invariant Covered(rows, userId, pending, out, true)
        invariant RowsMatch(rows, userId, out)
        invariant forall i :: 0 <= i < |out| ==> out[i].row.completed
        invariant forall i, j :: 0 <= i < j < |out| ==> out[i].day != out[j].day
        invariant forall i, d :: 0 <= i < |out| && d in pending ==> out[i].day != d
        decreases |pending|
      {
        SomeMember(pending);
        var d :| d in pending;
        var rec := ProgressRecord(userId, d, rows[(userId, d)]);
        RowsMatchStep(rows, userId, out, d);
        CoveredStep(rows, userId, pending, out, true, rec);
        DistinctStep(out, pending, rec);
        out := out + [rec];
        pending := pending - {d};
      }
      return Ok(out);
    }

    /** `markDayComplete`. */
    method MarkDayComplete(userId: UserId, day: int, timeSpent: Option<int>, quizScore: Option<int>,
                           notes: Option<string>, now: Timestamp, failure: Option<StoreError>)
      returns (r: Result<ProgressRecord>)
      modifies this
      ensures failure.Some? ==> rows == old(rows) && r == Err(failure.value)
      ensures failure.None? ==> rows == Upsert(old(rows), (userId, day), CompletePatch(timeSpent, quizScore, notes, now))
      ensures failure.None? ==> r == Ok(ProgressRecord(userId, day, rows[(userId, day)]))
    {
      if failure.Some? {
        return Err(failure.value);
      }
      rows := Upsert(rows, (userId, day), CompletePatch(timeSpent, quizScore, notes, now));
      return Ok(ProgressRecord(userId, day, rows[(userId, day)]));
    }

    /** `markDayIncomplete`. */
    method MarkDayIncomplete(userId: UserId, day: int, now: Timestamp, failure: Option<StoreError>)
      returns (r: Result<ProgressRecord>)
      modifies this
      ensures failure.Some? ==> rows == old(rows) && r == Err(failure.value)
      ensures failure.None? ==> rows == Upsert(old(rows), (userId, day), IncompletePatch(now))
      ensures failure.None? ==> r == Ok(ProgressRecord(userId, day, rows[(userId, day)]))
    {
      if failure.Some? {
        return Err(failure.value);
      }
      rows := Upsert(rows, (userId, day), IncompletePatch(now));
      return Ok(ProgressRecord(userId, day, rows[(userId, day)]));
    }

    /** `updateProgress`: the key and the columns come from `updates` where
        it has them. */
    method UpdateProgress(userId: UserId, day: int, updates: Updates, now: Timestamp, failure: Option<StoreError>)
      returns (r: Result<ProgressRecord>)
      modifies this
      ensures failure.Some? ==> rows == old(rows) && r == Err(failure.value)
      ensures failure.None? ==> rows == Upsert(old(rows), UpdateKey(userId, day, updates), UpdatePatch(updates, now))
      ensures failure.None? ==> var k := UpdateKey(userId, day, updates);
        r == Ok(ProgressRecord(k.0, k.1, rows[k]))
    {
      if failure.Some? {
        return Err(failure.value);
      }
      var key := UpdateKey(userId, day, updates);
      rows := Upsert(rows, key, UpdatePatch(updates, now));
      return Ok(ProgressRecord(key.0, key.1, rows[key]));
    }

    /** `getCompletedDays`: the completed days among the user's rows. */
    method GetCompletedDays(userId: UserId, failure: Option<StoreError>) returns (r: Result<set<int>>)
      ensures failure.Some? ==> r == Err(failure.value)
      ensures failure.None? ==> r == Ok(CompletedDays(rows, userId))
    {
      var progress := GetUserProgress(userId, failure);
      if progress.Err? {
        return Err(progress.error);
      }
      var records := progress.value;
      var days := set p | p in records && p.row.completed :: p.day;
      forall d | d in days ensures d in CompletedDays(rows, userId) {
        var p :| p in records && p.row.completed && p.day == d;
        var i :| 0 <= i < |records| && records[i] == p;
        assert (userId, d) in rows && rows[(userId, d)].completed;
      }
      forall d | d in CompletedDays(rows, userId) ensures d in days {
        assert d in DaysOf(records);
        var p :| p in records && p.day == d;
      }
      SetExt(days, CompletedDays(rows, userId));
      return Ok(days);
    }

    /** `getUserStats`: the statistics of the user's completed rows. */
    method GetUserStats(userId: UserId, failure: Option<StoreError>) returns (r: Result<UserStats>)
      ensures failure.Some? ==> r == Err(failure.value)
      ensures failure.None? ==> r.Ok?
      ensures failure.None? ==> r.value.totalDaysCompleted == |CompletedDays(rows, userId)|
      ensures failure.None? ==> r.value.currentStreak == CurrentStreak(CompletedDays(rows, userId))
      ensures failure.None? ==> IsLongestStreak(CompletedDays(rows, userId), r.value.longestStreak)
    {
      var fetched := GetCompletedRows(userId, failure);
      if fetched.Err? {
        return Err(fetched.error);
      }
      var completed := fetched.value;
      assert DaysOf(completed) == CompletedDays(rows, userId) by {
        forall d | d in DaysOf(completed) ensures d in CompletedDays(rows, userId) {
          var p :| p in completed && p.day == d;
          var i :| 0 <= i < |completed| && completed[i] == p;
        }
      }
      DistinctDaysCount(completed);
      var stats := ComputeStats(completed);
      return Ok(stats);
    }
  }

  /* ---------------- statistics ---------------- */

  ghost predicate DistinctDays(records: seq<ProgressRecord>)
  {
    forall i, j :: 0 <= i < j < |records| ==> records[i].day != records[j].day
  }

  lemma {:induction false} DistinctDaysCount(records: seq<ProgressRecord>)
    requires DistinctDays(records)
    ensures |DaysOf(records)| == |records|
  {
    if records != [] {
      var rest := records[1..];
      DistinctDaysCount(rest);
      assert DaysOf(records) == DaysOf(rest) + {records[0].day};
      assert records[0].day !in DaysOf(rest);
    }
  }

  /** Number of consecutive days `e, e-1, e-2, ...` in `s`. */
  function RunDown(s: set<int>, e: int): (n: nat)
    ensures n <= |s|
    decreases |s|
  {
    if e in s then 1 + RunDown(s - {e}, e - 1) else 0
  }

  /** The current streak the source computes: counted backward from day 90
      over the completed days sorted in descending order, so a completed
      day after day 90 stops it at once. */
  function CurrentStreak(s: set<int>): int
  {
    if exists d :: d in s && d > LastDay then 0 else RunDown(s, LastDay)
  }

  /** Days `a .. a+k-1` are all in `s` and lie within the course. */
  ghost predicate RunIn(s: set<int>, a: int, k: int)
  {
    1 <= a && 0 <= k && a + k - 1 <= LastDay && forall j :: a <= j < a + k ==> j in s
  }

  /** `n` is the length of the longest run of completed course days. */
  ghost predicate IsLongestStreak(s: set<int>, n: int)
  {
    (exists a :: RunIn(s, a, n)) && forall a, k :: RunIn(s, a, k) ==> k <= n
  }

  /** The walk of the source's current-streak loop over a list of days. */
  function StreakWalk(days: seq<int>, expected: int): nat
  {
    if days == [] || days[0] != expected then 0 else 1 + StreakWalk(days[1..], expected - 1)
  }

  predicate SortedDesc(xs: seq<int>)
  {
    forall i, j :: 0 <= i < j < |xs| ==> xs[i] >= xs[j]
  }

  function InsertDesc(x: int, ys: seq<int>): (r: seq<int>)
    requires SortedDesc(ys)
    ensures SortedDesc(r)
    ensures multiset(r) == multiset(ys) + multiset{x}
    ensures |r| == |ys| + 1
    ensures r[0] == if ys == [] || x >= ys[0] then x else ys[0]
  {
    if ys == [] || x >= ys[0] then [x] + ys
    else
      assert ys == [ys[0]] + ys[1..];
      var tail := InsertDesc(x, ys[1..]);
      assert tail[0] <= ys[0];
      [ys[0]] + tail
  }

  /** `.sort((a, b) => b - a)`. */
  function SortDesc(xs: seq<int>): (r: seq<int>)
    ensures SortedDesc(r)
    ensures multiset(r) == multiset(xs)
    ensures |r| == |xs|
  {
    if xs == [] then []
    else
      assert xs == [xs[0]] + xs[1..];
      InsertDesc(xs[0], SortDesc(xs[1..]))
  }

  function DayList(records: seq<ProgressRecord>): (r: seq<int>)
    ensures |r| == |records|
    ensures forall i :: 0 <= i < |r| ==> r[i] == records[i].day
  {
    if records == [] then [] else [records[0].day] + DayList(records[1..])
  }

  /** `time_spent || 0` over the records. */
  function Minutes(records: seq<ProgressRecord>): (r: seq<int>)
    ensures |r| == |records|
    ensures forall i :: 0 <= i < |r| ==>
      r[i] == if records[i].row.timeSpent.Some? then records[i].row.timeSpent.value else 0
  {
    if records == [] then []
    else [if records[0].row.timeSpent.Some? then records[0].row.timeSpent.value else 0] + Minutes(records[1..])
  }

  /** The quiz scores that are neither null nor undefined, in order. */
  function Scores(records: seq<ProgressRecord>): (r: seq<int>)
    ensures |r| <= |records|
    ensures forall x :: x in r ==> exists i :: 0 <= i < |records| && records[i].row.quizScore == Some(x)
    ensures forall i :: 0 <= i < |records| && records[i].row.quizScore.Some? ==> records[i].row.quizScore.value in r
  {
    if records == [] then []
    else if records[0].row.quizScore.Some? then [records[0].row.quizScore.value] + Scores(records[1..])
    else Scores(records[1..])
  }

  function Mean(xs: seq<int>): real
  {
    if |xs| > 0 then Sum(xs) as real / |xs| as real else 0.0
  }

  /** The computation of `getUserStats` on the completed rows it fetched. */
  method ComputeStats(completed: seq<ProgressRecord>) returns (stats: UserStats)
    ensures stats.totalDaysCompleted == |completed|
    ensures stats.totalHoursLearned == Sum(Minutes(completed)) as real / 60.0
    ensures DistinctDays(completed) ==> stats.currentStreak == CurrentStreak(DaysOf(completed))
    ensures IsLongestStreak(DaysOf(completed), stats.longestStreak)
    ensures stats.averageQuizScore == Mean(Scores(completed))
  {
    var totalHours := Sum(Minutes(completed)) as real / 60.0;
    var sortedDays := SortDesc(DayList(completed));
    var currentStreak := CurrentStreakLoop(sortedDays);
    if DistinctDays(completed) {
      CurrentStreakFromSortedDays(completed, sortedDays);
    }
    var longestStreak := LongestStreakLoop(completed);
    var quizScores := Scores(completed);
    var averageQuizScore := if |quizScores| > 0 then Sum(quizScores) as real / |quizScores| as real else 0.0;
    stats := UserStats(|completed|, totalHours, currentStreak, longestStreak, averageQuizScore);
  }

  /** The current-streak loop: walk the days in descending order while
      each one is the day expected next, starting from day 90. */
  method CurrentStreakLoop(sortedDays: seq<int>) returns (currentStreak: nat)
    ensures currentStreak == StreakWalk(sortedDays, LastDay)
    ensures currentStreak <= |sortedDays|
  {
    currentStreak := 0;
    var expectedDay := LastDay;
    var i := 0;
    while i < |sortedDays|
      invariant 0 <= i <= |sortedDays|
      invariant currentStreak == i && expectedDay == LastDay - i
      invariant StreakWalk(sortedDays, LastDay) == i + StreakWalk(sortedDays[i..], expectedDay)
      decreases |sortedDays| - i
    {
      if sortedDays[i] == expectedDay {
        assert sortedDays[i..][1..] == sortedDays[i + 1..];
        currentStreak := currentStreak + 1;
        expectedDay := expectedDay - 1;
        i := i + 1;
      } else {
        break;
      }
    }
  }

  /** The longest-streak loop over days 1..90: a running count of
      consecutive completed days and the largest count seen. */
  method LongestStreakLoop(completed: seq<ProgressRecord>) returns (longestStreak: int)
    ensures IsLongestStreak(DaysOf(completed), longestStreak)
  {
    ghost var s := DaysOf(completed);
    longestStreak := 0;
    var tempStreak := 0;
    ghost var start := 1;
    var day := 1;
    while day <= LastDay
      invariant 1 <= day <= LastDay + 1
      invariant 0 <= tempStreak < day
      invariant RunIn(s, day - tempStreak, tempStreak)
      invariant day - tempStreak == 1 || day - tempStreak - 1 !in s
      invariant tempStreak <= longestStreak
      invariant RunIn(s, start, longestStreak)
      invariant forall a, k :: RunIn(s, a, k) && a + k <= day ==> k <= longestStreak
    {
      if HasDay(completed, day) {
        tempStreak := tempStreak + 1;
        if tempStreak > longestStreak {
          start := day - tempStreak + 1;
        }
        longestStreak := Max(longestStreak, tempStreak);
      } else {
        tempStreak := 0;
      }
      day := day + 1;
    }
  }

  function Max(a: int, b: int): int
  {
    if a >= b then a else b
  }

  /** `completedDays.some(d => d.day === day)`. */
  predicate HasDay(records: seq<ProgressRecord>, day: int)
    ensures HasDay(records, day) <==> day in DaysOf(records)
  {
    exists i :: 0 <= i < |records| && records[i].day == day
  }

  predicate StrictlyDesc(xs: seq<int>)
  {
    forall i, j :: 0 <= i < j < |xs| ==> xs[i] > xs[j]
  }

  /** On a strictly decreasing list whose days are at most `e`, the walk
      of the loop counts the run `e, e-1, ...` of the list's days. */
  lemma {:induction false} StreakWalkIsRun(xs: seq<int>, e: int)
    requires StrictlyDesc(xs)
    requires forall i :: 0 <= i < |xs| ==> xs[i] <= e
    ensures StreakWalk(xs, e) == RunDown((set x | x in xs), e)
  {
    var s := set x | x in xs;
    if xs == [] {
    } else if xs[0] == e {
      var rest := xs[1..];
      var t := set x | x in rest;
      forall i, j | 0 <= i < j < |rest| ensures rest[i] > rest[j] {
        assert rest[i] == xs[i + 1] && rest[j] == xs[j + 1];
      }
      forall i | 0 <= i < |rest| ensures rest[i] <= e - 1 {
        assert rest[i] == xs[i + 1];
      }
      forall x ensures x in s - {e} <==> x in t {
        if x in s - {e} {
          var i :| 0 <= i < |xs| && xs[i] == x;
          assert i != 0;
          assert rest[i - 1] == x;
        }
        if x in t {
          var i :| 0 <= i < |rest| && rest[i] == x;
          assert xs[i + 1] == x;
          assert xs[0] > xs[i + 1];
        }
      }
      SetExt(s - {e}, t);
      StreakWalkIsRun(rest, e - 1);
      assert e in s;
    } else {
      forall i | 0 <= i < |xs| ensures xs[i] != e {
        if i > 0 {
          assert xs[0] > xs[i];
        }
      }
      assert e !in s;
    }
  }

  lemma MultisetCountDistinct(records: seq<ProgressRecord>, xs: seq<int>, v: int)
    requires DistinctDays(records)
    requires xs == DayList(records)
    ensures multiset(xs)[v] <= 1
    decreases |records|
  {
    if records != [] {
      MultisetCountDistinct(records[1..], xs[1..], v);
      assert xs == [xs[0]] + xs[1..];
      if xs[0] == v {
        assert v !in xs[1..];
      }
    }
  }

  lemma SortedDistinctIsStrict(xs: seq<int>, ys: seq<int>)
    requires SortedDesc(ys) && multiset(ys) == multiset(xs)
    requires forall v :: multiset(xs)[v] <= 1
    ensures StrictlyDesc(ys)
  {
    forall i, j | 0 <= i < j < |ys| ensures ys[i] > ys[j] {
      if ys[i] == ys[j] {
        CountTwo(ys, i, j);
      }
    }
  }

  lemma CountTwo(ys: seq<int>, i: int, j: int)
    requires 0 <= i < j < |ys| && ys[i] == ys[j]
    ensures multiset(ys)[ys[i]] >= 2
  {
    assert ys == ys[..i] + [ys[i]] + ys[i + 1..j] + [ys[j]] + ys[j + 1..];
  }

  lemma SortedDaysSet(completed: seq<ProgressRecord>, sortedDays: seq<int>)
    requires multiset(sortedDays) == multiset(DayList(completed))
    ensures DaysOf(completed) == set x | x in sortedDays
  {
    var xs := DayList(completed);
    var s := DaysOf(completed);
    forall x ensures x in s <==> x in sortedDays {
      assert x in sortedDays <==> x in multiset(sortedDays);
      assert x in xs <==> x in multiset(xs);
      if x in xs {
        var i :| 0 <= i < |xs| && xs[i] == x;
        assert completed[i] in completed;
      }
      if x in s {
        var p :| p in completed && p.day == x;
        var i :| 0 <= i < |completed| && completed[i] == p;
        assert xs[i] == x;
      }
    }
  }

  lemma CurrentStreakFromSortedDays(completed: seq<ProgressRecord>, sortedDays: seq<int>)
    requires DistinctDays(completed)
    requires sortedDays == SortDesc(DayList(completed))
    ensures StreakWalk(sortedDays, LastDay) == CurrentStreak(DaysOf(completed))
  {
    var xs := DayList(completed);
    forall v ensures multiset(xs)[v] <= 1 {
      MultisetCountDistinct(completed, xs, v);
    }
    SortedDistinctIsStrict(xs, sortedDays);
    SortedDaysSet(completed, sortedDays);
    CurrentStreakOfStrictList(DaysOf(completed), sortedDays);
  }

  /** On a strictly decreasing list of the completed days the walk of the
      loop is the current streak. */
  lemma CurrentStreakOfStrictList(s: set<int>, sortedDays: seq<int>)
    requires StrictlyDesc(sortedDays)
    requires s == set x | x in sortedDays
    ensures StreakWalk(sortedDays, LastDay) == CurrentStreak(s)
  {
    if exists d :: d in s && d > LastDay {
      var d :| d in s && d > LastDay;
      LateDayStopsWalk(sortedDays, d);
    } else {
      forall i | 0 <= i < |sortedDays| ensures sortedDays[i] <= LastDay {
        assert sortedDays[i] in s;
      }
      StreakWalkIsRun(sortedDays, LastDay);
    }
  }

  /** Sorted in descending order, a day after day 90 comes first, so the
      walk from day 90 stops at once. */
  lemma LateDayStopsWalk(xs: seq<int>, d: int)
    requires SortedDesc(xs) && d in xs && d > LastDay
    ensures StreakWalk(xs, LastDay) == 0
  {
    var i :| 0 <= i < |xs| && xs[i] == d;
    assert xs[0] >= d;
  }

  /* ---------------- properties of the upserts ---------------- */

  /** Marking a day complete adds exactly that day to the user's
      completed set and leaves other users' sets alone. */
  lemma MarkCompleteCompletedDays(rows: map<Key, ProgressRow>, u: UserId, day: int,
                                  timeSpent: Option<int>, quizScore: Option<int>, notes: Option<string>,
                                  now: Timestamp, v: UserId)
    ensures var after := Upsert(rows, (u, day), CompletePatch(timeSpent, quizScore, notes, now));
      && CompletedDays(after, u) == CompletedDays(rows, u) + {day}
      && (v != u ==> CompletedDays(after, v) == CompletedDays(rows, v))
  {
    var after := Upsert(rows, (u, day), CompletePatch(timeSpent, quizScore, notes, now));
    assert day in CompletedDays(after, u) by {
      assert (u, day) in after && after[(u, day)].completed;
    }
    forall d | d in CompletedDays(rows, u) ensures d in CompletedDays(after, u) {
      assert (u, d) in rows && rows[(u, d)].completed;
      assert (u, d) in after && after[(u, d)].completed;
    }
    if v != u {
      forall d | d in CompletedDays(rows, v) ensures d in CompletedDays(after, v) {
        assert (v, d) in after;
      }
    }
  }

  /** Marking a day incomplete removes exactly that day from the user's
      completed set. */
  lemma MarkIncompleteCompletedDays(rows: map<Key, ProgressRow>, u: UserId, day: int, now: Timestamp, v: UserId)
    ensures var after := Upsert(rows, (u, day), IncompletePatch(now));
      && CompletedDays(after, u) == CompletedDays(rows, u) - {day}
      && (v != u ==> CompletedDays(after, v) == CompletedDays(rows, v))
  {
    var after := Upsert(rows, (u, day), IncompletePatch(now));
    forall d | d in CompletedDays(rows, u) - {day} ensures d in CompletedDays(after, u) {
      assert (u, d) in rows && rows[(u, d)].completed;
      assert (u, d) in after && after[(u, d)].completed;
    }
    if v != u {
      forall d | d in CompletedDays(rows, v) ensures d in CompletedDays(after, v) {
        assert (v, d) in after;
      }
    }
  }

  /** A completion changes the completed set by at most one day, and
      marking the same day twice keeps a single row for it. */
  lemma MarkCompleteTwice(rows: map<Key, ProgressRow>, u: UserId, day: int, p1: Patch, p2: Patch)
    requires p1.completed == Put(true) && p2.completed == Put(true)
    ensures var once := Upsert(rows, (u, day), p1);
            var twice := Upsert(once, (u, day), p2);
      && twice.Keys == once.Keys
      && |once.Keys| <= |rows.Keys| + 1
      && CompletedDays(twice, u) == CompletedDays(once, u) == CompletedDays(rows, u) + {day}
  {
    var once := Upsert(rows, (u, day), p1);
    var twice := Upsert(once, (u, day), p2);
    assert once.Keys == rows.Keys + {(u, day)};
    assert |rows.Keys + {(u, day)}| <= |rows.Keys| + |{(u, day)}|;
    forall d | d in CompletedDays(rows, u) + {day} ensures d in CompletedDays(once, u) && d in CompletedDays(twice, u) {
      assert (u, d) in once && once[(u, d)].completed;
      assert (u, d) in twice && twice[(u, d)].completed;
    }
    forall d | d in CompletedDays(twice, u) ensures d in CompletedDays(rows, u) + {day} {
      assert (u, d) in twice;
      if d != day { assert (u, d) in rows; }
    }
    forall d | d in CompletedDays(once, u) ensures d in CompletedDays(rows, u) + {day} {
      assert (u, d) in once;
      if d != day { assert (u, d) in rows; }
    }
  }

  /** The write of `markDayComplete(u, d, 30, 4, "note")` reads back as
      written; leaving an argument out keeps the stored value. */
  lemma MarkCompleteReadBack(rows: map<Key, ProgressRow>, u: UserId, day: int,
                             timeSpent: Option<int>, quizScore: Option<int>, notes: Option<string>, now: Timestamp)
    ensures var row := Upsert(rows, (u, day), CompletePatch(timeSpent, quizScore, notes, now))[(u, day)];
      var before := if (u, day) in rows then rows[(u, day)] else FreshRow;
      && row.completed && row.completedAt == Some(now) && row.updatedAt == Some(now)
      && row.timeSpent == (if timeSpent.Some? then timeSpent else before.timeSpent)
      && row.quizScore == (if quizScore.Some? then quizScore else before.quizScore)
      && row.notes == (if notes.Some? then notes else before.notes)
  {
  }

  /** `markDayIncomplete` clears the completion and its time stamp and
      leaves the time spent, quiz score and notes as they were. */
  lemma MarkIncompleteKeepsMetadata(rows: map<Key, ProgressRow>, u: UserId, day: int, now: Timestamp)
    requires (u, day) in rows
    ensures var row := Upsert(rows, (u, day), IncompletePatch(now))[(u, day)];
      && !row.completed && row.completedAt.None? && row.updatedAt == Some(now)
      && row.timeSpent == rows[(u, day)].timeSpent
      && row.quizScore == rows[(u, day)].quizScore
      && row.notes == rows[(u, day)].notes
  {
  }

  /** `updateProgress` writes the row named by `updates` when it names one,
      and its `updated_at` is always the call's own. */
  lemma UpdateProgressOverrides(rows: map<Key, ProgressRow>, u: UserId, day: int, updates: Updates, now: Timestamp)
    ensures var key := UpdateKey(u, day, updates);
      && (updates.day.Some? ==> key.1 == updates.day.value)
      && (updates.userId.Some? ==> key.0 == updates.userId.value)
      && (updates.day.None? && updates.userId.None? ==> key == (u, day))
      && Upsert(rows, key, UpdatePatch(updates, now))[key].updatedAt == Some(now)
      && (updates.fields.completed.Put? ==>
            Upsert(rows, key, UpdatePatch(updates, now))[key].completed == updates.fields.completed.value)
      && (updates.fields.completedAt.Put? ==>
            Upsert(rows, key, UpdatePatch(updates, now))[key].completedAt == updates.fields.completedAt.value)
      && (updates.fields.timeSpent.Put? ==>
            Upsert(rows, key, UpdatePatch(updates, now))[key].timeSpent == updates.fields.timeSpent.value)
      && (updates.fields.quizScore.Put? ==>
            Upsert(rows, key, UpdatePatch(updates, now))[key].quizScore == updates.fields.quizScore.value)
      && (updates.fields.notes.Put? ==>
            Upsert(rows, key, UpdatePatch(updates, now))[key].notes == updates.fields.notes.value)
  {
  }

  /* ---------------- properties of the statistics ---------------- */

  lemma {:induction false} RunDownSpan(s: set<int>, e: int)
    ensures forall j :: e - RunDown(s, e) < j <= e ==> j in s
    ensures e - RunDown(s, e) !in s
    decreases |s|
  {
    if e in s {
      RunDownSpan(s - {e}, e - 1);
      var c := RunDown(s - {e}, e - 1);
      assert RunDown(s, e) == 1 + c;
      forall j | e - 1 - c < j <= e ensures j in s {
        if j < e {
          assert j in s - {e};
        }
      }
    }
  }

  lemma {:induction false} RunDownOfSpan(s: set<int>, e: int, c: nat)
    requires forall j :: e - c < j <= e ==> j in s
    requires e - c !in s
    ensures RunDown(s, e) == c
    decreases |s|
  {
    if c > 0 {
      assert e in s;
      RunDownOfSpan(s - {e}, e - 1, c - 1);
    }
  }

  lemma {:induction false} RunDownBelow(s: set<int>, e: int)
    requires forall d :: d in s ==> d >= 1
    ensures RunDown(s, e) <= if e >= 0 then e else 0
    decreases |s|
  {
    if e in s {
      RunDownBelow(s - {e}, e - 1);
    }
  }

  /** With every completed day inside the course, the current streak is a
      run of course days ending at day 90, so it cannot exceed the longest
      streak, which cannot exceed 90. */
  lemma StreakBounds(s: set<int>, longest: int)
    requires forall d :: d in s ==> 1 <= d <= LastDay
    requires IsLongestStreak(s, longest)
    ensures 0 <= CurrentStreak(s) <= longest <= LastDay
  {
    var c := RunDown(s, LastDay);
    RunDownBelow(s, LastDay);
    RunDownSpan(s, LastDay);
    assert LastDay - c !in s;
    assert RunIn(s, LastDay - c + 1, c);
    var a :| RunIn(s, a, longest);
  }

  /** The loop walks past day 1 when day 0 is also completed: with days
      0..90 completed the current streak is 91, one more than the longest
      streak within the course. */
  lemma DayZeroLengthensCurrentStreak(s: set<int>)
    requires forall d :: d in s <==> 0 <= d <= LastDay
    ensures CurrentStreak(s) == LastDay + 1
    ensures IsLongestStreak(s, LastDay)
  {
    assert -1 !in s;
    RunDownOfSpan(s, LastDay, LastDay + 1);
    assert RunIn(s, 1, LastDay);
  }

  /** A completed day after day 90 resets the current streak, however many
      days before it are completed. */
  lemma DayAfterCourseResetsCurrentStreak(s: set<int>)
    requires LastDay + 1 in s
    ensures CurrentStreak(s) == 0
  {
  }

  lemma LongestStreakUnique(s: set<int>, m: int, n: int)
    requires IsLongestStreak(s, m) && IsLongestStreak(s, n)
    ensures m == n
  {
    var a :| RunIn(s, a, m);
    var b :| RunIn(s, b, n);
  }

  /** Completed days 88, 89, 90 give a current streak of 3; with day 89
      missing only day 90 counts. */
  lemma CurrentStreakExamples()
    ensures CurrentStreak({88, 89, 90}) == 3
    ensures CurrentStreak({88, 90}) == 1
  {
    RunDownOfSpan({88, 89, 90}, LastDay, 3);
    RunDownOfSpan({88, 90}, LastDay, 1);
  }

  /** Completed days 1, 2, 3, 10, 11, 12, 13 give a longest streak of 4. */
  lemma LongestStreakExample()
    ensures IsLongestStreak({1, 2, 3, 10, 11, 12, 13}, 4)
  {
    var s: set<int> := {1, 2, 3, 10, 11, 12, 13};
    assert RunIn(s, 10, 4);
    forall a, k | RunIn(s, a, k) ensures k <= 4 {
      assert !(a in s && a + 1 in s && a + 2 in s && a + 3 in s && a + 4 in s);
    }
  }

  /** With non-negative time entries the hours learned are non-negative. */
  lemma HoursNonNegative(completed: seq<ProgressRecord>)
    requires forall i :: 0 <= i < |completed| && completed[i].row.timeSpent.Some? ==> completed[i].row.timeSpent.value >= 0
    ensures Sum(Minutes(completed)) as real / 60.0 >= 0.0
  {
    SumNonNegative(Minutes(completed));
  }

  /** Null scores are left out of both the sum and the count: scores 5, 3
      and 4 with one unscored record average 4. */
  lemma AverageQuizScoreExample(u: UserId, a: ProgressRow, b: ProgressRow, c: ProgressRow, d: ProgressRow)
    requires a.quizScore == Some(5) && b.quizScore == Some(3) && c.quizScore == Some(4) && d.quizScore.None?
    ensures Mean(Scores([ProgressRecord(u, 1, a), ProgressRecord(u, 2, b),
                         ProgressRecord(u, 3, d), ProgressRecord(u, 4, c)])) == 4.0
  {
    var r4 := [ProgressRecord(u, 4, c)];
    var r3 := [ProgressRecord(u, 3, d)] + r4;
    var r2 := [ProgressRecord(u, 2, b)] + r3;
    var rs := [ProgressRecord(u, 1, a)] + r2;
    assert r4[1..] == [];
    assert Scores(r4) == [4];
    assert r3[1..] == r4;
    assert Scores(r3) == [4];
    assert r2[1..] == r3;
    assert Scores(r2) == [3, 4];
    assert rs[1..] == r2;
    assert Scores(rs) == [5, 3, 4];
    assert rs == [ProgressRecord(u, 1, a), ProgressRecord(u, 2, b), ProgressRecord(u, 3, d), ProgressRecord(u, 4, c)];
    var sc := [5, 3, 4];
    assert sc[1..] == [3, 4] && sc[1..][1..] == [4] && sc[1..][1..][1..] == [];
    assert Sum(sc) == 12;
    assert Mean(sc) == 12.0 / 3.0;
  }

  /** The scores keep the records' order and multiplicity: the list splits
      over concatenation, and a single record contributes its score exactly
      when it has one. So `Mean(Scores(..))` averages each present score
      once per record. */
  lemma {:induction false} ScoresAppend(xs: seq<ProgressRecord>, ys: seq<ProgressRecord>)
    ensures Scores(xs + ys) == Scores(xs) + Scores(ys)
    ensures forall rec :: Scores([rec]) == if rec.row.quizScore.Some? then [rec.row.quizScore.value] else []
  {
    if xs == [] {
      assert xs + ys == ys;
    } else {
      assert (xs + ys)[1..] == xs[1..] + ys;
      ScoresAppend(xs[1..], ys);
    }
    forall rec ensures Scores([rec]) == if rec.row.quizScore.Some? then [rec.row.quizScore.value] else [] {
      assert [rec][1..] == [];
    }
  }

  /** The average quiz score is 0 exactly when no completed record has a
      score, and is otherwise the mean of the scores present. */
  lemma NoScoresAverageZero(completed: seq<ProgressRecord>)
    ensures (forall i :: 0 <= i < |completed| ==> completed[i].row.quizScore.None?) <==> Scores(completed) == []
    ensures (forall i :: 0 <= i < |completed| ==> completed[i].row.quizScore.None?) ==> Mean(Scores(completed)) == 0.0
    ensures (exists i :: 0 <= i < |completed| && completed[i].row.quizScore.Some?) ==>
      Mean(Scores(completed)) == Sum(Scores(completed)) as real / |Scores(completed)| as real
  {
    if exists i :: 0 <= i < |completed| && completed[i].row.quizScore.Some? {
      var i :| 0 <= i < |completed| && completed[i].row.quizScore.Some?;
      assert completed[i].row.quizScore.value in Scores(completed);
    }
  }
}
