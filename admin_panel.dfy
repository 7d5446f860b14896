/** The admin panel's data layer: the per-user rows derived from the
    fetched users and progress rows, the overview figures, the fallback used
    when a fetch throws, the status actions on the user list, and the
    payloads of the bulk content operations. */
module AdminPanel {
  import opened Common
  import ContentService

  /** A row of the users table as the panel reads it. */
  datatype AuthUser = AuthUser(id: string, email: string, name: string)

  /** A progress row as the panel reads it. Nullable columns are `None`. */
  datatype AdminProgress = AdminProgress(
    userId: string, day: int, completed: bool,
    timeSpent: Option<int>, quizScore: Option<int>, notes: Option<string>)

  datatype Status = Active | Inactive | Suspended

  /** A processed user; the creation and last-activity dates are not kept. */
  datatype AdminUser = AdminUser(
    id: string, email: string, name: string,
    progress: real, daysCompleted: int, totalHours: int, status: Status,
    quizScores: seq<int>, notes: seq<string>, timeSpent: seq<int>, completedDays: seq<int>)

  /** The overview figures other than the active-user count. */
  datatype AdminStats = AdminStats(totalUsers: int, completedUsers: int, averageProgress: real)

  datatype UserAction = Suspend | Activate | Delete

  /* ---------------- per-user derivation ---------------- */

  /** `allProgress.filter(p => p.user_id === user.id)`. */
  function RowsOf(all: seq<AdminProgress>, id: string): (r: seq<AdminProgress>)
    ensures |r| <= |all|
    ensures forall p :: p in r <==> p in all && p.userId == id
  {
    if all == [] then []
    else if all[0].userId == id then [all[0]] + RowsOf(all[1..], id)
    else RowsOf(all[1..], id)
  }

  /** The completed rows among `rows`. */
  function CompletedRows(rows: seq<AdminProgress>): (r: seq<AdminProgress>)
    ensures |r| <= |rows|
    ensures forall p :: p in r <==> p in rows && p.completed
  {
    if rows == [] then []
    else if rows[0].completed then [rows[0]] + CompletedRows(rows[1..])
    else CompletedRows(rows[1..])
  }

  /** `p.time_spent || 0`. */
  function MinutesOf(p: AdminProgress): int
  {
    if p.timeSpent.Some? then p.timeSpent.value else 0
  }

  /** `userProgressData.map(p => p.time_spent || 0)`. */
  function TimeSpentList(rows: seq<AdminProgress>): (r: seq<int>)
    ensures |r| == |rows| && forall i :: 0 <= i < |rows| ==> r[i] == MinutesOf(rows[i])
  {
    if rows == [] then [] else [MinutesOf(rows[0])] + TimeSpentList(rows[1..])
  }

  /** Quiz scores kept by `score !== undefined && score > 0`; a null score
      compares as 0 and is dropped too. */
  function QuizScoreList(rows: seq<AdminProgress>): (r: seq<int>)
    ensures |r| <= |rows|
    ensures forall x :: x in r ==> x > 0
    ensures forall x :: x in r ==> exists i :: 0 <= i < |rows| && rows[i].quizScore == Some(x)
    ensures forall i :: 0 <= i < |rows| && rows[i].quizScore.Some? && rows[i].quizScore.value > 0 ==>
      rows[i].quizScore.value in r
  {
    if rows == [] then []
    else if rows[0].quizScore.Some? && rows[0].quizScore.value > 0 then [rows[0].quizScore.value] + QuizScoreList(rows[1..])
    else QuizScoreList(rows[1..])
  }

  /** The characters `String.prototype.trim` strips: white space and line
      terminators. */
  predicate IsTrimmed(c: char)
  {
    c == ' ' || c == '\t' || c == '\n' || c == '\r' || c == '\U{000B}' || c == '\U{000C}'
    || c == '\U{00A0}' || c == '\U{1680}' || ('\U{2000}' <= c <= '\U{200A}')
    || c == '\U{2028}' || c == '\U{2029}' || c == '\U{202F}' || c == '\U{205F}'
    || c == '\U{3000}' || c == '\U{FEFF}'
  }

  /** `note.trim() !== ''`. */
  predicate NonBlank(s: string)
  {
    exists i :: 0 <= i < |s| && !IsTrimmed(s[i])
  }

  /** Notes kept by `note !== undefined && note.trim() !== ''`. A null
      note passes the first test and then `trim` throws: `None`. */
  function NoteList(rows: seq<AdminProgress>): (r: Option<seq<string>>)
    ensures r.None? <==> exists i :: 0 <= i < |rows| && rows[i].notes.None?
    ensures r.Some? ==> forall s :: s in r.value ==> NonBlank(s)
    ensures r.Some? ==> forall s :: s in r.value ==> exists i :: 0 <= i < |rows| && rows[i].notes == Some(s)
    ensures r.Some? ==> forall i :: 0 <= i < |rows| && NonBlank(rows[i].notes.value) ==> rows[i].notes.value in r.value
  {
    if rows == [] then Some([])
    else if rows[0].notes.None? then None
    else
      var rest := NoteList(rows[1..]);
      if rest.None? then None
      else if NonBlank(rows[0].notes.value) then Some([rows[0].notes.value] + rest.value)
      else rest
  }

  function Days(rows: seq<AdminProgress>): (r: seq<int>)
    ensures |r| == |rows| && forall i :: 0 <= i < |rows| ==> r[i] == rows[i].day
  {
    if rows == [] then [] else [rows[0].day] + Days(rows[1..])
  }

  /** `completedDays >= 90 ? 'active' : completedDays > 0 ? 'active' : 'inactive'`. */
  function StatusFor(daysCompleted: int): Status
  {
    if daysCompleted >= 90 then Active else if daysCompleted > 0 then Active else Inactive
  }

  /** `(completedDays / 90) * 100`. */
  function ProgressPercent(daysCompleted: int): real
  {
    (daysCompleted as real / 90.0) * 100.0
  }

  /** The map step of `processedUsers` for one user; `None` when a null
      note makes `trim` throw. */
  function ProcessUser(user: AuthUser, all: seq<AdminProgress>): (r: Option<AdminUser>)
  {
    var rows := RowsOf(all, user.id);
    var completed := CompletedRows(rows);
    var notes := NoteList(rows);
    if notes.None? then None
    else
      Some(AdminUser(user.id, user.email, user.name,
        ProgressPercent(|completed|), |completed|, Sum(TimeSpentList(rows)), StatusFor(|completed|),
        QuizScoreList(rows), notes.value, TimeSpentList(rows), Days(completed)))
  }

  /** `allUsers.map(...)`: `None` when any user's derivation throws. */
  function ProcessUsers(users: seq<AuthUser>, all: seq<AdminProgress>): (r: Option<seq<AdminUser>>)
    ensures r.Some? ==> |r.value| == |users|
    ensures r.Some? <==> forall i :: 0 <= i < |users| ==> ProcessUser(users[i], all).Some?
    ensures r.Some? ==> forall i :: 0 <= i < |users| ==> r.value[i] == ProcessUser(users[i], all).value
  {
    if users == [] then Some([])
    else
      var first := ProcessUser(users[0], all);
      var rest := ProcessUsers(users[1..], all);
      if first.None? || rest.None? then None
      else Some([first.value] + rest.value)
  }

  /* ---------------- overview figures ---------------- */

  /** Number of completed rows of user `id`. */
  function CompletedCount(all: seq<AdminProgress>, id: string): nat
  {
    |CompletedRows(RowsOf(all, id))|
  }

  /** `completedUsers`: the users with at least 90 completed rows. */
  function CompletedUsers(users: seq<AuthUser>, all: seq<AdminProgress>): (n: int)
    ensures 0 <= n <= |users|
  {
    if users == [] then 0
    else (if CompletedCount(all, users[0].id) >= 90 then 1 else 0) + CompletedUsers(users[1..], all)
  }

  /** The reduce of `averageProgress`: the sum of the users' percentages. */
  function ProgressSum(users: seq<AuthUser>, all: seq<AdminProgress>): real
  {
    if users == [] then 0.0
    else ProgressSum(users[..|users| - 1], all) + ProgressPercent(CompletedCount(all, users[|users| - 1].id))
  }

  /** `averageProgress`. */
  function AverageProgress(users: seq<AuthUser>, all: seq<AdminProgress>): real
  {
    if |users| > 0 then ProgressSum(users, all) / |users| as real else 0.0
  }

  function ComputeAdminStats(users: seq<AuthUser>, all: seq<AdminProgress>): AdminStats
  {
    AdminStats(|users|, CompletedUsers(users, all), AverageProgress(users, all))
  }

  /** The row the catch block shows: the signed-in admin with no progress. */
  function FallbackUser(current: AuthUser): AdminUser
  {
    AdminUser(current.id, current.email, current.name, 0.0, 0, 0, Active, [], [], [], [])
  }

  const FallbackStats := AdminStats(1, 0, 0.0)
  const FallbackMessage := "Using fallback data. Admin functions may not be fully configured."

  /* ---------------- user actions ---------------- */

  /** `handleUserAction`'s map step for one user. */
  function ApplyAction(u: AdminUser, id: string, action: UserAction): AdminUser
  {
    if u.id == id then
      match action
      case Suspend => u.(status := Suspended)
      case Activate => u.(status := Active)
      case Delete => u
    else u
  }

  /** `handleUserAction(userId, action)` on the user list. */
  function HandleUserAction(users: seq<AdminUser>, id: string, action: UserAction): (r: seq<AdminUser>)
    ensures |r| == |users|
    ensures forall i :: 0 <= i < |users| ==> r[i] == ApplyAction(users[i], id, action)
  {
    seq(|users|, i requires 0 <= i < |users| => ApplyAction(users[i], id, action))
  }

  class AdminPanelState {
    var users: seq<AdminUser>
    var userStats: AdminStats
    var error: string

    constructor ()
      ensures users == [] && userStats == AdminStats(0, 0, 0.0) && error == ""
    {
      users := [];
      userStats := AdminStats(0, 0, 0.0);
      error := "";
    }

    /** `fetchRealTimeData`. `fetched` is what the store calls returned, or
        `None` when one of them threw. */
    method FetchRealTimeData(current: AuthUser, fetched: Option<(seq<AuthUser>, seq<AdminProgress>)>)
      modifies this
      ensures fetched.Some? && ProcessUsers(fetched.value.0, fetched.value.1).Some? ==>
        users == ProcessUsers(fetched.value.0, fetched.value.1).value &&
        userStats == ComputeAdminStats(fetched.value.0, fetched.value.1) && error == old(error)
      ensures fetched.None? || ProcessUsers(fetched.value.0, fetched.value.1).None? ==>
        users == [FallbackUser(current)] && userStats == FallbackStats && error == FallbackMessage
    {
      var processed: Option<seq<AdminUser>> := None;
      if fetched.Some? {
        processed := ProcessUsers(fetched.value.0, fetched.value.1);
      }
      if processed.Some? {
        userStats := ComputeAdminStats(fetched.value.0, fetched.value.1);
        users := processed.value;
      } else {
        users := [FallbackUser(current)];
        userStats := FallbackStats;
        error := FallbackMessage;
      }
    }

    method ApplyUserAction(id: string, action: UserAction)
      modifies this
      ensures users == HandleUserAction(old(users), id, action)
      ensures userStats == old(userStats) && error == old(error)
    {
      users := HandleUserAction(users, id, action);
    }
  }

  /* ---------------- bulk payloads ---------------- */

  /** The number of days from `startDay` to `endDay` inclusive. */
  function DayCount(startDay: int, endDay: int): nat
  {
    if endDay >= startDay then endDay - startDay + 1 else 0
  }

  /** The summaries `handleBulkCreateSummaries` submits. */
  method BulkSummaries(startDay: int, endDay: int, createdBy: string) returns (summaries: seq<ContentService.DaySummary>)
    ensures |summaries| == DayCount(startDay, endDay)
    ensures forall i :: 0 <= i < |summaries| ==>
      summaries[i] == ContentService.GenerateDefaultSummary(startDay + i).(createdBy := createdBy)
  {
    summaries := [];
    var day := startDay;
    while day <= endDay
      invariant startDay <= day && (day <= endDay + 1 || day == startDay)
      invariant |summaries| == day - startDay
      invariant forall i :: 0 <= i < |summaries| ==>
        summaries[i] == ContentService.GenerateDefaultSummary(startDay + i).(createdBy := createdBy)
      decreases endDay - day
    {
      summaries := summaries + [ContentService.GenerateDefaultSummary(day).(createdBy := createdBy)];
      day := day + 1;
    }
  }

  /** The content pages `handleBulkCreateContent` submits. */
  method BulkContent(startDay: int, endDay: int, createdBy: string) returns (content: seq<ContentService.DayContentRecord>)
    ensures |content| == DayCount(startDay, endDay)
    ensures forall i :: 0 <= i < |content| ==>
      content[i] == ContentService.GenerateDefaultContent(startDay + i).(createdBy := createdBy)
  {
    content := [];
    var day := startDay;
    while day <= endDay
      invariant startDay <= day && (day <= endDay + 1 || day == startDay)
      invariant |content| == day - startDay
      invariant forall i :: 0 <= i < |content| ==>
        content[i] == ContentService.GenerateDefaultContent(startDay + i).(createdBy := createdBy)
      decreases endDay - day
    {
      content := content + [ContentService.GenerateDefaultContent(day).(createdBy := createdBy)];
      day := day + 1;
    }
  }

  /** The quizzes `handleBulkCreateQuizzes` submits. */
  method BulkQuizzes(startDay: int, endDay: int, createdBy: string) returns (quizzes: seq<ContentService.DayQuiz>)
    ensures |quizzes| == DayCount(startDay, endDay)
    ensures forall i :: 0 <= i < |quizzes| ==>
      quizzes[i] == ContentService.GenerateDefaultQuiz(startDay + i).(createdBy := createdBy)
  {
    quizzes := [];
    var day := startDay;
    while day <= endDay
      invariant startDay <= day && (day <= endDay + 1 || day == startDay)
      invariant |quizzes| == day - startDay
      invariant forall i :: 0 <= i < |quizzes| ==>
        quizzes[i] == ContentService.GenerateDefaultQuiz(startDay + i).(createdBy := createdBy)
      decreases endDay - day
    {
      quizzes := quizzes + [ContentService.GenerateDefaultQuiz(day).(createdBy := createdBy)];
      day := day + 1;
    }
  }

  /* ---------------- properties ---------------- */

  /** A processed user: the day list is the completed rows' days in input
      order, the day count its length, the hours the raw minute total of
      all the user's rows, and the status `Active` exactly when some day is
      completed. */
  lemma ProcessedUserFacts(user: AuthUser, all: seq<AdminProgress>)
    requires ProcessUser(user, all).Some?
    ensures var u := ProcessUser(user, all).value;
      var rows := RowsOf(all, user.id);
      && u.id == user.id
      && u.completedDays == Days(CompletedRows(rows))
      && u.daysCompleted == |u.completedDays| == CompletedCount(all, user.id)
      && u.totalHours == Sum(TimeSpentList(rows))
      && (u.status == Active <==> u.daysCompleted > 0)
      && u.status != Suspended
      && |u.timeSpent| == |rows|
      && (forall x :: x in u.quizScores ==> x > 0)
      && (forall s :: s in u.notes ==> NonBlank(s))
  {
  }

  /** With non-negative minutes the hours are non-negative, and a user
      without rows has nothing: no hours, no days, inactive. */
  lemma ProcessedUserEmpty(user: AuthUser, all: seq<AdminProgress>)
    requires forall i :: 0 <= i < |all| ==> all[i].userId != user.id
    ensures ProcessUser(user, all).Some?
    ensures ProcessUser(user, all).value.daysCompleted == 0
    ensures ProcessUser(user, all).value.totalHours == 0
    ensures ProcessUser(user, all).value.status == Inactive
  {
  }

  /** A null note among a user's rows makes the whole derivation throw, so
      the panel shows the fallback. */
  lemma NullNoteFallsBack(current: AuthUser, users: seq<AuthUser>, all: seq<AdminProgress>, i: int)
    requires 0 <= i < |users|
    requires exists p :: p in all && p.userId == users[i].id && p.notes.None?
    ensures ProcessUsers(users, all).None?
  {
    var p :| p in all && p.userId == users[i].id && p.notes.None?;
    var rows := RowsOf(all, users[i].id);
    assert p in rows;
    var k :| 0 <= k < |rows| && rows[k] == p;
  }

  /** No users: no completed users and an average progress of 0. */
  lemma NoUsersStats(all: seq<AdminProgress>)
    ensures ComputeAdminStats([], all) == AdminStats(0, 0, 0.0)
  {
  }

  /** The user's rows keep their input order and multiplicity: the filter
      distributes over concatenation and keeps a single row exactly when it
      is the user's. */
  lemma {:induction false} RowsOfAppend(xs: seq<AdminProgress>, ys: seq<AdminProgress>, id: string)
    ensures RowsOf(xs + ys, id) == RowsOf(xs, id) + RowsOf(ys, id)
    ensures forall p :: RowsOf([p], id) == if p.userId == id then [p] else []
  {
    if xs == [] {
      assert xs + ys == ys;
    } else {
      assert (xs + ys)[1..] == xs[1..] + ys;
      RowsOfAppend(xs[1..], ys, id);
    }
    forall p ensures RowsOf([p], id) == if p.userId == id then [p] else [] {
      assert [p][1..] == [];
    }
  }

  /** The completed rows keep their input order and multiplicity. */
  lemma {:induction false} CompletedRowsAppend(xs: seq<AdminProgress>, ys: seq<AdminProgress>)
    ensures CompletedRows(xs + ys) == CompletedRows(xs) + CompletedRows(ys)
    ensures forall p :: CompletedRows([p]) == if p.completed then [p] else []
  {
    if xs == [] {
      assert xs + ys == ys;
    } else {
      assert (xs + ys)[1..] == xs[1..] + ys;
      CompletedRowsAppend(xs[1..], ys);
    }
    forall p ensures CompletedRows([p]) == if p.completed then [p] else [] {
      assert [p][1..] == [];
    }
  }

  /** The rows' days distribute over concatenation. */
  lemma {:induction false} DaysAppend(xs: seq<AdminProgress>, ys: seq<AdminProgress>)
    ensures Days(xs + ys) == Days(xs) + Days(ys)
  {
    if xs == [] {
      assert xs + ys == ys;
    } else {
      assert (xs + ys)[1..] == xs[1..] + ys;
      DaysAppend(xs[1..], ys);
    }
  }

  /** A processed user's completed-day list is the days of the user's
      completed rows in input order, and `daysCompleted` counts those rows:
      both split over any split of the progress rows, and a single row
      contributes its day, and 1, exactly when it is the user's and
      completed. */
  lemma ProcessedDaysAppend(xs: seq<AdminProgress>, ys: seq<AdminProgress>, id: string)
    ensures Days(CompletedRows(RowsOf(xs + ys, id))) == Days(CompletedRows(RowsOf(xs, id))) + Days(CompletedRows(RowsOf(ys, id)))
    ensures CompletedCount(xs + ys, id) == CompletedCount(xs, id) + CompletedCount(ys, id)
    ensures forall p :: Days(CompletedRows(RowsOf([p], id))) == if p.userId == id && p.completed then [p.day] else []
    ensures forall p :: CompletedCount([p], id) == if p.userId == id && p.completed then 1 else 0
  {
    RowsOfAppend(xs, ys, id);
    CompletedRowsAppend(RowsOf(xs, id), RowsOf(ys, id));
    DaysAppend(CompletedRows(RowsOf(xs, id)), CompletedRows(RowsOf(ys, id)));
    forall p ensures Days(CompletedRows(RowsOf([p], id))) == if p.userId == id && p.completed then [p.day] else [] {
      RowsOfAppend([p], [], id);
      CompletedRowsAppend([p], []);
      var e: seq<AdminProgress> := [];
      assert Days(e) == [];
      assert [p][1..] == [];
    }
  }

  /** `completedUsers` counts the qualifying users: it adds up over any
      split of the user list, and a single user counts 1 exactly when they
      have at least 90 completed rows. */
  lemma {:induction false} CompletedUsersAppend(xs: seq<AuthUser>, ys: seq<AuthUser>, all: seq<AdminProgress>)
    ensures CompletedUsers(xs + ys, all) == CompletedUsers(xs, all) + CompletedUsers(ys, all)
    ensures forall u :: CompletedUsers([u], all) == if CompletedCount(all, u.id) >= 90 then 1 else 0
  {
    if xs == [] {
      assert xs + ys == ys;
    } else {
      assert (xs + ys)[1..] == xs[1..] + ys;
      CompletedUsersAppend(xs[1..], ys, all);
    }
    forall u ensures CompletedUsers([u], all) == if CompletedCount(all, u.id) >= 90 then 1 else 0 {
      assert [u][1..] == [];
    }
  }

  /** The percentage sum adds up over any split of the user list, and a
      single user contributes their own percentage. */
  lemma {:induction false} ProgressSumAppend(xs: seq<AuthUser>, ys: seq<AuthUser>, all: seq<AdminProgress>)
    ensures ProgressSum(xs + ys, all) == ProgressSum(xs, all) + ProgressSum(ys, all)
    ensures forall u :: ProgressSum([u], all) == ProgressPercent(CompletedCount(all, u.id))
    decreases |ys|
  {
    if ys == [] {
      assert xs + ys == xs;
    } else {
      var zs := xs + ys;
      var init := ys[..|ys| - 1];
      var last := ProgressPercent(CompletedCount(all, ys[|ys| - 1].id));
      assert zs[..|zs| - 1] == xs + init;
      assert zs[|zs| - 1] == ys[|ys| - 1];
      assert ProgressSum(zs, all) == ProgressSum(xs + init, all) + last;
      assert ProgressSum(ys, all) == ProgressSum(init, all) + last;
      ProgressSumAppend(xs, init, all);
    }
    forall u ensures ProgressSum([u], all) == ProgressPercent(CompletedCount(all, u.id)) {
      assert [u][..0] == [];
    }
  }

  /** With every user at 90 completed rows or more, every user counts as
      completed. */
  lemma {:induction false} AllCompletedUsers(users: seq<AuthUser>, all: seq<AdminProgress>)
    requires forall i :: 0 <= i < |users| ==> CompletedCount(all, users[i].id) >= 90
    ensures CompletedUsers(users, all) == |users|
  {
    if users != [] {
      AllCompletedUsers(users[1..], all);
    }
  }

  /** A user action changes only the users with the given id, and of them
      only the status; "delete" changes nothing. */
  lemma UserActionFacts(users: seq<AdminUser>, id: string, action: UserAction)
    ensures var r := HandleUserAction(users, id, action);
      && (forall i :: 0 <= i < |users| && users[i].id != id ==> r[i] == users[i])
      && (forall i :: 0 <= i < |users| ==> r[i] == users[i].(status := r[i].status))
      && (forall i :: 0 <= i < |users| && users[i].id == id ==>
            r[i].status == match action case Suspend => Suspended case Activate => Active case Delete => users[i].status)
      && (action == Delete ==> r == users)
  {
  }

  /** Suspending then activating a user leaves them active, and each
      action is idempotent. */
  lemma UserActionIdempotent(users: seq<AdminUser>, id: string, action: UserAction)
    ensures HandleUserAction(HandleUserAction(users, id, action), id, action) == HandleUserAction(users, id, action)
    ensures HandleUserAction(HandleUserAction(users, id, Suspend), id, Activate) == HandleUserAction(users, id, Activate)
  {
  }

  /** A bulk summary payload covers the days in ascending order and credits
      the submitting admin. */
  lemma BulkSummaryDays(startDay: int, endDay: int, createdBy: string, summaries: seq<ContentService.DaySummary>)
    requires |summaries| == DayCount(startDay, endDay)
    requires forall i :: 0 <= i < |summaries| ==>
      summaries[i] == ContentService.GenerateDefaultSummary(startDay + i).(createdBy := createdBy)
    ensures forall i :: 0 <= i < |summaries| ==> summaries[i].day == startDay + i && summaries[i].createdBy == createdBy
    ensures forall i :: 0 <= i < |summaries| ==> |summaries[i].keyPoints| == 3
    ensures endDay < startDay ==> summaries == []
  {
  }
}
