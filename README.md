# ai-learn: a verified model of the 90-day course tracker

ai-learn follows each learner through a fixed course of 90 numbered days. It:

- builds a calendar from a day-keyed learning plan. Day 1 is a Monday. Weekend days are allocated 3 hours and weekdays 1 hour;
- stores one progress row per user and day in a `user_progress` table;
- derives statistics from those rows: days completed, hours learned, the current streak counted back from day 90, the longest streak within days 1..90, and the average quiz score;
- shows dashboard and week views with clamped navigation;
- scores a quiz, which passes at 60 %;
- gives an admin panel that aggregates users and builds default day content in bulk;
- checks and activates learning plans;
- picks fallback videos from ordered keyword tables, and normalises YouTube links.

The model has one module per core source file:

- `ProgressService`. The table is a map keyed on `(user, day)`, inside the class `ProgressStore`. Writes are upserts. `getUserStats` keeps its loops as methods with invariants.
- `LearningPlanGenerator`. `generateDayStructure` is a loop. The weekday, week-number and current-week functions are ordinary functions.
- `Dashboard`. The class `DashboardState` holds `days`, `currentDay`, `completedDays` and `view`.
- `WeeklyOverview`. This module is made of pure filters and sums.
- `QuizComponent`. The class `Quiz` holds the question index, the answer array and the two flags.
- `AdminPanel`. It contains the per-user derivation, `handleUserAction`, the fallback data and the three bulk builders (loops). The class `AdminPanelState` holds the admin panel's users, statistics and error state.
- `LearningPlanService`. It contains the structural check over a JSON-like value, and `learning_plans` modelled as a class `LearningPlanTable` that holds the rows.
- `ContentService`, `VideoPlayer` and `GeminiService`. These hold the default records, the embed-URL rule, the ordered fallback tables and the video-id extraction.
- `Common`. It holds the option type, ASCII lower-casing, substring search and integer-to-decimal conversion.

How external calls appear in the model:

- Every database call is replaced by an in-memory map or sequence.
- Whether a store call fails is a parameter. On failure nothing changes and the error is passed on, as the source rethrows it.
- Timestamps are opaque values supplied by the caller.

Three facts about the code that a reader might expect otherwise:

- The code has no range check on `day`. Days outside 1..90 are stored like any other day.
- There is no operation that seeds initial progress.
- `markDayComplete` does not validate anything.

## Model

| member | source | states |
|---|---|---|
| ProgressService.Upsert | src/services/progressService.ts:36-69 | an upsert keeps every other `(user, day)` entry and adds at most the one key written |
| ProgressService.Merge | src/services/progressService.ts:39-48 | the upsert's merge: a column the payload carries replaces the stored one, and the rest are kept; `MarkCompleteReadBack` and `MarkIncompleteKeepsMetadata` state it |
| ProgressService.CompletePatch | src/services/progressService.ts:39-48 | the payload of `markDayComplete`; `MarkCompleteReadBack` states what it stores |
| ProgressService.IncompletePatch | src/services/progressService.ts:58-64 | the payload of `markDayIncomplete`; `MarkIncompleteKeepsMetadata` states what it stores |
| ProgressService.UpdatePatch | src/services/progressService.ts:143-148 | `updates` with `updated_at` last; `UpdateProgressOverrides` states it |
| ProgressService.UpdateKey | src/services/progressService.ts:143-148 | the key the spread leaves: `updates`' user and day where given; `UpdateProgressOverrides` states it |
| ProgressService.ProgressStore.constructor | src/services/progressService.ts:24 | the table starts empty |
| ProgressService.CompletedDays | src/services/progressService.ts:135-138 | the user's completed days; `GetCompletedDays`, `MarkCompleteCompletedDays` and `MarkIncompleteCompletedDays` state what it holds and how writes change it |
| ProgressService.CurrentStreak | src/services/progressService.ts:86-101 | the run of completed days back from day 90; `CurrentStreakLoop`, `CurrentStreakFromSortedDays`, `StreakBounds` and `CurrentStreakExamples` state its value |
| ProgressService.IsLongestStreak | src/services/progressService.ts:103-115 | a run of that length lies in 1..90 and none is longer; `LongestStreakLoop`, `LongestStreakUnique` and `LongestStreakExample` state it |
| ProgressService.ProgressStore.GetUserProgress | src/services/progressService.ts:25-34 | a failure is returned unchanged; otherwise the result lists exactly the user's rows, one per day, ordered by ascending day |
| ProgressService.ProgressStore.GetCompletedRows | src/services/progressService.ts:72-80 | a failure is returned; otherwise exactly the user's completed rows, one per day |
| ProgressService.ProgressStore.MarkDayComplete | src/services/progressService.ts:36-53 | on failure the table is unchanged and the error is returned; otherwise the row is upserted with completed, `completed_at` and `updated_at` set to now, and each metadata field given replaces the stored one. The stored row is returned |
| ProgressService.ProgressStore.MarkDayIncomplete | src/services/progressService.ts:55-69 | on failure nothing changes; otherwise the row is upserted as not completed with `completed_at` null, and the stored row is returned |
| ProgressService.ProgressStore.UpdateProgress | src/services/progressService.ts:140-153 | on failure nothing changes; otherwise the row at the key taken from `updates` where it has one is merged with `updates`, and `updated_at` is set last |
| ProgressService.ProgressStore.GetCompletedDays | src/services/progressService.ts:135-138 | the result is exactly the set of days whose row for the user is completed; errors are passed on |
| ProgressService.ProgressStore.GetUserStats | src/services/progressService.ts:71-133 | total days is the number of completed days, the current streak is the run back from day 90, and the longest streak is the largest run inside 1..90; errors are passed on |
| ProgressService.ComputeStats | src/services/progressService.ts:80-124 | on the fetched rows: total = row count, hours = minutes (missing = 0) / 60, current streak per the sorted walk, longest = maximal run in 1..90, average = mean of defined scores |
| ProgressService.CurrentStreakLoop | src/services/progressService.ts:91-101 | the loop's count equals the walk of the descending list from day 90, stopping at the first mismatch |
| ProgressService.LongestStreakLoop | src/services/progressService.ts:104-115 | the loop over days 1..90 returns the length of the longest run of completed days within the course, which is unique |
| ProgressService.SortDesc | src/services/progressService.ts:87-89 | the sort yields a descending permutation of the days |
| ProgressService.DayList | src/services/progressService.ts:88 | the mapped list holds each row's day, in order |
| ProgressService.Minutes | src/services/progressService.ts:82-84 | each row contributes its `time_spent`, or 0 when missing |
| ProgressService.Scores | src/services/progressService.ts:118-120 | every score that is present, 0 included, is kept, and each kept score is some row's score; `ScoresAppend` fixes order and multiplicity |
| ProgressService.ScoresAppend | src/services/progressService.ts:118-120 | the score list splits over concatenation and a single record contributes its score exactly when present, so each present score appears once per record, in record order |
| ProgressService.Mean | src/services/progressService.ts:122-124 | the average of the score list, 0 when empty; `NoScoresAverageZero` and `AverageQuizScoreExample` state it |
| ProgressService.HasDay | src/services/progressService.ts:109 | `some(d => d.day === day)` holds exactly when the day is among the rows' days |
| ProgressService.RunDown | src/services/progressService.ts:91-101 | the run length back from a day never exceeds the number of days |
| ProgressService.StreakWalk | src/services/progressService.ts:94-101 | the walk of the sorted list; `CurrentStreakLoop` equals it and `StreakWalkIsRun` ties it to `RunDown` |
| ProgressService.DistinctDaysCount | src/services/progressService.ts:81 | with one row per day, the row count equals the number of distinct days |
| ProgressService.StreakWalkIsRun | src/services/progressService.ts:94-101 | on a strictly descending list, the walk counts the run `e, e-1, ...` of its days |
| ProgressService.CurrentStreakFromSortedDays | src/services/progressService.ts:87-101 | sorting distinct days and walking them gives the run back from day 90, or 0 when a day after 90 is present |
| ProgressService.CurrentStreakOfStrictList | src/services/progressService.ts:87-101 | the same for any strictly descending list of the set |
| ProgressService.LateDayStopsWalk | src/services/progressService.ts:92-99 | a completed day after 90 comes first in the descending order and makes the current streak 0 |
| ProgressService.MarkCompleteCompletedDays | src/services/progressService.ts:36-53 | marking a day complete adds exactly that day to the user's completed set, and other users' sets are unchanged |
| ProgressService.MarkIncompleteCompletedDays | src/services/progressService.ts:55-69 | marking a day incomplete removes exactly that day, and other users' sets are unchanged |
| ProgressService.MarkCompleteTwice | src/services/progressService.ts:36-53 | marking a day complete twice leaves one entry and the same completed set as marking it once |
| ProgressService.MarkCompleteReadBack | src/services/progressService.ts:39-48 | the stored row is completed with both stamps set, and each metadata field is the one given or, when absent, the stored one |
| ProgressService.MarkIncompleteKeepsMetadata | src/services/progressService.ts:58-64 | marking a day incomplete keeps its time, score and notes and clears `completed_at` |
| ProgressService.UpdateProgressOverrides | src/services/progressService.ts:143-148 | a `user_id` or `day` in `updates` overrides the arguments, `updated_at` is always now, and every column given in `updates` is the one stored |
| ProgressService.RunDownSpan | src/services/progressService.ts:94-101 | the counted run is all in the set and the day before it is not |
| ProgressService.RunDownOfSpan | src/services/progressService.ts:94-101 | the run length is determined by the gap: a full span followed by a missing day gives exactly that length |
| ProgressService.RunDownBelow | src/services/progressService.ts:91-101 | over positive days, a run back from `e` has at most `e` days |
| ProgressService.StreakBounds | src/services/progressService.ts:86-115 | for days within 1..90: 0 <= current streak <= longest streak <= 90 |
| ProgressService.DayZeroLengthensCurrentStreak | src/services/progressService.ts:94-115 | a stored day 0 extends the current streak to 91 while the longest stays 90, because no range check exists |
| ProgressService.DayAfterCourseResetsCurrentStreak | src/services/progressService.ts:87-101 | a completed day 91 makes the current streak 0 |
| ProgressService.LongestStreakUnique | src/services/progressService.ts:104-115 | the longest-streak value is uniquely determined by the completed days |
| ProgressService.CurrentStreakExamples | src/services/progressService.ts:86-101 | {88,89,90} gives 3 and {88,90} gives 1 |
| ProgressService.LongestStreakExample | src/services/progressService.ts:103-115 | {1,2,3,10..13} has longest streak 4 |
| ProgressService.HoursNonNegative | src/services/progressService.ts:82-84 | with non-negative minutes the total hours are non-negative |
| ProgressService.AverageQuizScoreExample | src/services/progressService.ts:117-124 | scores 5, 3, 4 and one missing average to 4, so a missing score is skipped and not counted as 0 |
| ProgressService.NoScoresAverageZero | src/services/progressService.ts:117-124 | no completed row has a score exactly when the score list is empty; then the average is 0, and otherwise it is the sum of the present scores over their number |
| LearningPlanGenerator.JsRem | src/utils/learningPlanGenerator.ts:13 | JavaScript `%`: the remainder takes the sign of the dividend |
| LearningPlanGenerator.DayOfWeek | src/utils/learningPlanGenerator.ts:13 | for day >= 1 the weekday is `(day-1) mod 7 + 1` in 1..7; below 1 it follows JavaScript's signed remainder |
| LearningPlanGenerator.IsWeekend | src/utils/learningPlanGenerator.ts:13-14 | weekdays 6 and 7; `WeekendNames` ties it to Saturday and Sunday and `WeekdayPeriodic` to the 7-day cycle |
| LearningPlanGenerator.TimeAllocation | src/utils/learningPlanGenerator.ts:20 | 3 hours on weekends and 1 otherwise; `SevenDayBlockHours` sums any week to 11 hours |
| LearningPlanGenerator.DayRecord | src/utils/learningPlanGenerator.ts:8-21 | the record of one day; `GenerateDayStructure` states each field of it |
| LearningPlanGenerator.GenerateDayStructure | src/utils/learningPlanGenerator.ts:4-27 | exactly 90 records; record i has day i+1, the plan's `day<N>` videos or none, the weekend flag for weekdays 6 and 7, and 3 hours on weekends and 1 otherwise |
| LearningPlanGenerator.DayOneIsMonday | src/utils/learningPlanGenerator.ts:29-33 | day 1 is named Monday |
| LearningPlanGenerator.WeekdayPeriodic | src/utils/learningPlanGenerator.ts:13-20 | weekday, weekend flag, allocation and name repeat every 7 days |
| LearningPlanGenerator.BlockHoursShift | src/utils/learningPlanGenerator.ts:20 | a block's hours split off at either end |
| LearningPlanGenerator.SevenDayBlockHours | src/utils/learningPlanGenerator.ts:20 | any 7 consecutive days total 11 hours |
| LearningPlanGenerator.GetDayOfWeekName | src/utils/learningPlanGenerator.ts:29-33 | for day >= 1 a non-empty weekday name; `undefined` exactly when the index is negative |
| LearningPlanGenerator.WeekendNames | src/utils/learningPlanGenerator.ts:13-14 | a day is a weekend day exactly when its name is Saturday or Sunday |
| LearningPlanGenerator.GetWeekNumber | src/utils/learningPlanGenerator.ts:35-37 | the week number w is the ceiling of day/7: 7(w-1) < day <= 7w |
| LearningPlanGenerator.WeekNumberMonotone | src/utils/learningPlanGenerator.ts:35-37 | week numbers never decrease as days increase |
| LearningPlanGenerator.WeekNumberOnto | src/utils/learningPlanGenerator.ts:35-37 | days 1..90 map onto weeks 1..13 |
| LearningPlanGenerator.GetCurrentWeekDays | src/utils/learningPlanGenerator.ts:39-42 | consecutive days from the week start, at most 7, all <= 90 |
| LearningPlanGenerator.KeepUpTo | src/utils/learningPlanGenerator.ts:41 | the filter keeps the prefix of a consecutive run that is <= the bound |
| LearningPlanGenerator.CurrentWeekDaysFacts | src/utils/learningPlanGenerator.ts:39-42 | for a day in 1..90 the result contains it; days 85..90 give [85..90]; every day shares the week number of the input |
| Dashboard.AddDay | src/components/Dashboard.tsx:28-30 | set insertion: the members are the old ones plus the day, and the size grows only when the day is new |
| Dashboard.AllocationOf | src/components/Dashboard.tsx:34-35 | the first record for the day gives its allocation, and no record gives 0 |
| Dashboard.TotalHoursCompleted | src/components/Dashboard.tsx:32-37 | the sum of the completed days' allocations; `TotalHoursAfterAdd`, `CalendarAllocation` and `CalendarTotalHoursBounds` state it |
| Dashboard.NextDay | src/components/Dashboard.tsx:206-209 | one day on, capped at 90; `DayNavigation` states its range and that it undoes `PreviousDay` |
| Dashboard.PreviousDay | src/components/Dashboard.tsx:216-218 | one day back, floored at 1; `DayNavigation` states it |
| Dashboard.FirstDayOfWeek | src/components/Dashboard.tsx:62-66 | `(w-1)*7+1`; `WeekChangeLandsOnWeekStart` states it has week number w |
| Dashboard.RecentWindow | src/components/Dashboard.tsx:238-239 | the window has 7 entries |
| Dashboard.DashboardState.constructor | src/components/Dashboard.tsx:14-22 | the days are the generated calendar, the current day is 1, the completed set is empty and the view is the dashboard |
| Dashboard.DashboardState.MarkDayComplete | src/components/Dashboard.tsx:28-30 | the completed set becomes old ∪ {day}, and nothing else changes |
| Dashboard.DashboardState.SkipToNextDay | src/components/Dashboard.tsx:206-209 | the current day becomes min(day+1, 90) |
| Dashboard.DashboardState.GoToPreviousDay | src/components/Dashboard.tsx:216-218 | the current day becomes max(day-1, 1) |
| Dashboard.DashboardState.SelectDay | src/components/Dashboard.tsx:57-60 | selecting a day makes it current and opens the day view |
| Dashboard.DashboardState.ChangeWeek | src/components/Dashboard.tsx:62-66 | the current day becomes (w-1)*7+1 |
| Dashboard.DashboardState.PickRecentDay | src/components/Dashboard.tsx:252 | the current day becomes the clicked window entry |
| Dashboard.AddDayFacts | src/components/Dashboard.tsx:28-30 | insertion is idempotent, grows the size by at most one and removes nothing |
| Dashboard.TotalHoursAfterAdd | src/components/Dashboard.tsx:32-37 | adding a new day adds its allocation to the total, and adding a present day changes nothing |
| Dashboard.CalendarAllocation | src/components/Dashboard.tsx:32-37 | on the generated calendar a day in 1..90 contributes its allocation, and any other day contributes 0 |
| Dashboard.CalendarTotalHoursBounds | src/components/Dashboard.tsx:32-37 | on the calendar the total lies between the number of completed days and three times that number |
| Dashboard.DayNavigation | src/components/Dashboard.tsx:206-218 | next and previous keep the day in 1..90, undo each other away from the ends, and stop at the ends |
| Dashboard.WeekChangeLandsOnWeekStart | src/components/Dashboard.tsx:62-66 | the new day is the first day of week w, of that week number, and is the week view's start day |
| Dashboard.RecentWindowFacts | src/components/Dashboard.tsx:238-239 | every entry lies in [1, currentDay], entries do not decrease, and the last entry is currentDay |
| Dashboard.RecentWindowEarly | src/components/Dashboard.tsx:239 | on day 3 the window repeats day 1: [1,1,1,1,1,2,3] |
| WeeklyOverview.WeekEndDay | src/components/WeeklyOverview.tsx:25 | the end is start+6 clamped to 90 |
| WeeklyOverview.WeekStartDay | src/components/WeeklyOverview.tsx:24 | the first day of the week; `WeekLength` and `WeekNavigationInRange` state its bounds and week number |
| WeeklyOverview.TotalHoursThisWeek | src/components/WeeklyOverview.tsx:32 | the sum of the week's allocations; `CalendarWeekHours` gives 11 for a full week and 8 for week 13 |
| WeeklyOverview.CompletedHoursThisWeek | src/components/WeeklyOverview.tsx:33-35 | the sum over the completed days; `CompletedHoursAtMostTotal` bounds it by the total |
| WeeklyOverview.GetWeekDays | src/components/WeeklyOverview.tsx:23-28 | keeps exactly the entries whose day lies in the week's range |
| WeeklyOverview.CompletedEntries | src/components/WeeklyOverview.tsx:31 | keeps exactly the week entries whose day is completed; `CompletedEntriesAppend` fixes order and multiplicity |
| WeeklyOverview.CompletedThisWeek | src/components/WeeklyOverview.tsx:31 | the count is at most the number of week entries; `CompletedThisWeekCounts` states it is the number of completed entries |
| WeeklyOverview.CompletedEntriesAppend | src/components/WeeklyOverview.tsx:31-35 | the completed entries split over concatenation, and a single entry is kept exactly when its day is completed |
| WeeklyOverview.CompletedThisWeekCounts | src/components/WeeklyOverview.tsx:31 | the count splits over concatenation, and a single entry counts 1 exactly when its day is completed |
| WeeklyOverview.Hours | src/components/WeeklyOverview.tsx:32-35 | the sum of `timeAllocation`; `CalendarSliceHours` and `CompletedHoursAtMostTotal` state it |
| WeeklyOverview.PreviousWeek | src/components/WeeklyOverview.tsx:90-94 | moving back happens exactly when week > 1, and goes to week-1 |
| WeeklyOverview.NextWeek | src/components/WeeklyOverview.tsx:103-107 | moving on happens exactly when week < 13, and goes to week+1 |
| WeeklyOverview.PrependAscending | src/components/WeeklyOverview.tsx:27 | prepending a smaller day keeps the days ascending |
| WeeklyOverview.WeekDaysKeepOrder | src/components/WeeklyOverview.tsx:27 | the filter preserves ascending input order |
| WeeklyOverview.WeekDaysAppend | src/components/WeeklyOverview.tsx:27 | filtering distributes over concatenation, which preserves order |
| WeeklyOverview.WeekDaysAllIn | src/components/WeeklyOverview.tsx:27 | entries all in the week are kept as they are |
| WeeklyOverview.WeekDaysNoneIn | src/components/WeeklyOverview.tsx:27 | entries none of which lie in the week are all dropped |
| WeeklyOverview.WeekLength | src/components/WeeklyOverview.tsx:24-25 | weeks 1..12 have 7 days; week 13 is days 85..90 |
| WeeklyOverview.CalendarWeek | src/components/WeeklyOverview.tsx:23-28 | on the calendar a week's entries are the matching slice |
| WeeklyOverview.CalendarWeekLength | src/components/WeeklyOverview.tsx:23-28 | on the calendar a week has 7 entries, and week 13 has 6 |
| WeeklyOverview.CalendarSliceHours | src/components/WeeklyOverview.tsx:32 | the hours of a calendar slice are the block hours of its days |
| WeeklyOverview.CalendarWeekHours | src/components/WeeklyOverview.tsx:32 | on the calendar a full week is 11 hours and week 13 is 8 |
| WeeklyOverview.CompletedHoursAtMostTotal | src/components/WeeklyOverview.tsx:32-35 | with non-negative allocations, 0 <= completed hours <= total hours, with equality when all are completed |
| WeeklyOverview.CompletedCountExtremes | src/components/WeeklyOverview.tsx:31 | all completed gives the week length, and none completed gives 0 |
| WeeklyOverview.WeekNavigationInRange | src/components/WeeklyOverview.tsx:88-109 | navigation keeps the week in 1..13, and the week's start day has that week number |
| QuizComponent.Unanswered | src/components/QuizComponent.tsx:13 | an answer array of the quiz's length filled with -1 |
| QuizComponent.Score | src/components/QuizComponent.tsx:43-47 | 0 <= score <= number of questions |
| QuizComponent.Passed | src/components/QuizComponent.tsx:49-82 | the 60 % pass rule; `PassedIsSixtyPercent` ties it to the percentage and `PassExtremes` to perfect and empty answers |
| QuizComponent.Quiz.constructor | src/components/QuizComponent.tsx:12-15 | index 0, all answers -1, neither started nor showing results |
| QuizComponent.Quiz.Start | src/components/QuizComponent.tsx:71 | starting sets only the started flag |
| QuizComponent.Quiz.SelectAnswer | src/components/QuizComponent.tsx:17-21 | only the answer at the current index changes |
| QuizComponent.Quiz.Next | src/components/QuizComponent.tsx:23-41 | advances the index unless on the last question; there it shows results and reports the score; the index stays in range |
| QuizComponent.Quiz.Previous | src/components/QuizComponent.tsx:31-35 | goes back only when the index is > 0 |
| QuizComponent.Quiz.Restart | src/components/QuizComponent.tsx:53-58 | index 0, all answers -1, results hidden, quiz started |
| QuizComponent.UnansweredScoresZero | src/components/QuizComponent.tsx:13-47 | with every answer -1 and valid correct answers the score is 0 |
| QuizComponent.AllCorrectScoresTotal | src/components/QuizComponent.tsx:43-47 | answering everything correctly scores the number of questions |
| QuizComponent.ScoreAfterSelect | src/components/QuizComponent.tsx:17-47 | changing one answer changes the score by exactly that question's point difference, so by at most 1 |
| QuizComponent.PassedIsSixtyPercent | src/components/QuizComponent.tsx:49-82 | the integer rule `score*100 >= 60*len` is the same as percentage >= 60 |
| QuizComponent.PassExtremes | src/components/QuizComponent.tsx:43-82 | a perfect score passes and an unanswered quiz fails |
| QuizComponent.AsWrittenMatchesOnFiveQuestions | src/components/DayViewer.tsx:60-62 | `score >= 3` agrees with the 60 % rule only for five-question quizzes |
| QuizComponent.AsWrittenRejectsPerfectOneQuestionQuiz | src/components/DayViewer.tsx:60-62 | a perfect score on a one-question quiz passes yet does not complete the day |
| QuizComponent.DayViewerCompletesAsWritten | src/components/DayViewer.tsx:62 | the written rule `score >= 3`; `AsWrittenMatchesOnFiveQuestions` and `GeminiService.FallbackQuizNeverCompletesDay` state where it fails the 60 % intent |
| QuizComponent.DayViewerCompletes | src/components/DayViewer.tsx:62 | the rule the comment states, 60 % of the questions; `DayViewerCompletesIffPassed` states it |
| QuizComponent.DayViewerCompletesIffPassed | src/components/DayViewer.tsx:60-62 | the corrected rule completes a day exactly when the score is >= 60 %, agrees with `score >= 3` on five questions, and accepts a perfect score |
| ContentService.GenerateDefaultSummary | src/services/contentService.ts:364-375 | carries the day, exactly three key points and author "admin" |
| ContentService.GenerateDefaultContent | src/services/contentService.ts:377-385 | carries the day, author "admin" and additional notes |
| ContentService.GenerateDefaultQuiz | src/services/contentService.ts:387-400 | one question with four options; the correct answer 3 is a valid index, naming "All of the above" |
| ContentService.DefaultsNameTheirDay | src/services/contentService.ts:364-400 | the summary, the title, the content and the question all contain `Day <day>` |
| ContentService.DefaultTitleDeterminesDay | src/services/contentService.ts:380 | the title `Day <n> Learning Content` determines the day |
| AdminPanel.RowsOf | src/components/AdminPanel.tsx:159 | exactly the rows of the user; `RowsOfAppend` fixes order and multiplicity |
| AdminPanel.CompletedRows | src/components/AdminPanel.tsx:160-182 | exactly the completed rows; `CompletedRowsAppend` fixes order and multiplicity |
| AdminPanel.RowsOfAppend | src/components/AdminPanel.tsx:159 | the filter splits over concatenation and keeps a single row exactly when it is the user's |
| AdminPanel.CompletedRowsAppend | src/components/AdminPanel.tsx:160-182 | the filter splits over concatenation and keeps a single row exactly when it is completed |
| AdminPanel.DaysAppend | src/components/AdminPanel.tsx:182 | the day list splits over concatenation |
| AdminPanel.ProcessedDaysAppend | src/components/AdminPanel.tsx:160-182 | the completed-day list is the user's completed rows' days in input order, and `daysCompleted` counts those rows: both split over concatenation, and one row adds its day, and 1, exactly when it is the user's and completed |
| AdminPanel.MinutesOf | src/components/AdminPanel.tsx:161-164 | `time_spent \|\| 0`; `TimeSpentList` and `ProcessedUserFacts` state it |
| AdminPanel.NonBlank | src/components/AdminPanel.tsx:163 | `note.trim() !== ''`; `NoteList` states both directions of the filter |
| AdminPanel.ProgressPercent | src/components/AdminPanel.tsx:173 | `(completedDays / 90) * 100`; `ProgressSumAppend` states what it adds to the average |
| AdminPanel.CompletedCount | src/components/AdminPanel.tsx:140-141 | the user's completed rows; `ProcessedDaysAppend` states it counts each such row once |
| AdminPanel.ProgressSum | src/components/AdminPanel.tsx:144-147 | the reduce over the users' percentages; `ProgressSumAppend` states it |
| AdminPanel.ProgressSumAppend | src/components/AdminPanel.tsx:144-147 | the percentage sum splits over concatenation, and one user contributes their own percentage |
| AdminPanel.CompletedUsersAppend | src/components/AdminPanel.tsx:139-142 | the completed-user count splits over concatenation, and one user counts 1 exactly when they have >= 90 completed rows |
| AdminPanel.TimeSpentList | src/components/AdminPanel.tsx:164 | each row's minutes, 0 when missing, in order |
| AdminPanel.QuizScoreList | src/components/AdminPanel.tsx:162 | every defined score > 0 is kept, and each kept value is such a score of some row |
| AdminPanel.NoteList | src/components/AdminPanel.tsx:163 | a null note makes `trim` throw; otherwise every non-blank note is kept, and each kept note is a non-blank note of some row |
| AdminPanel.Days | src/components/AdminPanel.tsx:182 | the rows' days in input order |
| AdminPanel.StatusFor | src/components/AdminPanel.tsx:178 | active when any day is completed, inactive otherwise; `ProcessedUserFacts` and `ProcessedUserEmpty` state it |
| AdminPanel.ProcessUser | src/components/AdminPanel.tsx:158-184 | fails exactly when a note is null; `ProcessedUserFacts` states each field of the result, and `ProcessedDaysAppend` the order of the completed days and what `daysCompleted` counts |
| AdminPanel.AverageProgress | src/components/AdminPanel.tsx:144-147 | 0 with no users, otherwise the percentage sum over the user count; `NoUsersStats` and `ProgressSumAppend` state it |
| AdminPanel.ComputeAdminStats | src/components/AdminPanel.tsx:130-148 | the three statistics (the active-user count is left out): total users, completed users and average progress; `CompletedUsersAppend` and `ProgressSumAppend` state the last two for every input, and `NoUsersStats` and `AllCompletedUsers` the extremes |
| AdminPanel.FallbackUser | src/components/AdminPanel.tsx:190-213 | the current user alone as an active record; `AdminPanelState.FetchRealTimeData` states what the fallback stores |
| AdminPanel.ApplyAction | src/components/AdminPanel.tsx:683-699 | one user mapped by the action; `UserActionFacts` and `UserActionIdempotent` state it |
| AdminPanel.ProcessUsers | src/components/AdminPanel.tsx:158-184 | one processed user per input user, in order; it fails exactly when one user's derivation throws |
| AdminPanel.CompletedUsers | src/components/AdminPanel.tsx:139-142 | the count of users with >= 90 completed rows is at most the number of users; `CompletedUsersAppend` states it counts exactly those users |
| AdminPanel.HandleUserAction | src/components/AdminPanel.tsx:683-699 | the same length, with every user mapped by the action |
| AdminPanel.AdminPanelState.constructor | src/components/AdminPanel.tsx:51-58 | no users, zero statistics, no error |
| AdminPanel.AdminPanelState.FetchRealTimeData | src/components/AdminPanel.tsx:111-216 | on success the processed users and computed statistics are stored; on a failed fetch or a throwing derivation the current user alone, statistics (1, 0, 0) and the fallback message are stored |
| AdminPanel.AdminPanelState.ApplyUserAction | src/components/AdminPanel.tsx:683-699 | the users become the mapped list, and the rest is unchanged |
| AdminPanel.BulkSummaries | src/components/AdminPanel.tsx:485-502 | one summary per day from start to end in ascending order: the default record for that day with the author replaced |
| AdminPanel.BulkContent | src/components/AdminPanel.tsx:504-521 | the same for content records |
| AdminPanel.BulkQuizzes | src/components/AdminPanel.tsx:523-540 | the same for quizzes |
| AdminPanel.ProcessedUserFacts | src/components/AdminPanel.tsx:158-184 | id kept; completed days are the completed rows' days; daysCompleted is their number; hours are the raw minute sum; active exactly when daysCompleted > 0; scores > 0; notes non-blank |
| AdminPanel.ProcessedUserEmpty | src/components/AdminPanel.tsx:158-184 | a user with no rows is inactive with 0 days and 0 hours |
| AdminPanel.NullNoteFallsBack | src/components/AdminPanel.tsx:163-213 | a null note in any user's rows makes the whole derivation fall back |
| AdminPanel.NoUsersStats | src/components/AdminPanel.tsx:130-148 | with no users, every statistic and the average progress are 0 |
| AdminPanel.AllCompletedUsers | src/components/AdminPanel.tsx:139-142 | when every user has >= 90 completed rows, all users count as completed |
| AdminPanel.UserActionFacts | src/components/AdminPanel.tsx:683-699 | only the matching user changes, only in status: suspend gives suspended, activate gives active, and delete changes nothing |
| AdminPanel.UserActionIdempotent | src/components/AdminPanel.tsx:683-699 | applying the same action twice equals applying it once, and suspending then activating equals activating |
| AdminPanel.BulkSummaryDays | src/components/AdminPanel.tsx:485-502 | the built list covers the days in order with the given author and three key points, and is empty when end < start |
| LearningPlanService.EveryWeekValid | src/services/learningPlanService.ts:190-195 | true exactly when every week is truthy with a numeric week number and a non-empty day array |
| LearningPlanService.ValidWeek | src/services/learningPlanService.ts:190-195 | one week's test; `EveryWeekValid` and `WeekWithoutDaysRejected` state it |
| LearningPlanService.ValidateLearningPlan | src/services/learningPlanService.ts:184-197 | true exactly when totalDays is a number, weeks is a non-empty array and every week is valid; only objects pass |
| LearningPlanService.PlanJson | src/services/learningPlanService.ts:56-76 | a day-keyed plan becomes an object with the same keys, each an array of its videos |
| LearningPlanService.DeactivateAll | src/services/learningPlanService.ts:59-127 | the same ids, with rows other than id 0 deactivated |
| LearningPlanService.Activate | src/services/learningPlanService.ts:130-133 | the same ids; a missing id matches nothing |
| LearningPlanService.NewPlanRow | src/services/learningPlanService.ts:56-76 | the inserted row; `CreationLeavesOnlyNew` and `DayKeyedPlanHasNoTotalDays` state its fields |
| LearningPlanService.LearningPlanTable.constructor | src/services/learningPlanService.ts:4-14 | an empty table whose next id is 1 |
| LearningPlanService.LearningPlanTable.SetActiveLearningPlan | src/services/learningPlanService.ts:121-145 | deactivate (its failure is ignored), then activate; the result is false exactly when the activation fails; the id invariant is kept |
| LearningPlanService.LearningPlanTable.CreateLearningPlan | src/services/learningPlanService.ts:56-88 | deactivate, then insert an active row with the plan's totalDays under the next id; a failed insert yields null and adds no row |
| LearningPlanService.EmptyWeeksRejected | src/services/learningPlanService.ts:189 | an empty weeks array is rejected |
| LearningPlanService.WeekWithoutDaysRejected | src/services/learningPlanService.ts:190-195 | a week with an empty days array is rejected |
| LearningPlanService.NonObjectsRejected | src/services/learningPlanService.ts:186 | null, undefined and primitives are rejected |
| LearningPlanService.DayKeyedPlanRejected | src/services/learningPlanService.ts:186-187 | a day-keyed plan, the shape of the learning-plan type, is always rejected |
| LearningPlanService.SmallPlanAccepted | src/services/learningPlanService.ts:184-197 | a plan with a numeric totalDays and one week of one day passes |
| LearningPlanService.ActivationLeavesOnlyOne | src/services/learningPlanService.ts:121-145 | after both steps, among ids other than 0 exactly row `id` is active, and nothing else changes |
| LearningPlanService.ActivatingMissingIdLeavesNoneActive | src/services/learningPlanService.ts:130-144 | activating a missing id leaves no row other than id 0 active |
| LearningPlanService.FailedDeactivationKeepsOldActive | src/services/learningPlanService.ts:124-133 | an ignored deactivation failure leaves earlier active rows active |
| LearningPlanService.CreationLeavesOnlyNew | src/services/learningPlanService.ts:56-88 | after a create, the new row is the only active one other than id 0, it stores the plan's totalDays and the given name or "AI Learning Plan", and older rows keep everything but the flag |
| LearningPlanService.DayKeyedPlanHasNoTotalDays | src/services/learningPlanService.ts:65-76 | creating from a day-keyed plan stores an active row whose totalDays is not a number |
| VideoPlayer.LineEndFrom | src/components/VideoPlayer.tsx:18 | the end of the first line, where `.` stops matching |
| VideoPlayer.MarkerLength | src/components/VideoPlayer.tsx:18 | the length of the marker alternative at a position; `FindMarker` and `NoMarkerWithoutSeparator` state it |
| VideoPlayer.FindMarker | src/components/VideoPlayer.tsx:18 | the rightmost marker at or before the position, as the greedy `.*` picks it |
| VideoPlayer.IdRunEnd | src/components/VideoPlayer.tsx:18 | the end of the run of characters other than `#&?` |
| VideoPlayer.VideoIdOf | src/components/VideoPlayer.tsx:18-21 | the captured id holds none of `#&?` |
| VideoPlayer.GetYouTubeEmbedUrl | src/components/VideoPlayer.tsx:16-27 | the embed link, with the length test counting UTF-16 code units; `WatchUrlEmbeds`, `EmbedUrlIsFixed`, `EmbedUrlMentionsEmbed` and `NoMarkerFallsBack` state it |
| VideoPlayer.Utf16Length | src/components/VideoPlayer.tsx:21 | `.length` counts UTF-16 code units: between the character count and twice it, and equal to it exactly when no character lies above U+FFFF |
| VideoPlayer.AstralIdLength | src/components/VideoPlayer.tsx:21 | a ten-character id ending in an astral character has length 11 |
| VideoPlayer.VSlashId | src/components/VideoPlayer.tsx:18 | after a leading `v/`, a run with no separator or line terminator is the captured id |
| VideoPlayer.AstralIdEmbeds | src/components/VideoPlayer.tsx:18-22 | `v/` followed by that ten-character id passes the length-11 test and is embedded |
| VideoPlayer.NoMarkerWithoutSeparator | src/components/VideoPlayer.tsx:18 | no marker starts where no `/`, `?` or `&` follows |
| VideoPlayer.FindMarkerLands | src/components/VideoPlayer.tsx:18 | a marker with no later marker up to the position is the one found |
| VideoPlayer.IdCharFacts | src/components/VideoPlayer.tsx:18 | id characters end neither the line nor the id |
| VideoPlayer.IdAfterHost | src/components/VideoPlayer.tsx:18-22 | after the host, a single marker followed by an id yields that id |
| VideoPlayer.WatchUrlEmbeds | src/components/VideoPlayer.tsx:16-23 | a watch link with an 11-character id becomes the embed link of that id |
| VideoPlayer.EmbedUrlIsFixed | src/components/VideoPlayer.tsx:16-26 | an embed link is returned unchanged, so the conversion is idempotent on watch links |
| VideoPlayer.EmbedUrlMentionsEmbed | src/components/VideoPlayer.tsx:16-26 | every result contains "embed" |
| VideoPlayer.PrefixedMentionsEmbed | src/components/VideoPlayer.tsx:22-26 | the embed prefix contains "embed" |
| VideoPlayer.NoMarkerFallsBack | src/components/VideoPlayer.tsx:26 | without a marker, the input is returned if it contains "embed", and is prefixed otherwise |
| VideoPlayer.FallbackRules | src/components/VideoPlayer.tsx:78-185 | the 33 rules in source order |
| VideoPlayer.FirstRule | src/components/VideoPlayer.tsx:78-185 | the first rule whose condition holds, with no earlier rule holding |
| VideoPlayer.PickVideo | src/components/VideoPlayer.tsx:73-189 | the first matching rule's video or the default; `PickIgnoresCase`, `PickIsListed` and `PickIsFirstMatch` state it |
| VideoPlayer.GetFallbackVideo | src/components/VideoPlayer.tsx:72-190 | `getFallbackVideo` as written; `LstmBeforeRnn`, `DeepSkipsMachineLearning` and `UnsupervisedRuleUnreachable` state it |
| VideoPlayer.GetFallbackVideoCorrected | src/components/VideoPlayer.tsx:160-164 | the lookup with the two learning rules swapped; `CorrectedPicksUnsupervised` states it |
| VideoPlayer.CorrectedFallbackRules | src/components/VideoPlayer.tsx:160-164 | the table with the supervised and unsupervised rules swapped, and otherwise unchanged |
| VideoPlayer.PickIgnoresCase | src/components/VideoPlayer.tsx:73 | titles that lower-case alike get the same video |
| VideoPlayer.PickIsListed | src/components/VideoPlayer.tsx:78-189 | the result is the default or one of the listed URLs |
| VideoPlayer.PickIsFirstMatch | src/components/VideoPlayer.tsx:78-185 | the first matching rule's URL is returned |
| VideoPlayer.LstmBeforeRnn | src/components/VideoPlayer.tsx:78-185 | a title with "lstm" is decided at or before the LSTM rule, ahead of RNN |
| VideoPlayer.DeepSkipsMachineLearning | src/components/VideoPlayer.tsx:81-85 | a title with "deep" never gets the machine-learning rule |
| VideoPlayer.AnyContainedOne | src/components/VideoPlayer.tsx:78-185 | a one-key rule holds exactly when the key occurs |
| VideoPlayer.UnsupervisedRuleUnreachable | src/components/VideoPlayer.tsx:160-164 | as written, no title ever reaches the unsupervised rule |
| VideoPlayer.CorrectedPicksUnsupervised | src/components/VideoPlayer.tsx:160-164 | in the corrected table an unsupervised title reaches its own video |
| GeminiService.FallbackVideos | src/services/geminiService.ts:157-180 | the 22 entries in insertion order |
| GeminiService.CorrectedFallbackVideos | src/services/geminiService.ts:174-175 | the table with the supervised and unsupervised entries swapped, and otherwise unchanged |
| GeminiService.FirstKey | src/services/geminiService.ts:183-188 | the first key that occurs, with no earlier key occurring |
| GeminiService.AfterScheme | src/services/geminiService.ts:132-133 | a position exactly when `https://` or `http://` occurs there, 7 or 8 characters on |
| GeminiService.IdStart | src/services/geminiService.ts:131-135 | where a pattern matches, its id starts at least 16 characters on and is 11 characters of `[\w-]` |
| GeminiService.LookUpTopic | src/services/geminiService.ts:154-192 | the first entry whose key the lower-cased topic contains, else the default; `LookUpIgnoresCase`, `LookUpIsListed` and `LookUpIsFirstMatch` state it |
| GeminiService.GetFallbackVideoForTopic | src/services/geminiService.ts:153-193 | `getFallbackVideoForTopic` as written; `AiKeyShadowsTheRest` and `UnsupervisedEntryUnreachable` state it |
| GeminiService.GetFallbackVideoForTopicCorrected | src/services/geminiService.ts:174-175 | the lookup with the two learning entries swapped; `CorrectedFindsUnsupervised` states it |
| GeminiService.LeftmostMatch | src/services/geminiService.ts:131-138 | a match yields an 11-character id of `[\w-]` |
| GeminiService.ExtractVideoId | src/services/geminiService.ts:131-143 | the patterns are tried in order, and any match yields an 11-character `[\w-]` id |
| GeminiService.RecommendVideo | src/services/geminiService.ts:100-151 | a failed call or no match gives the topic fallback as written; a match gives the watch link of the id |
| GeminiService.GetFallbackContent | src/services/geminiService.ts:58-98 | 10 key points and 2 questions, each answer a valid option index |
| GeminiService.FallbackQuizAnswerable | src/services/geminiService.ts:58-98 | each question has four options and the stated correct answers |
| GeminiService.FallbackQuizNeverCompletesDay | src/components/DayViewer.tsx:60-62 | on the two-question fallback quiz no answers complete the day under `score >= 3`, while a perfect score passes the quiz and completes the day under the corrected rule |
| GeminiService.LookUpIgnoresCase | src/services/geminiService.ts:154 | topics that lower-case alike get the same video |
| GeminiService.LookUpIsListed | src/services/geminiService.ts:183-192 | the result is the default or one of the table's URLs |
| GeminiService.LookUpIsFirstMatch | src/services/geminiService.ts:183-188 | the first entry whose key occurs decides |
| GeminiService.AiKeyShadowsTheRest | src/services/geminiService.ts:158-188 | a topic with "ai" but not "artificial intelligence" gets the default intro video |
| Common.UnsupervisedMentionsSupervised | src/services/geminiService.ts:174-175 | every text containing "unsupervised learning" contains "supervised learning" |
| GeminiService.UnsupervisedEntryUnreachable | src/services/geminiService.ts:174-175 | as written, no topic ever reaches the unsupervised entry |
| GeminiService.CorrectedFindsUnsupervised | src/services/geminiService.ts:174-175 | in the corrected table an unsupervised topic reaches its own video |
| GeminiService.WatchLinkRoundTrip | src/services/geminiService.ts:131-141 | a reply holding a watch link yields that link, and recommending from the result returns it again |
| GeminiService.WatchLinkRoundTripPlain | src/services/geminiService.ts:131-141 | a reply that is exactly a watch link yields it back |
| GeminiService.WatchLinkShape | src/services/geminiService.ts:132 | a watch link has the scheme, the host path and an 11-character id where the first pattern expects them |
| GeminiService.RecommendationShape | src/services/geminiService.ts:137-150 | every recommendation is a watch link of a valid id or the topic fallback |

## Left out

- The Supabase client, authentication and network: tables are in-memory values, and a failure is a flag or an optional value supplied by the caller.
- Gemini requests, prompts and `JSON.parse` of model output: the reply text is a parameter, and a thrown call is modelled as no reply.
- Wall-clock time: `completed_at`, `updated_at`, `createdAt` and `lastActive` are opaque or left out. The `activeUsers` recency count is not modelled, and neither is the `activeUsers = 1` of the fallback statistics.
- The admin PIN check against the environment (src/components/AdminPanel.tsx:222-224): it is configuration, not course logic.
- Floating point: hours and averages are exact reals, and `Math.round(x * 10) / 10` is not modelled. On whole minutes this rounding changes nothing for the admin panel's totals.
- AdminPanel.AdminPanelState.FetchRealTimeData: `ProgressService.getAllUserProgress` is not defined in src/services/progressService.ts, so in this snapshot the fetch can never succeed. The model still states the success path, with the fetched rows as a parameter.
- AdminPanel.AdminPanelState.FetchRealTimeData: notes are modelled as present or null. A null note throws in `trim` and the model falls back to the fallback data. An `undefined` note is filtered out in the source, and the model treats it as null instead.
- Floating-point rounding of the per-user `progress` percentage, of `averageProgress` and of the dashboard's `progressPercentage`: the model computes them as exact reals.
- ProgressService.ProgressStore.GetUserStats: it states days, current streak and longest streak over the stored rows. Hours and average quiz score are stated by ComputeStats on the fetched rows.
- The upsert conflict target is taken to be `(user_id, day)`. The source passes no `onConflict` and relies on the table's key.
- `ensureInitialProgress` and a day range check do not exist in the code, so neither is modelled.
- Dashboard.DashboardState.constructor: the calendar is installed at once. The source renders one frame with no days before its effect runs.
- The dashboard and week views' rendering, the day viewer beyond its completion rule, and `handleVideoError` in VideoPlayer.tsx: these are presentation or browser state.
- VideoPlayer.VideoIdOf: the regular expression is modelled for its markers and the `[^#&?]` run only, with no general regex engine. Line terminators are the four characters JavaScript's `.` excludes.
- Lower-casing is ASCII only. The source's `toLowerCase` also maps non-ASCII letters.
- GeminiService.RecommendVideo: the reply's `trim()` is not modelled, since trimming does not change which patterns match.
- LearningPlanService.ValidateLearningPlan: numbers are reals, NaN is not represented, and only own fields are read.
- The other learning-plan operations (`getActiveLearningPlan`, `getAllLearningPlans`, `updateLearningPlan`, `deleteLearningPlan`, `initializeDefaultPlan`) are left out: each is a single store call that applies no rule.
- The content store's read and bulk-insert calls, and the refresh after a bulk insert: these are store transport.
- src/services/adminAIService.ts, src/services/authService.ts, src/App.tsx and src/components/Sidebar.tsx are not part of this model. The curriculum data in src/utils/learningPlanGenerator.ts is a parameter, because only its `day<N>` key shape matters.

## Findings

| source | as written | input that shows it | evidently intended | confidence | as-written member | corrected member |
|---|---|---|---|---|---|---|
| src/components/DayViewer.tsx:60-62 | a day is completed when `score >= 3`, with a comment saying this is 60 % | the day view's quiz comes from `generateContentFromVideos`, whose fallback content (src/services/geminiService.ts:73-97) has two questions; answering both correctly passes the quiz's 60 % rule but the score 2 never completes the day | complete when the score is at least 60 % of the questions | not executed | GeminiService.FallbackQuizNeverCompletesDay | QuizComponent.DayViewerCompletesIffPassed |
| src/components/VideoPlayer.tsx:160-164 | the "supervised learning" test comes before the "unsupervised learning" test | title "Unsupervised Learning" gets the supervised-learning video | the unsupervised rule is tried first, so each title gets its own video | not executed | VideoPlayer.UnsupervisedRuleUnreachable | VideoPlayer.CorrectedPicksUnsupervised |
| src/services/geminiService.ts:174-175 | the key 'supervised learning' comes before 'unsupervised learning' in insertion order | topic "unsupervised learning" gets the supervised-learning video | the unsupervised entry is tried first | not executed | GeminiService.UnsupervisedEntryUnreachable | GeminiService.CorrectedFindsUnsupervised |
