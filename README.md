# giacop5 points and attendance tracker: a Dafny model

This project models the core of a church group's daily tracker. The group's
twenty-two members record their activities day by day. Each activity is
entered as a checkbox, a morning/evening pair of checkboxes, a counter or a
radio choice. Each record is stored with its total points. Members set
monthly targets per activity and see their progress against them. A monthly
summary ranks members per activity and over the month. A work planner keeps
an activity code per time slot and day, and exports the week as
tab-separated text. A shared password gate, with a fixed thirty-minute
expiry, guards the site.

One Dafny module corresponds to each source file of the core:

- `Catalog`, `WorkCatalog` and `Goals` hold the data model: members, scoring
  activities, day records, work activities and their codes, day schedules,
  goals and progress.
- `ScoreStorage`, `GoalStorage` and `WorkScheduleStorage` are the
  local-storage stores. Each is a class whose list field the methods
  reassign.
- `GoalProgressEngine` holds the counting loop and the progress
  computation.
- `MonthlySummary` holds the per-activity monthly statistics.
- `Leaderboard` holds the daily ranking and the badges.
- `GoalSetting`, `PrayerCard`, `WorkScheduleEditor`, `WeeklyScheduleView`
  and `ActivityDetails` model the components' state and the values they
  compute. A component's state lives in a class and its event handlers are
  methods.
- `Auth` holds the password gate.
- `MemberFilter` holds the member list a login level sees.
- `Wrappers`, `Text`, `Seqs`, `Sorting` and `JsMath` are shared helpers:
  - `Text` covers string order, decimal printing and `parseInt`.
  - `Seqs` covers `filter`, `map`, `flat` and the subsequence order.
  - `Sorting` gives `Array.prototype.sort` as a stable sort.
  - `JsMath` covers `Math.min`, `Math.max` and an exact `Math.round`.
- All stored data are parameters or fields: localStorage, sessionStorage,
  the clock and the remote database.
- The scoring catalog `SCORING_ACTIVITIES` and the work catalog
  `WORK_ACTIVITIES` are parameters `cat` of the functions that look
  activities up. The methods that model the source's own calls pass the
  real catalog.

## Model

| member | source | states |
|---|---|---|
| Catalog.LookupValue | src/utils/goalProgress.ts:22 | `activities[id]` is absent exactly when no entry has the id; otherwise it is the value of an entry with that id |
| Catalog.LookupValueFirst | src/utils/goalProgress.ts:21-22 | the lookup returns the value of the first entry with the id |
| Catalog.FindActivity | src/utils/goalProgress.ts:23 | `SCORING_ACTIVITIES.find` returns a catalog activity with the id, or nothing exactly when no catalog activity has it |
| Catalog.FindActivityIn | src/utils/goalProgress.ts:23 | the same `find` over any catalog: a found activity is in the catalog with the id, and nothing is found exactly when no activity has it |
| Catalog.FindActivityInFirst | src/utils/goalProgress.ts:23 | `find` returns the activity at the first index holding the id |
| Catalog.CatalogSize | src/types/index.ts:25-159 | there are 16 scoring activities and 22 members |
| Catalog.CatalogIdsDistinct | src/types/index.ts:50-159 | the scoring activity ids are pairwise distinct |
| Catalog.CatalogPointsPositive | src/types/index.ts:50-159 | every scoring activity is worth a positive number of points |
| Catalog.CatalogFlags | src/types/index.ts:50-159 | only `edu_complete` is monthly-only and only `morning_group` is weekdays-only |
| Catalog.CatalogRadio | src/types/index.ts:101-108 | the only radio activity is `teaching_post`, with options 0, 1 and 2; exactly the radio activities have options |
| Catalog.CatalogMember | src/types/index.ts:50-159 | a catalog activity is one of its sixteen entries |
| Catalog.CatalogDoubleCap | src/types/index.ts:50-159 | a double checkbox's daily cap is twice its points |
| Catalog.CatalogRadioCap | src/types/index.ts:101-108 | a radio activity's daily cap is its points times its largest option |
| Catalog.CatalogCheckboxCap | src/types/index.ts:50-159 | a checkbox with a daily cap is capped at its points |
| Catalog.MemberIds | src/types/index.ts:25-48 | member ids are "1" to "22" in order, hence distinct |
| JsMath.Min | src/utils/goalProgress.ts:60 | `Math.min` is the smaller argument |
| JsMath.Max | src/utils/goalProgress.ts:68 | `Math.max` is the larger argument |
| JsMath.RoundHalfUp | src/utils/goalProgress.ts:60 | `Math.round(n / d)` is the integer nearest to n/d, with a half going up |
| JsMath.RoundUnique | src/utils/goalProgress.ts:60 | at most one integer is the rounding of n/d |
| JsMath.RoundMonotone | src/utils/goalProgress.ts:60 | rounding grows with the numerator |
| JsMath.RoundAtLeast | src/utils/goalProgress.ts:60 | the rounding reaches k exactly when n/d reaches k - 1/2 |
| GoalProgressEngine.MonthScores | src/utils/goalProgress.ts:13-15 | a record is kept exactly when it is the member's and its date starts with the month |
| GoalProgressEngine.InMonth | src/utils/goalProgress.ts:13-15 | a kept record is the member's and its date begins with the month; with an empty month every record of the member is kept |
| GoalProgressEngine.Occurrences | src/utils/goalProgress.ts:31-52 | an entry of a checkbox or radio adds 0 or 1 and of a double checkbox 0 to 2; a number entry adds its numeric value; `false` adds nothing |
| GoalProgressEngine.EntriesCount | src/utils/goalProgress.ts:21-52 | one record's count for an activity, the sum of `Occurrences` over the entries naming it; `NotNamedCountsZero`, `UnknownSkipped` and `CountingRule` state its rules |
| GoalProgressEngine.CountIn | src/utils/goalProgress.ts:18-54 | the month's count for an activity, summed record by record; `CountInConcat`, `CountInSwap`, `NeverAppearsCountsZero` and `CountActivities` state what it is |
| GoalProgressEngine.CountActivities | src/utils/goalProgress.ts:18-54 | the counting loop's dictionary has a key exactly for the catalog activities named in the month's records, and holds each one's occurrences |
| GoalProgressEngine.CountRecord | src/utils/goalProgress.ts:21-53 | the inner loop over one record's entries adds exactly their occurrences to the dictionary |
| GoalProgressEngine.CountEntry | src/utils/goalProgress.ts:22-52 | an id missing from the catalog changes nothing; otherwise its key is created if absent and grows by the entry's occurrences |
| GoalProgressEngine.BuildProgresses | src/utils/goalProgress.ts:57-71 | given a dictionary that holds the month's counts, the progresses are one per target, in target order |
| GoalProgressEngine.TracksEntry | src/utils/goalProgress.ts:21-52 | one entry read by the inner loop keeps the dictionary equal to the occurrences seen so far |
| GoalProgressEngine.TracksRecord | src/utils/goalProgress.ts:20-54 | one record read by the outer loop keeps that invariant |
| GoalProgressEngine.Percent | src/utils/goalProgress.ts:60 | the percentage is at most 100 and is the rounding of 100·count/target below 100; it is 100 exactly when count/target ≥ 199/200; a zero target gives 100, NaN or -Infinity as the count is positive, zero or negative |
| GoalProgressEngine.ActivityName | src/utils/goalProgress.ts:64 | the name is the catalog name, or the id when the activity is unknown |
| GoalProgressEngine.Progresses | src/utils/goalProgress.ts:57-71 | one progress entry per target, in order, each built from the count read from the records |
| GoalProgressEngine.TargetProgress | src/utils/goalProgress.ts:57-71 | the remaining count is never negative, and it is 0 exactly when the target is completed; `TargetProgressFacts` adds the completion rule and the percentage bounds |
| GoalProgressEngine.CompletedCount | src/utils/goalProgress.ts:73 | the number of completed entries is at most the number of entries |
| GoalProgressEngine.OverallPercent | src/utils/goalProgress.ts:74-77 | the overall percentage lies in 0..100; it is the rounding of 100·completed/total, or 0 without targets |
| GoalProgressEngine.RoundExact | src/utils/goalProgress.ts:76 | rounding an exact multiple k·d/d gives k |
| GoalProgressEngine.CalculateActivityProgress | src/utils/goalProgress.ts:6-88 | the method (a counting loop, then a loop over the targets) returns the progress that the specification function computes from the records |
| GoalProgressEngine.ProgressesSnoc | src/utils/goalProgress.ts:57-71 | one more target adds one more progress entry at the end |
| GoalProgressEngine.FindDistinct | src/utils/goalProgress.ts:23 | with distinct ids, looking up an activity's id finds that activity |
| GoalProgressEngine.CountingRule | src/utils/goalProgress.ts:31-52 | one more entry adds 1 to a checkbox for exactly `true`; to a double checkbox, 1 per ticked half or 2 for a bare `true`; to a number, its value; to a radio, 1 for any value above 0 |
| GoalProgressEngine.UnknownSkipped | src/utils/goalProgress.ts:25 | an entry whose id is not in the catalog adds nothing |
| GoalProgressEngine.NeverAppearsCountsZero | src/utils/goalProgress.ts:59 | an activity never named in the month's records counts 0 (`|| 0`) |
| GoalProgressEngine.NotNamedCountsZero | src/utils/goalProgress.ts:59 | a record that does not name the activity adds 0 |
| GoalProgressEngine.UnknownCountsZero | src/utils/goalProgress.ts:25 | an activity not in the catalog always counts 0 |
| GoalProgressEngine.CountInConcat | src/utils/goalProgress.ts:20 | counts over two runs of records add up |
| GoalProgressEngine.CountInSwap | src/utils/goalProgress.ts:20 | the storage order of the records does not change any count |
| GoalProgressEngine.MonthScoresConcat | src/utils/goalProgress.ts:13-15 | the month filter distributes over concatenation |
| GoalProgressEngine.OtherRecordIgnored | src/utils/goalProgress.ts:13-15 | a record of another member or of another month leaves the whole progress unchanged |
| GoalProgressEngine.TargetProgressFacts | src/utils/goalProgress.ts:60-69 | the remaining count is at least 0, and it is 0 exactly when the target is reached; a reached positive target shows 100%; with a positive target and a non-negative count the percentage lies in 0..100 |
| GoalProgressEngine.HundredPercentNotCompleted | src/utils/goalProgress.ts:60-69 | 199 of 200 shows 100% but is not completed |
| GoalProgressEngine.CompletedCountAll | src/utils/goalProgress.ts:73 | the completed count equals the number of entries exactly when every entry is completed |
| GoalProgressEngine.GoalProgressFacts | src/utils/goalProgress.ts:57-87 | the result has the member and month, an empty name, one entry per target with its id, target and count, completed ≤ total, an overall percentage in 0..100 that is 0 with nothing completed and 100 with everything completed |
| GoalProgressEngine.GoalProgressOf | src/utils/goalProgress.ts:56-87 | the progress carries the member and month, an empty name, one entry per target, a total equal to the number of targets and a completed count not above it |
| ScoreStorage.FindIndex | src/utils/storage.ts:14-16 | `findIndex` returns -1 exactly when no record is the member's for the date; otherwise it returns the first matching index |
| ScoreStorage.FindScore | src/utils/storage.ts:27-30 | `find(...) \|\| null` returns the record at that first index, or nothing |
| ScoreStorage.Saved | src/utils/storage.ts:11-25 | the saved record is in the new list; the list grows by one exactly when no record shares the record's member and date; every record of another day keeps its place |
| ScoreStorage.Counted | src/utils/storage.ts:35-42 | only the member's records count, and a month longer than seven characters matches no `substring(0, 7)` |
| ScoreStorage.TotalScore | src/utils/storage.ts:32-44 | with no counted record the total is 0; `TotalIsFilterSum` states that it equals the fold of `totalPoints` over the filtered records, `TotalConcat` that it adds over concatenation |
| ScoreStorage.ScoreStore.constructor | src/utils/storage.ts:5-9 | the store starts with the stored list |
| ScoreStorage.ScoreStore.SaveScore | src/utils/storage.ts:11-25 | the list becomes the upsert of the record, and `getMemberScore` then returns it |
| ScoreStorage.ScoreStore.GetMemberScore | src/utils/storage.ts:27-30 | the result is the first stored record of the member and date, or nothing exactly when none is stored |
| ScoreStorage.ScoreStore.GetMemberTotalScore | src/utils/storage.ts:32-44 | the total is the left fold of `totalPoints` from 0 over the stored records of the member (of the month's when a non-empty month is given), kept in their stored order; with non-negative stored totals it is not negative |
| ScoreStorage.PointsSum | src/utils/storage.ts:43 | the `reduce` from 0 is 0 or more over non-negative points, and a single record's points for one record |
| ScoreStorage.TotalIsFilterSum | src/utils/storage.ts:32-44 | summing the counted records one by one equals filtering them first and then folding their `totalPoints` |
| ScoreStorage.PointsSumConcat | src/utils/storage.ts:43 | the fold over two runs of records is the sum of the two folds |
| ScoreStorage.TotalNonNegative | src/utils/storage.ts:34-43 | summing non-negative totals gives a non-negative sum |
| ScoreStorage.SavedShape | src/utils/storage.ts:18-22 | an existing day is replaced in place and keeps the length; a new day is appended; every other record keeps its place |
| ScoreStorage.GetAfterSave | src/utils/storage.ts:11-30 | after `saveScore(s)`, `getMemberScore` for s's member and date returns s |
| ScoreStorage.FindIndexAt | src/utils/storage.ts:14-16 | a matching index with no match before it is what `findIndex` returns |
| ScoreStorage.OtherDaysUnchanged | src/utils/storage.ts:11-30 | saving one day changes nothing that is found for any other member or date |
| ScoreStorage.EmptyMonthIsAllMonths | src/utils/storage.ts:37 | an empty month string totals over all months, as no month does |
| ScoreStorage.AllMonthsAtLeastOneMonth | src/utils/storage.ts:32-44 | with non-negative totals, one month's total is at most the all-months total |
| ScoreStorage.TotalConcat | src/utils/storage.ts:43 | the total over two runs of records is the sum of their totals |
| MonthlySummary.AddRecord | src/app/tong-ket/page.tsx:52-77 | reading one record's value adds its count under the page's rules, and that count times the points |
| MonthlySummary.OfMember | src/app/tong-ket/page.tsx:50 | the member's records of the month are `Seqs.Filter` of them by member id, whose contract holds soundness and completeness |
| MonthlySummary.CountOf | src/app/tong-ket/page.tsx:51-78 | the count over a list of records; `CountOfSnoc` states that each record adds its `RecordCount`, and `AccumulateRecords` ties the loop to it |
| MonthlySummary.Scale | src/app/tong-ket/page.tsx:57-75 | points added once per counted occurrence; `ScaleIsProduct` states it equals points × count |
| MonthlySummary.StatOf | src/app/tong-ket/page.tsx:45-85 | one member's statistic for an activity; `AccumulateStat` ties the per-member loop to it and `SummaryStatsProduct` states points = points × count |
| MonthlySummary.SummaryOf | src/app/tong-ket/page.tsx:44-91 | one activity's summary; `SummaryStatsFromMembers`, `SummaryComplete` and `SummaryOrder` state exactly which statistics it holds and in what order |
| MonthlySummary.NumberOr0 | src/app/tong-ket/page.tsx:72 | `Number(v) \|\| 0` is 0 for a missing value and for a morning/evening pair, 1 for true and 0 for false, and the number itself for a number |
| MonthlySummary.RecordCount | src/app/tong-ket/page.tsx:52-77 | a missing value counts 0; a checkbox counts 1 exactly when the value is `true`; a double checkbox counts one per true half of a pair and 0 for anything else; a number or radio counts a positive number, 1 for `true`, and 0 for a pair, a non-positive number or `false` |
| MonthlySummary.Summaries | src/app/tong-ket/page.tsx:44-93 | at most one summary per catalog activity, none without a statistic, and none at all without members |
| MonthlySummary.DisplayOrder | src/app/tong-ket/page.tsx:222 | the displayed statistics are a permutation of the activity's statistics |
| MonthlySummary.AccumulateStat | src/app/tong-ket/page.tsx:45-85 | the loop over a member's records of the month returns the member's id and name, the count over those records, and points equal to the activity's points times the count |
| MonthlySummary.AccumulateRecords | src/app/tong-ket/page.tsx:51-78 | the loop over the records returns their count and that count times the activity's points |
| MonthlySummary.CountOfSnoc | src/app/tong-ket/page.tsx:51-78 | reading one more record adds that record's count |
| MonthlySummary.ScaleIsProduct | src/app/tong-ket/page.tsx:75 | the repeated addition used for `activity.points * numValue` is the product |
| MonthlySummary.ScaleAdd | src/app/tong-ket/page.tsx:57-75 | adding points count by count is adding them all at once |
| MonthlySummary.SummaryStatsFromMembers | src/app/tong-ket/page.tsx:45-91 | each shown statistic has a positive count, points equal to points times count, and is the statistic of a listed member |
| MonthlySummary.StatsInvariant | src/app/tong-ket/page.tsx:44-93 | every shown summary has a statistic, carries a catalog activity's id and name, and every statistic in it has a positive count and points = points × count |
| MonthlySummary.ShownSummaryActivity | src/app/tong-ket/page.tsx:44-93 | a summary of the mapped catalog is the summary of some catalog activity |
| MonthlySummary.SummaryStatsProduct | src/app/tong-ket/page.tsx:45-91 | every statistic of one activity's summary has a positive count and points = points × count |
| MonthlySummary.SummaryComplete | src/app/tong-ket/page.tsx:44-93 | every listed member with a positive count for a catalog activity appears with that count and those points in that activity's summary |
| MonthlySummary.SummaryOrder | src/app/tong-ket/page.tsx:44-93 | summaries keep catalog order and statistics keep member order |
| MonthlySummary.MonthScoresSkip | src/app/tong-ket/page.tsx:39-41 | a record of another month drops out of the month's records |
| MonthlySummary.OtherMonthIgnored | src/app/tong-ket/page.tsx:39-93 | a record of another month changes no summary |
| MonthlySummary.DisplayOrderFacts | src/app/tong-ket/page.tsx:222 | the displayed statistics are a permutation, ordered by total points with the largest first, with equal totals kept in their order |
| MonthlySummary.CountingComparedWithGoals | src/app/tong-ket/page.tsx:54-77 | this page agrees with the goal engine on checkboxes, double-checkbox pairs and non-negative numbers; a bare `true` of a double checkbox counts 0 here and 2 there; a radio value n > 0 counts n here and 1 there; a `true` of a number activity counts 1 here and 0 there |
| Leaderboard.LoadScoresForMonth | src/app/page.tsx:36-51 | the loop builds a dictionary with a key for exactly the shown members, each holding the member's total for the month |
| Leaderboard.ScoreOf | src/app/page.tsx:142 | `memberScores[id] \|\| 0` is the member's total when loaded, and 0 otherwise |
| Leaderboard.Ranking | src/app/page.tsx:142 | the ranking is a permutation of the shown members |
| Leaderboard.RankStyleAt | src/app/page.tsx:153-156 | the first row gets the ring, and exactly the second and third rows get the highlight |
| Leaderboard.RankLabel | src/app/page.tsx:159 | the rank shown is the row index plus one |
| Leaderboard.BadgeFor | src/app/page.tsx:172-177 | green exactly above 1500, blue in 1001..1500, yellow in 501..1000, gray at 500 or less |
| Leaderboard.BadgeMonotone | src/app/page.tsx:172-177 | a higher total never gets a lower badge |
| Leaderboard.RankingFacts | src/app/page.tsx:142 | the ranking is a permutation of the members, totals do not increase down the list, and members with equal totals keep their order |
| Leaderboard.FirstIsTop | src/app/page.tsx:142-153 | the first row holds a member with the highest total |
| Leaderboard.BadgeBoundaries | src/app/page.tsx:172-177 | 1500 is blue and 1501 green; 1000 is yellow and 1001 blue; 500 is gray and 501 yellow |
| Sorting.TotalIsReflexive | src/app/page.tsx:142 | a total order relation is reflexive |
| Sorting.WithKey | src/app/page.tsx:142 | the elements with one key are no more than the whole |
| Sorting.Insert | src/app/page.tsx:142 | an insertion adds exactly the inserted element to the multiset |
| Sorting.SortBy | src/app/page.tsx:142 | the sort is a permutation |
| Sorting.InsertSorted | src/app/page.tsx:142 | inserting into a sorted list keeps it sorted |
| Sorting.SortBySorted | src/app/page.tsx:142 | the sort's result is sorted by the comparator |
| Sorting.WithKeyCons | src/app/page.tsx:142 | the elements with a key, of a list with a head, are the head's match and then the tail's |
| Sorting.InsertWithKey | src/app/page.tsx:142 | insertion puts the new element before every old element with its key |
| Sorting.SortByStable | src/app/page.tsx:142 | the sort is stable: for every key, the elements with that key keep their order |
| Sorting.FirstWithKeyStable | src/app/tong-ket/page.tsx:222 | the first element with a given key is the same before and after sorting |
| Sorting.AtLeastIsTotalPreorder | src/app/page.tsx:142 | the comparator `b - a` orders by a total preorder, larger first |
| GoalStorage.FindGoalIndex | src/utils/goalStorage.ts:131-133 | `findIndex` is -1 exactly when no goal has the (member, month) key; otherwise it is the first index with the key |
| GoalStorage.FindGoal | src/utils/goalStorage.ts:32 | `find(...) \|\| null` is nothing exactly when no goal has the key, and otherwise the goal at the first such index |
| GoalStorage.LastWithKey | src/utils/goalStorage.ts:72-81 | the last remote goal with a key is missing exactly when none has it |
| GoalStorage.Upsert | src/utils/goalStorage.ts:39-47 | the goal is in the new list; the list grows by one exactly when no goal has the key; every goal with another key keeps its place |
| GoalStorage.SavedGoals | src/utils/goalStorage.ts:126-149 | the list grows by one exactly when the key is new; goals with other keys keep their place; every goal is an old one or the input's key and targets stamped with `now` |
| GoalStorage.MergedGoals | src/utils/goalStorage.ts:68-83 | merging keeps every stored goal's slot and adds at most one goal per remote goal |
| GoalStorage.MergedSnoc | src/utils/goalStorage.ts:72-81 | merging one more remote goal upserts it into the earlier merge |
| GoalStorage.MergedKeepsOthers | src/utils/goalStorage.ts:68-83 | a stored goal whose key no remote goal has keeps its place and value |
| GoalStorage.GoalStore.constructor | src/utils/goalStorage.ts:13-17 | the store starts with the stored list |
| GoalStorage.GoalStore.GetMemberGoal | src/utils/goalStorage.ts:26-57 | the goal returned at once is the first stored goal with the key, or nothing exactly when none is stored |
| GoalStorage.GoalStore.GetMemberGoals | src/utils/goalStorage.ts:60-90 | the goals returned at once are the member's stored goals, in stored order and each as often as it is stored |
| GoalStorage.GoalStore.GetMonthGoals | src/utils/goalStorage.ts:93-123 | the goals returned at once are the month's stored goals, in stored order and each as often as it is stored |
| GoalStorage.GoalStore.SaveMemberGoal | src/utils/goalStorage.ts:126-149 | the list becomes the upsert of the goal stamped `updatedAt = now`, with `createdAt = now` as well when it is appended |
| GoalStorage.GoalStore.DeleteMemberGoal | src/utils/goalStorage.ts:161-170 | the goals with the key are removed, and the key then finds nothing |
| GoalStorage.GoalStore.MergeRemoteGoal | src/utils/goalStorage.ts:35-50 | no remote goal leaves the list unchanged; a remote goal replaces the first goal with the queried key, or is appended |
| GoalStorage.GoalStore.MergeRemoteGoals | src/utils/goalStorage.ts:68-83 | the loop upserts each remote goal by its own key, in order |
| GoalStorage.FindGoalIndexAt | src/utils/goalStorage.ts:131-133 | a matching index with no match before it is what `findIndex` returns |
| GoalStorage.UpsertFinds | src/utils/goalStorage.ts:39-47 | after an upsert under a goal's own key, that key finds the goal |
| GoalStorage.UpsertOtherKey | src/utils/goalStorage.ts:39-47 | an upsert under one key changes nothing any other key finds |
| GoalStorage.SavedGoalsShape | src/utils/goalStorage.ts:131-147 | saving an existing key replaces the goal in place with the stamped input, dropping the old `createdAt`; a new key is appended with both stamps; nothing else moves |
| GoalStorage.GetAfterSaveGoal | src/utils/goalStorage.ts:126-149 | after a save the key finds a goal with the input's key and targets and `updatedAt = now` |
| GoalStorage.SaveOtherKey | src/utils/goalStorage.ts:126-149 | a save changes nothing any other key finds |
| GoalStorage.DeleteKeepsOthers | src/utils/goalStorage.ts:166-170 | a delete keeps the other goals in their order, and every other key finds what it found before |
| GoalStorage.FindGoalCons | src/utils/goalStorage.ts:32 | `find` checks the head first, then the tail |
| GoalStorage.DeleteFind | src/utils/goalStorage.ts:166-170 | filtering out one key leaves every other key's lookup unchanged |
| GoalStorage.EmptyMergeUnchanged | src/utils/goalStorage.ts:70 | an empty remote list leaves the store as it was |
| GoalStorage.MergedFinds | src/utils/goalStorage.ts:68-83 | after the merge, a key held by some remote goal finds the last remote goal with that key; any other key finds what it found before |
| WorkCatalog.FindWorkActivity | src/components/WorkSchedule.tsx:91 | the lookup by code gives a catalog entry with that code, and gives nothing exactly when no entry has it |
| WorkCatalog.FindWorkActivityIn | src/components/WeeklyScheduleView.tsx:70 | the same lookup over any catalog: a found entry is in the catalog with the code, and nothing is found exactly when no entry has it |
| WorkCatalog.FindWorkActivityInFirst | src/components/WeeklyScheduleView.tsx:70 | the lookup returns the entry at the first index holding the code |
| WorkCatalog.Codes10XChecked | src/types/workSchedule.ts:8-12 | the 10x group is codes 101 to 105, well formed and ascending |
| WorkCatalog.Codes11XChecked | src/types/workSchedule.ts:13-21 | the 11x group is well formed and ascending |
| WorkCatalog.Codes12XChecked | src/types/workSchedule.ts:22-29 | the 12x group is well formed and ascending |
| WorkCatalog.Codes20XChecked | src/types/workSchedule.ts:30-36 | the 20x group is well formed and ascending |
| WorkCatalog.Codes21XChecked | src/types/workSchedule.ts:37-40 | the 21x group is well formed and ascending |
| WorkCatalog.Codes30XChecked | src/types/workSchedule.ts:41-46 | the 30x group is well formed and ascending |
| WorkCatalog.Codes40XChecked | src/types/workSchedule.ts:47-55 | the 40x group is well formed and ascending |
| WorkCatalog.Codes50XChecked | src/types/workSchedule.ts:56-57 | the 50x group is well formed and ascending |
| WorkCatalog.AscendingConcat | src/types/workSchedule.ts:7-58 | two ascending groups whose boundary codes are in order join into one ascending list |
| WorkCatalog.PrefixThrough11X | src/types/workSchedule.ts:8-21 | the first 14 codes end at 118 and ascend |
| WorkCatalog.PrefixThrough12X | src/types/workSchedule.ts:8-29 | the first 22 codes end at 127 and ascend |
| WorkCatalog.PrefixThrough20X | src/types/workSchedule.ts:8-36 | the first 29 codes end at 207 and ascend |
| WorkCatalog.PrefixThrough21X | src/types/workSchedule.ts:8-40 | the first 33 codes end at 213 and ascend |
| WorkCatalog.PrefixThrough30X | src/types/workSchedule.ts:8-46 | the first 39 codes end at 306 and ascend |
| WorkCatalog.PrefixThrough40X | src/types/workSchedule.ts:8-55 | the first 48 codes end at 409 and ascend |
| WorkCatalog.PrefixThrough50X | src/types/workSchedule.ts:8-57 | all 50 codes end at 502 and ascend |
| WorkCatalog.WorkCatalogShape | src/types/workSchedule.ts:7-58 | the work catalog has 50 entries, each code three digits starting 1 to 5, in strictly ascending order |
| WorkCatalog.AscendingCodesPairwise | src/types/workSchedule.ts:7-58 | in an ascending list every earlier code is strictly below every later one |
| WorkCatalog.WorkCodesDistinct | src/types/workSchedule.ts:7-58 | no two work activities share a code, so a lookup by code is unambiguous |
| WorkScheduleStorage.MemberIndex | src/utils/workScheduleStorage.ts:31 | the index of the first entry for the member, or -1 exactly when there is none |
| WorkScheduleStorage.DayIndex | src/utils/workScheduleStorage.ts:71 | the index of the first day with the date, or -1 exactly when there is none |
| WorkScheduleStorage.FindDay | src/utils/workScheduleStorage.ts:32 | a day with the date, or nothing exactly when no day has it; `WorkScheduleStorage.FindDayIsFirstWithKey` makes it the first such day |
| WorkScheduleStorage.UpsertDay | src/utils/workScheduleStorage.ts:71-79 | the schedule is in the new list; the list grows by one exactly when no day has its date; every day of another date keeps its place |
| WorkScheduleStorage.SortByDate | src/utils/workScheduleStorage.ts:82 | the sort by `localeCompare` of dates is a permutation; `SavedEntriesShape` makes it sorted and `GetAfterSaveSchedule` relies on its stability |
| WorkScheduleStorage.SavedEntries | src/utils/workScheduleStorage.ts:54-85 | the member then has an entry; the entries grow by one exactly when the member had none; every other member's entry keeps its place |
| WorkScheduleStorage.InWeek | src/utils/workScheduleStorage.ts:48-50 | a day lies in the range only when the start date is not after the end date |
| WorkScheduleStorage.ScheduleStore.constructor | src/utils/workScheduleStorage.ts:12-16 | the store holds the parsed stored list |
| WorkScheduleStorage.ScheduleStore.GetMemberDaySchedule | src/utils/workScheduleStorage.ts:25-35 | nothing for an unknown member; for a known member, nothing exactly when the member's first entry has no day of that date, and otherwise the first day of that date in that entry |
| WorkScheduleStorage.ScheduleStore.GetMemberSchedulesForWeek | src/utils/workScheduleStorage.ts:38-51 | nothing for an unknown member; otherwise the member's days inside the date range, in stored order, each as often as it is stored |
| WorkScheduleStorage.WeekDays | src/utils/workScheduleStorage.ts:48-50 | the filtered days all lie in the week, keep their order, and hold every day of the week as often as it is stored, and no other day |
| WorkScheduleStorage.ScheduleStore.SaveMemberDaySchedule | src/utils/workScheduleStorage.ts:54-85 | the new store is the save's result, and reading the member's day back gives the saved schedule |
| WorkScheduleStorage.LexLeIsTotalPreorder | src/utils/workScheduleStorage.ts:82 | the date comparison used by the sort is total and transitive |
| WorkScheduleStorage.FindDayIsFirstWithKey | src/utils/workScheduleStorage.ts:32 | the day found is the first of the days with that date |
| WorkScheduleStorage.UpsertDayFinds | src/utils/workScheduleStorage.ts:71-79 | after replacing or appending, the date's first day is the new schedule |
| WorkScheduleStorage.DayIndexAt | src/utils/workScheduleStorage.ts:71 | a date first found at position i has index i |
| WorkScheduleStorage.MemberIndexAt | src/utils/workScheduleStorage.ts:31 | a member first found at position i has index i |
| WorkScheduleStorage.SavedEntriesShape | src/utils/workScheduleStorage.ts:54-85 | the member's entry stays where it was or is appended, its days are sorted by date and are the upserted days, and every other entry is unchanged |
| WorkScheduleStorage.GetAfterSaveSchedule | src/utils/workScheduleStorage.ts:54-85 | after a save the member's entry exists and its first day of that date is the saved schedule (the stable sort keeps it first) |
| WorkScheduleStorage.OtherMembersUnchanged | src/utils/workScheduleStorage.ts:54-85 | a save for one member leaves every other member's entry and presence as they were |
| WorkScheduleStorage.SavedEntriesIds | src/utils/workScheduleStorage.ts:54-85 | a save keeps every entry's member id in place, changes no other member's entry, and a new member's entry is the appended one |
| WorkScheduleStorage.DistinctKeysAtMostOne | src/utils/workScheduleStorage.ts:71-79 | distinct dates mean at most one day per date |
| WorkScheduleStorage.AtMostOneDistinct | src/utils/workScheduleStorage.ts:71-79 | at most one day per date means distinct dates |
| WorkScheduleStorage.NoKeyEmpty | src/utils/workScheduleStorage.ts:71 | no day with the date keeps nothing for it |
| WorkScheduleStorage.KeyEmptyNone | src/utils/workScheduleStorage.ts:71 | keeping nothing for a date means no day has it |
| WorkScheduleStorage.UpsertKeepsDistinct | src/utils/workScheduleStorage.ts:71-79 | replacing the date's day or appending a new date keeps dates distinct |
| WorkScheduleStorage.SaveKeepsDistinct | src/utils/workScheduleStorage.ts:54-85 | a save keeps the member's dates distinct, sort included |
| WorkScheduleEditor.SlotLabel | src/components/WorkSchedule.tsx:51-57 | morning, afternoon and evening are labelled Sáng, Chiều and Tối, each label belonging to one slot |
| WorkScheduleEditor.SlotCode | src/components/WorkSchedule.tsx:24-26 | a missing schedule, slot or empty code reads as the empty code; otherwise the stored code |
| WorkCatalog.DaySchedule.Slot | src/components/WorkSchedule.tsx:24-26 | the stored code of one slot; `WorkScheduleEditor.SlotCode` states how a missing one reads |
| WorkScheduleEditor.Stored | src/components/WorkSchedule.tsx:43-45 | the empty code is stored as an absent slot and any other code as itself |
| WorkScheduleEditor.SlotEditor.Emitted | src/components/WorkSchedule.tsx:41-46 | the emitted schedule carries the editor's date and each slot's selection, empty ones absent |
| WorkScheduleEditor.SlotEditor.Selected | src/components/WorkSchedule.tsx:37-46 | `selectedSlots[slot]`; `SlotEditor.HandleSlotChange` states that only the named slot's selection changes |
| WorkScheduleEditor.SlotEditor.constructor | src/components/WorkSchedule.tsx:19-27 | every slot starts from the schedule prop's code, empty where missing |
| WorkScheduleEditor.SlotEditor.Resync | src/components/WorkSchedule.tsx:29-35 | a new schedule prop resets every slot from it |
| WorkScheduleEditor.SlotEditor.HandleSlotChange | src/components/WorkSchedule.tsx:37-49 | only the named slot changes, and the emitted schedule is the editor's new selection |
| WorkScheduleEditor.EmitAfterLoad | src/components/WorkSchedule.tsx:24-46 | loading a stored schedule with no empty code and emitting it unchanged gives it back |
| WorkScheduleEditor.EmittedHasNoEmptySlot | src/components/WorkSchedule.tsx:43-45 | no emitted schedule holds an empty code |
| WeeklyScheduleView.ScheduleForDateIsFirst | src/components/WeeklyScheduleView.tsx:53-55 | the per-date lookup yields the first schedule of the date |
| WeeklyScheduleView.ActivityName | src/components/WeeklyScheduleView.tsx:68-72 | empty for no code, "code: name" for a catalogued code, the code alone otherwise; non-empty codes are a prefix of the result |
| WeeklyScheduleView.GridCell | src/components/WeeklyScheduleView.tsx:174-203 | a grid cell is never empty: "-" for an empty slot, else the stored code |
| WeeklyScheduleView.AppendSlotRow | src/components/WeeklyScheduleView.tsx:86-107 | appending a slot row cell by cell gives the label, a tab and one tab-ended cell per date |
| WeeklyScheduleView.AppendSlotCells | src/components/WeeklyScheduleView.tsx:88-91 | the loop over the dates appends one tab-ended cell per date |
| WeeklyScheduleView.CellsStep | src/components/WeeklyScheduleView.tsx:88-91 | behind any text already built, one more date adds its cell at the end of the row |
| WeeklyScheduleView.SlotCells | src/components/WeeklyScheduleView.tsx:88-91 | a slot's cells take at least one character per date |
| WeeklyScheduleView.SlotRow | src/components/WeeklyScheduleView.tsx:86-91 | a slot row is longer than the number of dates |
| WeeklyScheduleView.ExportText | src/components/WeeklyScheduleView.tsx:74-108 | the copied text starts with the title and takes more than three characters per date |
| WeeklyScheduleView.HeaderStep | src/components/WeeklyScheduleView.tsx:79-83 | one more date adds its header cell at the end |
| WeeklyScheduleView.CopyToClipboard | src/components/WeeklyScheduleView.tsx:74-108 | the copied text is the title, header row and three slot rows joined by newlines |
| WeeklyScheduleView.CountCharAbsent | src/components/WeeklyScheduleView.tsx:74-108 | a string without the character counts none of it |
| WeeklyScheduleView.SlotCodeFree | src/components/WeeklyScheduleView.tsx:89-90 | a code read for any date is free of a character no stored code holds |
| WeeklyScheduleView.SlotCellsTabs | src/components/WeeklyScheduleView.tsx:88-91 | with tab-free codes a row's cells hold exactly one tab per date |
| WeeklyScheduleView.SlotRowTabs | src/components/WeeklyScheduleView.tsx:86-91 | with tab-free codes each slot row holds one tab more than there are dates, so the columns line up |
| WeeklyScheduleView.SlotCellsNoNewline | src/components/WeeklyScheduleView.tsx:88-91 | newline-free codes give newline-free cells |
| WeeklyScheduleView.HeaderCellsNoNewline | src/components/WeeklyScheduleView.tsx:79-83 | newline-free header texts give newline-free header cells |
| WeeklyScheduleView.SlotRowNoNewline | src/components/WeeklyScheduleView.tsx:86-91 | a slot row holds no newline when no code does |
| WeeklyScheduleView.TitleNewlines | src/components/WeeklyScheduleView.tsx:75 | the title holds exactly two newlines |
| WeeklyScheduleView.Title | src/components/WeeklyScheduleView.tsx:75 | the title line and a blank line; `TitleNewlines` states it holds exactly two newlines and `ExportText` that it starts the text |
| WeeklyScheduleView.HeaderCells | src/components/WeeklyScheduleView.tsx:79-83 | one tab-ended header cell per date; `HeaderStep` states the step and `HeaderCellsNoNewline` that it holds no newline |
| WeeklyScheduleView.HeaderRow | src/components/WeeklyScheduleView.tsx:76-83 | the label "Thời gian", a tab and the header cells; `HeaderRowNoNewline` states it is one line |
| WeeklyScheduleView.HeaderRowNoNewline | src/components/WeeklyScheduleView.tsx:76-83 | the header row holds no newline |
| WeeklyScheduleView.CountJoined | src/components/WeeklyScheduleView.tsx:74-108 | counting across pieces joined by newlines adds up |
| WeeklyScheduleView.SlotRowEndsWithTab | src/components/WeeklyScheduleView.tsx:86-107 | every slot row ends with a tab |
| WeeklyScheduleView.ExportLines | src/components/WeeklyScheduleView.tsx:74-108 | the copied text holds exactly five newlines and ends with a tab, so it has six lines and no trailing newline |
| WeeklyScheduleView.SlotCodesAll | src/components/WeeklyScheduleView.tsx:213 | the three slot codes are exactly the codes of the three slots |
| WeeklyScheduleView.SlotCodes | src/components/WeeklyScheduleView.tsx:213 | the morning, afternoon and evening codes of a day; `SlotCodesAll` states they are exactly the three slots' codes |
| WeeklyScheduleView.DayCodes | src/components/WeeklyScheduleView.tsx:213 | the day's codes are its non-empty slot codes, at most three |
| WeeklyScheduleView.FirstIndex | src/components/WeeklyScheduleView.tsx:214 | the position of the first occurrence |
| WeeklyScheduleView.FirstIndexAt | src/components/WeeklyScheduleView.tsx:214 | a first occurrence at i has first index i |
| WeeklyScheduleView.Dedupe | src/components/WeeklyScheduleView.tsx:214 | the set spread holds the same elements, each once |
| WeeklyScheduleView.DedupeOrder | src/components/WeeklyScheduleView.tsx:214 | the set spread keeps first-occurrence order |
| WeeklyScheduleView.DedupeSnoc | src/components/WeeklyScheduleView.tsx:214 | one more code is added at the end exactly when it is new |
| WeeklyScheduleView.FirstIndexPrefix | src/components/WeeklyScheduleView.tsx:214 | a code already seen has the same first position after one more code |
| WeeklyScheduleView.DedupeOrderStep | src/components/WeeklyScheduleView.tsx:214 | one more code keeps the spread in first-occurrence order |
| WeeklyScheduleView.KnownActivities | src/components/WeeklyScheduleView.tsx:218-226 | the legend keeps the catalogued codes' activities and drops unknown codes |
| WeeklyScheduleView.KnownActivitiesOrder | src/components/WeeklyScheduleView.tsx:218-226 | the legend's codes come in the codes' order |
| WeeklyScheduleView.KnownActivitiesDistinct | src/components/WeeklyScheduleView.tsx:214-226 | distinct codes give legend entries with distinct codes |
| WeeklyScheduleView.DistinctTail | src/components/WeeklyScheduleView.tsx:214 | the tail of distinct codes is distinct and lacks the head |
| WeeklyScheduleView.KnownHeadFresh | src/components/WeeklyScheduleView.tsx:218-226 | a head code missing from the tail keeps the legend's codes distinct |
| WeeklyScheduleView.FreshHeadDistinct | src/components/WeeklyScheduleView.tsx:214-226 | an entry whose code no later entry has keeps the codes distinct when put in front |
| WeeklyScheduleView.DayCodesAtMostThree | src/components/WeeklyScheduleView.tsx:213-214 | a day has at most three unique codes |
| WeeklyScheduleView.DedupeLength | src/components/WeeklyScheduleView.tsx:214 | deduplicating never lengthens |
| WeeklyScheduleView.DayEntries | src/components/WeeklyScheduleView.tsx:213-226 | a day's legend has at most three entries, and each is what the catalog lookup finds for its code |
| WeeklyScheduleView.DayLegend | src/components/WeeklyScheduleView.tsx:211-226 | the legend entries of one date's schedule; `DayLegendFacts` states which entries and in what order |
| WeeklyScheduleView.Legend | src/components/WeeklyScheduleView.tsx:211-226 | every legend entry is what the catalog lookup finds for its code |
| WeeklyScheduleView.DayLegendFacts | src/components/WeeklyScheduleView.tsx:211-226 | a day's legend lists each of its catalogued slot codes once, with the catalog entry, and nothing else, in slot order |
| WeeklyScheduleView.LegendFacts | src/components/WeeklyScheduleView.tsx:211-226 | an entry is in the legend exactly when some date's legend has it, and there are at most three per date |
| GoalSetting.InputText | src/components/GoalSetting.tsx:49 | reading a key gives nothing exactly when no input has it, otherwise a text stored under it |
| GoalSetting.SetInput | src/components/GoalSetting.tsx:96-101 | setting a key keeps the length or adds one entry |
| GoalSetting.SetInputReads | src/components/GoalSetting.tsx:96-101 | after setting, the key reads as the new text and every other key as before |
| GoalSetting.SetInputKeys | src/components/GoalSetting.tsx:96-101 | setting keeps keys distinct and appends exactly when the key is new |
| GoalSetting.SetInputKeyFrom | src/components/GoalSetting.tsx:96-101 | every key after setting is the new key or an old one |
| GoalSetting.InputsOf | src/components/GoalSetting.tsx:34-42 | no goal gives the empty object |
| GoalSetting.InputsFrom | src/components/GoalSetting.tsx:34-39 | at most one input per target, and at least one when there is a target |
| GoalSetting.TargetOf | src/components/GoalSetting.tsx:49-55 | an input yields a target exactly when its text parses to a number above 0, with that count |
| GoalSetting.ValidTargets | src/components/GoalSetting.tsx:47-56 | no more targets than inputs, and every target's count is above 0 |
| GoalSetting.CollectTargets | src/components/GoalSetting.tsx:47-56 | the loop over the inputs in key order returns exactly the valid targets of `parseInt` |
| GoalSetting.ValidTargetsSound | src/components/GoalSetting.tsx:47-56 | every saved target comes from an input and has a count above 0 |
| GoalSetting.ValidTargetsComplete | src/components/GoalSetting.tsx:47-56 | every input with a valid count yields a saved target |
| GoalSetting.ValidTargetsStep | src/components/GoalSetting.tsx:48-56 | each input adds its target, if any, at the end |
| GoalSetting.ValidTargetsExact | src/components/GoalSetting.tsx:47-56 | a target is saved exactly when some input yields it, and its count is positive |
| GoalSetting.InputsFromDistinct | src/components/GoalSetting.tsx:35-38 | distinct target ids load as one input per target, in order, with distinct keys |
| GoalSetting.ValidTargetsOfPrinted | src/components/GoalSetting.tsx:37-56 | positive counts printed and parsed back give the same targets |
| GoalSetting.TargetOfPrinted | src/components/GoalSetting.tsx:37-55 | a positive count printed into its input parses back to the same target |
| GoalSetting.ValidTargetsAll | src/components/GoalSetting.tsx:47-56 | when every input yields a target, all of them are saved, in input order |
| GoalSetting.LoadSaveRoundTrip | src/components/GoalSetting.tsx:30-56 | loading a goal with distinct ids and positive counts and saving it unedited reproduces its targets |
| GoalSetting.GoalEditor.constructor | src/components/GoalSetting.tsx:21-23 | no goal, no inputs, not editing |
| GoalSetting.GoalEditor.LoadGoal | src/components/GoalSetting.tsx:30-43 | the goal is the stored one for the member and month, and the inputs are its targets as text |
| GoalSetting.GoalEditor.StartEditing | src/components/GoalSetting.tsx:23 | editing starts and nothing else changes |
| GoalSetting.GoalEditor.HandleTargetChange | src/components/GoalSetting.tsx:96-101 | only that activity's text changes |
| GoalSetting.GoalEditor.HandleCancel | src/components/GoalSetting.tsx:83-94 | the inputs go back to the loaded goal's and editing ends |
| GoalSetting.GoalEditor.HandleSave | src/components/GoalSetting.tsx:45-81 | with no valid input nothing changes; otherwise the goal of the valid targets is saved to the store and kept, and editing ends |
| PrayerCard.Clamp | src/components/PrayerCard.tsx:53 | the count is at least 0, at most the maximum, and unchanged when already in range |
| PrayerCard.Card.constructor | src/components/PrayerCard.tsx:16-39 | each control starts from the stored value of its shape, else from its default; the maximum defaults to 10 |
| Wrappers.Option.GetOr | src/components/PrayerCard.tsx:22 | a default parameter: the given value, else the default; `PrayerCard.Card.constructor` states the maximum defaults to 10 |
| PrayerCard.Card.HandleCheckboxChange | src/components/PrayerCard.tsx:41-44 | the checkbox takes the flag, which is reported; the other controls are unchanged |
| PrayerCard.Card.HandleDualCheckboxChange | src/components/PrayerCard.tsx:46-50 | only the named half changes and the whole pair is reported |
| PrayerCard.Card.HandleCounterChange | src/components/PrayerCard.tsx:52-56 | the count is clamped to 0..maximum, stored and reported |
| PrayerCard.Card.HandleRadioChange | src/components/PrayerCard.tsx:58-61 | the choice is stored and its parsed integer reported (nothing for NaN) |
| PrayerCard.CounterButtonsStep | src/components/PrayerCard.tsx:114-131 | the minus button is disabled at 0 or below and the plus button at the maximum or above; an enabled button moves the count by exactly one, and a disabled one would leave it at its bound |
| PrayerCard.MinusDisabled | src/components/PrayerCard.tsx:116 | the minus button is disabled at 0 or below; `CounterButtonsStep` states that an enabled one steps down by one and a disabled one would clamp to 0 |
| PrayerCard.PlusDisabled | src/components/PrayerCard.tsx:128 | the plus button is disabled at the maximum or above; `CounterButtonsStep` states that an enabled one steps up by one and a disabled one would clamp to the maximum |
| PrayerCard.ClampIdempotent | src/components/PrayerCard.tsx:53 | clamping a clamped count changes nothing |
| PrayerCard.DefaultOptionsParse | src/components/PrayerCard.tsx:23 | the default options report 0, 1 and 2 |
| ActivityDetails.ActivityName | src/components/ActivityDetailsModal.tsx:39-42 | the catalog name for a known id with a name, else the id itself |
| ActivityDetails.JsString | src/components/ActivityDetailsModal.tsx:46 | `String(value)` prints booleans as "true"/"false", numbers in decimal (never empty, with a minus exactly when negative) and a pair as "[object Object]" |
| ActivityDetails.FormatActivityValue | src/components/ActivityDetailsModal.tsx:44-58 | an unknown id prints the value as String does, so false shows as "false"; a known one prints true as Có, false and 0 as nothing, other numbers in decimal, and a pair as "[object Object]" |
| ActivityDetails.FormatEmptyIff | src/components/ActivityDetailsModal.tsx:44-58 | a value shows as nothing exactly when its activity is known and the value is false or 0 |
| ActivityDetails.VisibleRows | src/components/ActivityDetailsModal.tsx:104-118 | no shown row is empty and there are no more rows than entries |
| ActivityDetails.VisibleRowsExact | src/components/ActivityDetailsModal.tsx:104-118 | every entry with a non-empty value has its row, and the rows are the entries' rows in order |
| ActivityDetails.VisibleRowsMultiset | src/components/ActivityDetailsModal.tsx:104-118 | every row that shows something appears as often as the entries give it, and no empty row appears |
| ActivityDetails.HiddenEntries | src/components/ActivityDetailsModal.tsx:105-106 | a known activity ticked false or counted 0 is never shown |
| Auth.AuthProvider.constructor | src/contexts/AuthContext.tsx:25-39 | a stored login younger than 30 minutes authenticates; an expired one is removed |
| Auth.AuthProvider.Login | src/contexts/AuthContext.tsx:41-51 | succeeds exactly for the shared password, which stores the login time; a wrong password changes nothing |
| Auth.AuthProvider.Logout | src/contexts/AuthContext.tsx:53-56 | the session ends and the stored time is removed |
| Auth.AuthProvider.CheckAuth | src/contexts/AuthContext.tsx:62-73 | an authenticated session whose login is 30 minutes old is logged out; otherwise nothing changes; an authenticated session stays so exactly while under 30 minutes have passed since the login |
| Auth.Expired | src/contexts/AuthContext.tsx:63-69 | a missing login or one at least 30 minutes old is expired: a stored login is never expired at or before its own timestamp, and an expired one is strictly in the past |
| Auth.ExpiryIsFixed | src/contexts/AuthContext.tsx:6 | a login stays fresh exactly until 30 minutes after it |
| Auth.LoginThenCheck | src/contexts/AuthContext.tsx:41-73 | after a login and a later check, the session is authenticated exactly when the password was right and under 30 minutes have passed |
| MemberFilter.FilteredMembers | src/hooks/useFilteredMembers.ts:7-17 | a basic session sees exactly the members outside the restricted ids, in their order; any other session sees everyone |
| MemberFilter.FilteredKeepsOrder | src/hooks/useFilteredMembers.ts:12 | the filtered list keeps the members' order |
| MemberFilter.BasicMembership | src/hooks/useFilteredMembers.ts:10-13 | a member is seen by a basic session exactly when it is a member with an unrestricted id |
| MemberFilter.RestrictedPositions | src/types/index.ts:25-48 | the restricted ids are the catalog's first, second and twelfth members |
| Text.LexLeTotal | src/utils/workScheduleStorage.ts:82 | any two strings are ordered one way or the other |
| Text.LexLeTransitive | src/utils/workScheduleStorage.ts:82 | the string order is transitive |
| Text.LexLeAntisymmetric | src/utils/workScheduleStorage.ts:82 | strings ordered both ways are equal |
| Text.LexLe | src/utils/workScheduleStorage.ts:49 | string `<=` as lexicographic order on code points (JavaScript compares UTF-16 code units; "## Left out" says where the two differ); `LexLeTotal`, `LexLeTransitive` and `LexLeAntisymmetric` make it a total order |
| Text.LexLess | src/types/workSchedule.ts:7-58 | strict string order, used to state that the work codes ascend; `WorkCatalog.AscendingCodesPairwise` and `WorkCodesDistinct` build on it |
| Text.DigitChar | src/components/GoalSetting.tsx:37 | a digit below 10 prints as its decimal character |
| Text.DigitValue | src/components/GoalSetting.tsx:49 | a decimal character reads as its digit |
| Text.NatToStringShape | src/components/GoalSetting.tsx:37 | a count prints as digits without a leading zero that read back as the count |
| Text.NatToString | src/components/GoalSetting.tsx:37 | a count prints as a non-empty run of decimal digits, with no leading zero unless it is 0 |
| Text.IntToString | src/components/ActivityDetailsModal.tsx:54 | a number prints non-empty, with a leading minus exactly when negative, and digits after it |
| Text.IntToStringInjective | src/components/PrayerCard.tsx:38 | different numbers print differently |
| Text.TrimStart | src/components/GoalSetting.tsx:49 | parsing skips leading white space: what is dropped is all white space, and what is kept is a suffix that starts with none |
| Text.PrefixWhile | src/components/GoalSetting.tsx:49 | parsing reads the longest prefix of accepted characters |
| Text.HexDigitValue | src/components/PrayerCard.tsx:60 | a hexadecimal digit reads below 16 |
| Text.UnsignedPrefixValue | src/components/GoalSetting.tsx:49 | a magnitude is read only when the text starts with a decimal digit (a `0x` prefix included) |
| Text.ParseInt | src/components/GoalSetting.tsx:49 | NaN unless the text holds a digit; a negative result comes only after a leading minus, and a positive one never does |
| Text.ParseUnsignedDigits | src/components/GoalSetting.tsx:49 | any non-empty string of decimal digits, leading zeros included, parses to its decimal value |
| Text.ParseDigits | src/components/GoalSetting.tsx:49 | a digit string parses to its decimal value |
| Text.ParseMinusDigits | src/components/GoalSetting.tsx:49 | a minus followed by a digit string parses to the negated value of the digits |
| Text.ParseIntOfIntToString | src/components/GoalSetting.tsx:37-49 | a printed number parses back to itself |
| Text.PrefixWhileAll | src/components/GoalSetting.tsx:49 | a string made only of accepted characters is read whole |
| Text.ParseDigit | src/components/PrayerCard.tsx:60 | a single decimal character parses to its digit |
| Seqs.MapSeqSnoc | src/app/tong-ket/page.tsx:44-45 | `map` over a list with one more element adds that element's image at the end |
| Seqs.MapSeq | src/app/tong-ket/page.tsx:44-45 | `map` keeps the length and puts f of each element at its index |
| Seqs.Filter | src/utils/goalStorage.ts:65 | every kept element is in the list and passes the test, every passing element is kept, and the result is no longer than the list |
| Seqs.Flatten | src/components/WeeklyScheduleView.tsx:226 | `flat()`; `FlattenMembership` states an element is in it exactly when it is in one of the parts, and `FlattenLength` states that when every part has at most k elements the result has at most k times as many elements as there are parts |
| Seqs.FilterMultiset | src/utils/goalStorage.ts:65 | `filter` keeps each accepted element as often as it occurs and drops every other one |
| Seqs.FilterMembership | src/utils/goalStorage.ts:65 | an element survives `filter` exactly when it occurs and is accepted |
| Seqs.FilterIsSubsequence | src/utils/goalStorage.ts:65 | `filter` keeps the surviving elements in their order |

## Left out

- Browser storage: localStorage and sessionStorage reads and writes, and JSON parsing and printing, are not modelled. Each store is a class whose field holds the parsed list, and a write is an assignment to that field. A missing or empty stored value reads as the empty list; a corrupt one makes `JSON.parse` throw, which is not modelled.
- Remote database: the Supabase calls inside `src/utils/goalStorage.ts`, and their error handling, are left out because they are network I/O. The lists they return are parameters of the merge methods. The remote modules `goalSupabase`, `workScheduleSupabase`, `useAutoSync` and `migrateFromSupabase` are not part of this model.
- Asynchrony: `async`/`await` and promise ordering are not modelled. Each operation runs to completion in one step.
- Timers: `CheckAuth` models one tick of the one-minute `setInterval`. No clock advances between ticks, because time is a parameter `now`. The clipboard-success timer of the week view is left out.
- Date arithmetic: month navigation, the week's seven dates and `getWeeklySchedule`'s start and end dates all depend on the local time zone, so they are left out. Dates from `toISOString` and the header and day-name formatting are left out for the same reason. The week view takes its dates and its header text per date as inputs.
- `getMemberActivities` and the loading flag of the details view are left out: they are asynchronous plumbing. The view's rows are modelled over one record's entries.
- The monthly summary's and the leaderboard's member list is a parameter: the caller passes `useFilteredMembers()`.
- Rendering: the JSX markup, its CSS classes, `alert`, `console` calls, the `isSaving` flags and the modal open/close flags are not modelled. The leaderboard's ring and highlight classes are modelled only as the rank positions that choose them.
- Floating point: `Math.round` is exact half-up rounding of a rational. Float artefacts, such as a tie computed as x.4999…, are not modelled.
- `Object.keys` order: an object is an association list in insertion order. This is the order JavaScript gives for keys that do not look like array indices, and every catalog id is such a key. Integer-like keys, which JavaScript lists first in numeric order, are not modelled.
- Value shapes: a stored activity value is a boolean, an integer or a morning/evening pair. Non-integral numbers, NaN and any other JSON shape, and `Number(...)` applied to them, are not modelled.
- `localeCompare` and the string comparisons `<=` and `>=` (src/utils/workScheduleStorage.ts:49) are modelled as lexicographic order on characters taken as code points. JavaScript compares strings by UTF-16 code units, which differs from code-point order only between characters above U+FFFF and characters from U+E000 to U+FFFF; locale order differs further on letters. All three agree on the `YYYY-MM-DD` dates the store compares and sorts.
- Sorting.SortBy: `Array.prototype.sort` sorts in place and the source keeps using the sorted array. The model gives the sorted sequence as a new value, so aliasing of that array is not modelled.
- GoalStorage.GoalStore.SaveMemberGoal: the source reads the clock twice, once for `createdAt` and once for `updatedAt`. The model uses one `now` for both.
- MemberFilter.FilteredMembers: the login level is a parameter. `src/contexts/AuthContext.tsx` provides no `authLevel`, so as written the hook reads an undefined level and shows every member. The level-setting login is not part of this model.
- MemberFilter.BasicMembership: the count of members a basic session sees, 19, is not stated as a length. What is proved is exactly which members it sees (those outside positions 1, 2 and 12) and that their order is kept.
- Completion and 100% differ in the code (`src/utils/goalProgress.ts:60-69`): a completed target shows 100%, but not conversely, because `Math.round` lifts 199 of 200 to 100% while `completed` stays false. `GoalProgressEngine.HundredPercentNotCompleted` exhibits the case.
- Session expiry is fixed thirty minutes after the login: only `Login` writes the timestamp (`src/contexts/AuthContext.tsx:45-47`), and `CheckAuth` only reads it, so activity never renews a session.
- Duplicate activity ids in one record: a record's `activities` object is modelled as an association list, which could name one id twice where a JavaScript object cannot. With duplicates, `LookupValue` reads the first entry while the counting loops count every entry. Records with distinct ids, the only ones the source can hold, are the intended inputs; well-formedness is not imposed as a precondition.
