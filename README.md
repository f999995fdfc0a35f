# Dev Quest progression engine in Dafny

Dev Quest is a gamified coding tracker. A user creates coding tasks, completes
them (or a generated daily challenge) and is rewarded with experience points
(XP), coins, a daily streak, hours coded and a task count; achievements unlock
when these statistics reach fixed thresholds, and a leaderboard ranks users by
XP.

This project models that progression engine and proves what it promises:

- the streak rule (`utils/checkStreak.js`): a completion extends the streak
  exactly when the previous one fell on the calendar day before;
- the XP table (`utils/calculateXP.js`);
- the task handlers (`controllers/taskController.js`): create, update and
  delete guards, task completion with its rewards, and the keyword classifier
  `detectTechnology`;
- the challenge handlers (`controllers/challengeController.js`): the daily
  challenge offer with the generator's fallback, completion under the
  "one task or challenge per day" guard, and the nightly sweep;
- the achievement engine (`controllers/achievementController.js`): the
  catalogue of eight thresholds, unlocking once per (user, criterion), the
  derived display strings, and the progress view;
- the leaderboard (`controllers/leaderboardController.js`): ranks, the
  caller's mark and the caller's rank off the list.

The store is the class `Models.Database`: one map per collection, a counter
for fresh ids and a log of the socket events the handlers emit. The handlers
are methods that change it step by step. Each is proved equal to a pure
function of the old state, such as `Achievements.Check`, `Tasks.AfterTask`
or `Challenges.Swept`. The lemmas about those functions carry the properties.
Time is an integer number of milliseconds in the server's zone. A calendar day
is a block of 86,400,000 of them (`Calendar.DayOf`, `Calendar.Midnight`).

Files: `common.dfy` (modules Common, Calendar, Text), `streak.dfy`, `xp.dfy`,
`models.dfy`, `rewards.dfy` (the streak-and-milestone step both completion
paths write out inline), `achievements.dfy`, `achievement_view.dfy`,
`tasks.dfy`, `challenges.dfy`, `leaderboard.dfy`.

## Model

| member | source | states |
|---|---|---|
| StreakRule.CheckStreak | utils/checkStreak.js:2-14 | the increment is 0 or 1; 1 with no previous completion; otherwise 1 exactly when the previous completion's day is the day before today |
| StreakRule.NoIncrementUnlessYesterday | utils/checkStreak.js:11-13 | a previous completion two or more days back, or today or later, gives 0 |
| StreakRule.YesterdayWindow | utils/checkStreak.js:3-11 | the increment is 1 exactly when the previous completion lies in the 24 hours before today's midnight |
| StreakRule.OnlyCalendarDaysMatter | utils/checkStreak.js:4-9 | two pairs of instants on the same calendar days give the same increment, whatever the time of day |
| XpTable.TierXP | utils/calculateXP.js:2-13 | the tier value is 0 exactly for a difficulty other than easy, medium or hard |
| XpTable.CalculateXP | utils/calculateXP.js:1-14 | the result is at least the bonus and exceeds it by 0, 10, 50 or 100; it equals the bonus exactly for an unknown difficulty |
| XpTable.TierTable | utils/calculateXP.js:1-14 | easy, medium and hard give 10, 50 and 100 plus the bonus; hard > medium > easy > bonus; the bonus defaults to 0 |
| Calendar.Midnight | controllers/taskController.js:165-166 | today's midnight is at or before the instant, less than a day before it, on the same day |
| Calendar.AtOrAfterMidnight | controllers/taskController.js:169-173 | an instant is at or after today's midnight exactly when its day is today or later |
| Rewards.Milestone | controllers/taskController.js:197-209 | coins are paid exactly at 3, 7 and 14 days: 10 with "3-Day Streak! +10 coins", 20 with "7-Day Streak! +20 coins", 50 with "14-Day Streak! +50 coins"; a message is sent exactly when coins are |
| Rewards.StreakReward | controllers/challengeController.js:132-151 | increment 1 adds a day and pays that length's milestone; increment 0 resets the streak to 0 and pays nothing; no other field changes |
| Rewards.SameDayResets | controllers/challengeController.js:133-134 | a previous completion the same calendar day resets the streak to 0 |
| Rewards.MilestonesPayOnce | controllers/taskController.js:198-209 | a streak built day by day up to n collects 10 at 3, 20 at 7 and 50 at 14 days, and no more |
| Models.UnlockedInAdd | controllers/achievementController.js:147-150 | a record added under a fresh id unlocks its own (user, criterion) pair and no other |
| Achievements.CatalogueThresholds | controllers/achievementController.js:183-192 | the eight checks are tasks >= 1 and >= 3, streak >= 3, 7 and 14, XP >= 500 and 1000, hours >= 10 |
| Achievements.CatalogueCriteriaDistinct | controllers/achievementController.js:183-192 | no two catalogue entries share a criterion |
| Achievements.NameIsTitleCase | controllers/achievementController.js:199 | the split-capitalise-join name turns each '_' into a space and upper-cases the first letter of every word |
| Achievements.SplitJoinIsTitleCase | controllers/achievementController.js:199 | split on '_', capitalise and join with ' ' equals the character-by-character title case |
| Achievements.DataFor | controllers/achievementController.js:197-202 | the unlock data keeps the criterion, its name is the title case, its description is "Achieved " followed by as many characters as the criterion has, and its icon is criterion + "-badge.jpg" |
| Achievements.DescriptionReplacesFirst | controllers/achievementController.js:200 | the description is "Achieved " + the criterion with its first '_', and only that one, turned into a space; a criterion without '_' is kept as it is |
| Achievements.Xp500Name | controllers/achievementController.js:199 | 'xp_500' is named 'Xp 500' |
| Achievements.Xp500Description | controllers/achievementController.js:200 | 'xp_500' becomes 'xp 500' in the description |
| Text.ReplaceFirstOnlyFirst | controllers/achievementController.js:200 | `replace` with a one-character pattern changes the first occurrence only and keeps the rest |
| Text.JoinSplit | controllers/achievementController.js:199 | joining the split parts on the same separator gives back the string |
| Text.SplitAtFirst | controllers/achievementController.js:95 | the text before the first separator is the first part, and the rest splits on its own |
| Text.SplitNoSeparator | controllers/achievementController.js:95 | a string without the separator splits into itself alone |
| Achievements.Record | controllers/achievementController.js:147-150 | the stored record belongs to the user, carries the criterion and is stamped now |
| Achievements.UnlockStore | controllers/achievementController.js:140-172 | afterwards the pair is unlocked; an existing record leaves everything unchanged; old records are kept; users differ only by appended ids; the id counter and the event log only grow; the one-record-per-pair invariant holds |
| Achievements.UnlockStoreOthers | controllers/achievementController.js:140-150 | no other (user, criterion) pair changes status, and the only record added is the derived record of the data |
| Achievements.UnlockStoreAppends | controllers/achievementController.js:147-170 | a new unlock stores the record under the next id, appends that id to the user's `achievements` list, and emits 'achievementUnlocked' then 'statsUpdated' for that id; for a missing user only 'achievementUnlocked' is emitted and the users are untouched |
| Achievements.UnlockAchievement | controllers/achievementController.js:140-172 | the store becomes UnlockStore of the old one; returns the existing record, the new id, or none for a missing user |
| Achievements.Step | controllers/achievementController.js:194-205 | one round unlocks entry i exactly when it was not found before the loop and the user meets it, and otherwise changes nothing |
| Achievements.CheckFrom | controllers/achievementController.js:194-206 | the rest of the loop keeps every record, only appends ids to users, keeps the invariant and only appends events |
| Achievements.Check | controllers/achievementController.js:175-210 | the same for the whole check; a missing user changes nothing |
| Achievements.CheckAndUnlockAchievements | controllers/achievementController.js:175-210 | the store becomes Check of the old one, and tasks and challenges are untouched |
| Achievements.CheckAll | controllers/achievementController.js:194-206 | the loop from entry `start` leaves the store as CheckFrom of the old one, against the user and the records read before the loop |
| Achievements.CheckEntry | controllers/achievementController.js:195-205 | one round performs Step: the rest of the loop after it ends where the loop from this round would have |
| Achievements.StepUnlocks | controllers/achievementController.js:195-196 | a round changes the status of its own entry only, and only by unlocking it |
| Achievements.CheckFromUnlocks | controllers/achievementController.js:194-206 | from entry i on, each entry ends unlocked exactly when it was found before the loop or is met |
| Achievements.CheckFromNewRecords | controllers/achievementController.js:196-204 | every record the loop creates is the derived record of an entry the user meets |
| Achievements.CheckUnlocksExactly | controllers/achievementController.js:183-206 | after the check a criterion is unlocked exactly when it was before or its threshold holds, and every new record is the derived record of a met criterion |
| Achievements.NothingLeftToUnlock | controllers/achievementController.js:195-196 | when everything met is already unlocked, the loop changes nothing |
| Achievements.CheckIdempotent | controllers/achievementController.js:195-196 | running the check a second time creates, appends and emits nothing |
| Achievements.ToUnlock | controllers/achievementController.js:194-196 | the entries the loop unlocks from entry i on: in catalogue order, each not found before the loop and met by the user |
| Achievements.Unlocks | controllers/achievementController.js:140-172 | unlocking criteria one after the other keeps every record and the store invariant |
| Achievements.CheckFromIsUnlocks | controllers/achievementController.js:194-206 | the loop from entry i is the unlocking, in order, of the criteria ToUnlock picks |
| Achievements.ToUnlockFresh | controllers/achievementController.js:183-196 | the criteria the loop unlocks are distinct and none is unlocked before it |
| Achievements.UnlocksAppend | controllers/achievementController.js:147-170 | unlocking distinct, not yet unlocked criteria for an existing user stores one derived record per criterion under consecutive ids, appends those ids to the user's list in the same order, and emits each unlock's two events in order |
| Achievements.CheckAppendsIds | controllers/achievementController.js:175-210 | for an existing user the check appends to the user's list exactly the ids of the new records, one per entry met and not yet unlocked, in catalogue order, each record the derived record of its criterion and each unlock's events in order |
| AchievementView.Measure | controllers/achievementController.js:82-108 | the measured progress is never 'Completed', and the empty text comes with value 0 and target 0 |
| AchievementView.MeasureBlank | controllers/achievementController.js:82-108 | the empty text is shown exactly for a criterion that is none of 'first_task', 'three_tasks', 'hours_10' and contains neither 'streak_' nor 'xp_'; so any other criterion containing 'streak_' or 'xp_' gets the `current/total` form |
| AchievementView.FindCriteria | controllers/achievementController.js:79 | the index is of the first record with the criterion, and there is none exactly when no record carries it |
| AchievementView.Entry | controllers/achievementController.js:78-117 | an entry is unlocked exactly when a record carries its criterion, and exactly then it shows 'Completed' and an unlock time, which is that of a record with the criterion |
| AchievementView.ProgressView | controllers/achievementController.js:78-118 | the view has one entry per displayed achievement |
| AchievementView.MeetsIsReaching | controllers/achievementController.js:183-192 | a check holds exactly when its statistic reaches its threshold |
| AchievementView.DigitsOfTargets | controllers/achievementController.js:95 | `parseInt` reads 3, 7, 14, 500 and 1000 from the criterion suffixes |
| AchievementView.SuffixAfterPrefix | controllers/achievementController.js:95 | for a criterion prefix_digits, the number after the first '_' is the value of the digits |
| AchievementView.MeasureStreak | controllers/achievementController.js:94-98 | 'streak_' followed by any text without '_' is measured on the streak, against the value of that text's leading decimal digits, in the `current/total` form |
| AchievementView.MeasureXp | controllers/achievementController.js:99-103 | 'xp_' followed by any text without '_' is measured on the XP, against the value of that text's leading decimal digits, in the `current/total` form |
| AchievementView.MeasureHours | controllers/achievementController.js:104-107 | 'hours_10' is measured on the hours coded against 10, to one decimal |
| AchievementView.MeasureMatchesCatalogue | controllers/achievementController.js:19-108 | entry by entry, the view's criterion, target and value are the check's |
| AchievementView.ViewAgreesWithCheck | controllers/achievementController.js:78-117 | the view lists the catalogue in order; each value is the check's statistic and each target the check's threshold; the value reaches it exactly when the check holds; 'Completed' appears exactly when a record carries the criterion |
| AchievementView.FoundIffUnlocked | controllers/achievementController.js:15 | over exactly the user's records, finding the criterion is being unlocked |
| AchievementView.GetUserAchievementsAndStats | controllers/achievementController.js:8-137 | 404 exactly for a missing user; otherwise the stats, and per entry: its display; unlocked exactly when the user holds the criterion, and then 'Completed' with the unlock time of one of the user's records for it; otherwise no unlock time and the `current/total` form (to one decimal for 'hours_10'); the value is the check's statistic, the target its threshold, and the value reaches the target exactly when the check holds |
| Tasks.NewTaskError | controllers/taskController.js:53-61 | a request passes exactly with a name, a known tier and a positive time; every rejection is a 400: a missing name, difficulty or time gives "Name, difficulty, and estimated time are required", then an unknown tier "Invalid difficulty level", then a negative time "Estimated time must be positive" |
| Tasks.CreateTask | controllers/taskController.js:50-78 | a rejection changes nothing; otherwise a pending, uncompleted task owned by the caller is stored under a fresh id and nothing else changes |
| Tasks.Patched | controllers/taskController.js:92-106 | an edit passes exactly when a supplied difficulty is a tier and a supplied time is positive; it overwrites exactly the supplied fields and keeps all others |
| Tasks.UpdateTask | controllers/taskController.js:83-117 | another user's or a missing task is 404 and a completed one 400, with nothing changed; a pending task becomes Patched or stays as it was; completed tasks are never changed |
| Tasks.DeleteTask | controllers/taskController.js:122-145 | a missing task is 404 and another user's 403, with nothing changed; otherwise exactly that task is removed and 'taskDeleted' emitted |
| Tasks.Finished | controllers/taskController.js:175-178 | the saved task is completed with the actual time, the completion instant and the learned flag, and nothing else changes |
| Tasks.TaskReward | controllers/taskController.js:181-211 | XP grows by the tier value, hours by minutes/60, the count by 1; the streak step happens only with no task done earlier today; the stamp is now; nothing else changes |
| Tasks.TaskCoinsOnlyAtMilestones | controllers/taskController.js:186-209 | a task completion changes coins only when it just extended the streak to 3, 7 or 14, by that milestone |
| Tasks.RewardForTask | controllers/taskController.js:181-211 | the field-by-field updates produce TaskReward |
| Tasks.AfterTask | controllers/taskController.js:212-235 | the saved user, then the check, then the three events keep the store invariant |
| Tasks.CompletionError | controllers/taskController.js:152-162 | the request passes exactly when CanComplete holds; otherwise 404 for a missing or foreign task, 400 for a completed one, 400 for a non-positive time |
| Tasks.CompleteTask | controllers/taskController.js:150-245 | a rejection changes nothing; otherwise the task is saved Finished; a missing user then gives 500; otherwise the store becomes AfterTask with TaskReward, with today's earlier tasks counted before the save |
| Tasks.SaveRewarded | controllers/taskController.js:211-235 | saving the user, the check and the three events give AfterTask |
| Tasks.DetectTechnology | controllers/taskController.js:369-385 | 'Programming' exactly when no category's keyword occurs in the lower-cased text; otherwise the capitalised name of the first category in the fixed order that has one |
| Challenges.MainTech | controllers/challengeController.js:8 | the first technology of the stack, or 'General' for an empty stack |
| Challenges.FallbackChallenge | controllers/challengeController.js:45-50 | the fallback names that technology in its title and description, with a 50 XP bonus and type 'daily_code' |
| Challenges.GenerateChallenge | controllers/challengeController.js:7-52 | a usable reply is taken as it is; with no usable reply the result is exactly FallbackChallenge of the stack: 50 XP, 'daily_code', titled "Code in " + the main technology |
| Challenges.GetDailyChallenge | controllers/challengeController.js:57-90 | an open challenge of the caller's created today is returned with nothing changed; otherwise 404 for a missing user; otherwise the new challenge is stored under a fresh id and appended to the user's list |
| Challenges.ChallengeError | controllers/challengeController.js:98-124 | 404 for a missing or foreign challenge; 400 for a completed one; for a pending one, it passes exactly when nothing was completed since today's midnight |
| Challenges.ChallengeReward | controllers/challengeController.js:130-152 | XP grows by the bonus and coins by 10 plus the milestone on an extended streak; increment 0 resets the streak; the stamp is now; hours and the task count are untouched |
| Challenges.RewardForChallenge | controllers/challengeController.js:130-152 | the field-by-field updates produce ChallengeReward |
| Challenges.Completed | controllers/challengeController.js:126-127 | the saved challenge is completed and stamped now, and nothing else changes |
| Challenges.AfterChallenge | controllers/challengeController.js:153-161 | the saved user, the event, then the check keep the store invariant |
| Challenges.CompleteChallenge | controllers/challengeController.js:96-171 | a rejection changes nothing; otherwise the challenge is saved Completed and the day's guard is closed; a missing user then gives 500; otherwise the store becomes AfterChallenge with ChallengeReward |
| Challenges.SaveRewarded | controllers/challengeController.js:152-161 | saving the user, the event and the check give AfterChallenge |
| Challenges.OncePerDay | controllers/challengeController.js:110-124 | after a completion, any other pending challenge is turned away the same calendar day |
| Challenges.CompleteTwiceSameDay | controllers/challengeController.js:110-124 | a second completion on the day of a successful one is rejected |
| Challenges.CompleteChallengeAsWritten | controllers/challengeController.js:96-120 | as written, a pending own challenge ends in 500 past the two lookups |
| Challenges.AsWrittenNeverCompletes | controllers/challengeController.js:1-4 | a request that passes the intended guard fails with 500 as written |
| Challenges.StoredAsWritten | models/Challenge.js:3-32 | under the schema, the completion instant is dropped |
| Challenges.GuardBlindAsWritten | controllers/challengeController.js:111-115 | over documents stored under that schema, the guard never finds a challenge completed today |
| Challenges.SecondCompletionSlipsThrough | controllers/challengeController.js:111-128 | a second challenge the same day passes the guard as written and is rejected as intended |
| Challenges.Swept | controllers/challengeController.js:178-181 | exactly the completed challenges and those created since midnight are kept, each unchanged |
| Challenges.SweepIdempotent | controllers/challengeController.js:178-181 | sweeping twice at the same midnight removes nothing more |
| Challenges.SweepKeepsTodaysOffer | controllers/challengeController.js:61-65 | the sweep never removes the challenge today's request would be offered |
| Challenges.ResetDailyChallenges | controllers/challengeController.js:174-186 | the challenges become Swept of the old ones at today's midnight and nothing else changes |
| Leaderboard.Insert | controllers/leaderboardController.js:27 | inserting keeps the list sorted by XP and adds exactly that one user |
| Leaderboard.ConsSorted | controllers/leaderboardController.js:27 | a head with at least the XP of the first entry keeps the list sorted |
| Leaderboard.SortByXp | controllers/leaderboardController.js:27 | the sort orders by XP, highest first, and is a permutation |
| Leaderboard.TopByXp | controllers/leaderboardController.js:27 | the list is sorted by XP, holds min(n, 20) users and only queried users |
| Leaderboard.TopIsTop | controllers/leaderboardController.js:27 | a user is left off only when the list is full, and only with no more XP than anyone on it |
| Leaderboard.FindIndex | controllers/leaderboardController.js:31 | the index is the caller's first position, and there is none exactly when the caller is not listed |
| Leaderboard.CountAbove | controllers/leaderboardController.js:41 | the count is 0 exactly when nobody has more XP and all users exactly when everybody has |
| Leaderboard.Candidates | controllers/leaderboardController.js:14-25 | the weekly and monthly filters match nobody; any other timeframe keeps everyone (assuming `strictQuery` is false, so the filter on the unknown path reaches MongoDB; see Left out) |
| Leaderboard.CallerRank | controllers/leaderboardController.js:29-47 | there is no rank exactly when the caller is neither listed nor a user |
| Leaderboard.GetLeaderboard | controllers/leaderboardController.js:8-68 | at most 20 lines, which are the query result sorted by XP in order, ranked 1..n, each keeping its user's fields and marked exactly when it is the caller's; the requested timeframe is echoed back |
| Leaderboard.GetLeaderboardQuery | controllers/leaderboardController.js:10 | a request without a timeframe is answered as 'all-time', which filters nobody out; a given timeframe is passed on as it is |
| Leaderboard.ListedCallerAgrees | controllers/leaderboardController.js:31-36 | a listed caller's rank is the rank of the single marked line |
| Leaderboard.OffListRank | controllers/leaderboardController.js:38-46 | an off-list caller's rank is 1 + the number of users with more XP; it is 1 exactly when nobody has more |
| Leaderboard.RankBesideList | controllers/leaderboardController.js:37-46 | the off-list branch finds the caller and counts the users above |
| Leaderboard.UnknownCallerHasNoRank | controllers/leaderboardController.js:39-46 | a caller with no user document gets no rank |

## Left out

- HTTP plumbing: routing, middleware, response bodies and `next(...)` are replaced by a `Result` value, with an `Error` per status code.
- Object id validation (`isValidObjectId` in `deleteTask`): ids are naturals, so the 400 for a malformed id cannot arise.
- Persistence is modelled by in-memory maps. Query order, `save` failures and concurrent requests are not modelled; the count-then-save race in both completion paths is outside the model.
- Socket messages are modelled as events appended to a log: the kind, the user and the id. Their payloads (user statistics, the task or challenge document) are not modelled.
- The calls to the external challenge and learning-resource generators are not modelled. `getDailyChallenge` takes the generator's parsed reply as a parameter (`None` when the call or the parse fails). `generateLearningResources`, `getTasks`, `getTask` and `getAchievements` are not part of this model.
- The clock is a parameter `now`. Calendar days are fixed 24-hour blocks in one zone, so daylight-saving changes are not modelled.
- Request fields arrive typed. JavaScript coercion of strings to numbers, and `NaN`, are not modelled. A missing number is 0 and a missing string is empty, which the source treats as absent.
- AchievementView.Measure: `toFixed(1)` and the `current/total` text are not formatted; the model records which form is shown (`Fraction`, `FixedFraction`).
- AchievementView.MeasureStreak, AchievementView.MeasureXp: the target is the value of the suffix's leading decimal digits. `parseInt` differs on three kinds of suffix, none of which occurs in the fixed list at controllers/achievementController.js:19-75: a suffix with no leading digit (NaN in the source, 0 here), a leading sign ('-3' is -3 in the source), and leading spaces (' 7' is 7 in the source).
- AchievementView.GetUserAchievementsAndStats: the records are not sorted by `unlockedAt`, so with several records for one criterion the unlock time shown may be that of a different one. The store's invariant allows only one record per (user, criterion).
- Leaderboard.SortByXp: MongoDB does not fix the order of equal XP; the model uses a stable sort. `avatar` (models/User.js:25-28) is carried in `Summary` like the other selected fields; its default 'default.jpg' on creation is not modelled.
- Leaderboard.Candidates: `lastActivity` is not in the user schema, so the weekly and monthly filters match nobody; the model states that directly. This assumes `strictQuery` is false, so the filter on the unknown path reaches MongoDB. The Mongoose version is not pinned here. Under Mongoose 6's default (`strictQuery` equal to `strict`) the path is stripped and both filters keep everyone.
- Tasks.TaskReward: `totalHoursCoded` is a JavaScript double in the source and an exact `real` here. Sixty additions of 10/60 give 9.999999999999998 in the source, so 'hours_10' does not unlock there while it does in the model.
- Text.Lower, Text.Upper: case mapping covers ASCII letters only. JavaScript maps all of Unicode, so a text such as "hoo\u212As" (with KELVIN SIGN, which lower-cases to 'k') is React in the source but Programming in Tasks.DetectTechnology.
- Achievements.Check: a failing `unlockAchievement` is caught and logged by the source. The only failure in the model is a missing user, which the caller's own check excludes.
- Tasks.CompleteTask: a missing user after validation throws a TypeError after the task is saved; the model returns 500 with the task saved.
- Challenges.ResetDailyChallenges: the ids of deleted challenges stay in users' `challenges` lists, as in the source.
- Passwords, authentication, profiles, uploads, e-mail and scheduling are not part of this model.

## Findings

| source | as written | input that shows it | evidently intended | confidence | as-written member | corrected member |
|---|---|---|---|---|---|---|
| controllers/challengeController.js:1-4 | `Task`, `checkStreak` and `checkAndUnlockAchievements` are used at lines 116, 132 and 161 but never imported, so every request that passes the two lookups throws a ReferenceError and answers 500 | the caller's pending challenge on a day with nothing completed yet | count today's tasks, reward the user and run the achievement check as the task path does | high (not executed) | Challenges.CompleteChallengeAsWritten, Challenges.AsWrittenNeverCompletes | Challenges.CompleteChallenge |
| models/Challenge.js:3-32 | the schema has no `completedAt`, so the instant set at controllers/challengeController.js:127 is dropped on save, and the guard's count of challenges completed today never finds one (assuming `strictQuery` is false; under Mongoose 6's default the `completedAt` condition is stripped, and the guard instead counts every past completion of the user) | a challenge completed at `now`, then a second pending challenge the same day with no task completed: the second passes the guard | the completion instant is stored and the second completion is rejected | medium (not executed) | Challenges.StoredAsWritten, Challenges.SecondCompletionSlipsThrough | Challenges.CompleteChallenge, Challenges.OncePerDay |
