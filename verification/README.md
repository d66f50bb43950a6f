# AI Mental Health Tracker — core model in Dafny

This project models the logic of the AI Mental Health Tracker, a web app where a user logs a mood (1-10), a stress level (low, medium, high) and optional journal text.

- The **achievement engine** summarises the user's logs into statistics: entries, journal and AI counts, mean mood, current and longest streak, mood improvement, and weekly consistency. It then awards every catalogue rule the user has not yet earned and whose condition holds, and turns the points earned into a level.
- The **AI service** checks journal text for crisis keywords. It answers with the emergency reply, the webhook's reply, or a local reply built from persona tables, coping strategies, follow-up questions and stress-keyed suggestions.
- The **mood-log hook** holds the user's logs. It prepends a newly stored log together with a canned reply.
- The **views** compute their own figures:
  - the analytics charts, totals and the 30-day display streak;
  - the journal's date and search filter;
  - the meditation timer and its `m:ss` display;
  - the personal emergency-contact list.
- The **notification service** prepares the VAPID key: it pads the key, switches it from the base64url alphabet (section 5 of RFC 4648) to the standard one (section 4), and copies the decoded characters into a byte array. It also supplies default notification settings.

Modules and their files:

- `Text` (text.dfy): the string built-ins the code relies on: `toLowerCase`, `includes`, `trim` and decimal rendering.
- `Domain` (domain.dfy): the mood log record and calendar days. Timestamps are integer milliseconds and a day is `t / 86400000`.
- `Statistics` (statistics.dfy) and `Achievements` (achievements.dfy): src/lib/achievementSystem.ts.
- `AIService` (ai_service.dfy): src/lib/aiService.ts.
- `MoodLogsHook` (mood_logs_hook.dfy): src/hooks/useMoodLogs.ts.
- `Analytics` (analytics.dfy), `Journal` (journal.dfy), `Meditation` (meditation.dfy) and `Emergency` (emergency.dfy): the four views.
- `Notification` (notification.dfy): src/lib/notificationService.ts.

State the source changes in place is modelled by a class:

- `AchievementTable` is the achievements table.
- `MoodLogs` is the hook's state.
- `MeditationTimer` is the meditation view's state.
- `ContactList` is the emergency view's state.

Loops the source runs are methods with invariants, each proved equal to a specification function. These are the streak loops, the in-place sort, the award loop, the coping-strategy pushes, the 30-day display streak and the byte copy.

## Model

| member | source | states |
|---|---|---|
| Text.ToLower | src/components/JournalView.tsx:38-40 | Lowercasing keeps the length and lowers each character in place. |
| Text.ToLowerIdempotent | src/components/JournalView.tsx:38-40 | Lowercasing twice is the same as lowercasing once. |
| Text.ToLowerAppend | src/lib/aiService.ts:46-49 | Lowercasing distributes over concatenation. |
| Text.EmptyIsContained | src/components/JournalView.tsx:38-40 | Every string includes the empty string. |
| Text.Contains | src/components/JournalView.tsx:38-40 | A needle is found only when it is no longer than the text; a prefix of the text is always found, and so is the empty string. |
| Text.ContainsInContext | src/lib/aiService.ts:46-49 | A substring stays a substring when text is added on either side. |
| Text.TrimStart | src/components/EmergencyView.tsx:83 | The result is a suffix of the input that starts with a non-space, and everything dropped is white space. |
| Text.TrimEnd | src/components/EmergencyView.tsx:83 | The result is a prefix of the input that ends with a non-space, and everything dropped is white space. |
| Text.Trim | src/components/EmergencyView.tsx:83 | The result occurs in the input, neither starts nor ends with white space, and is empty exactly when the input is all white space. |
| Text.TrimOccurs | src/components/EmergencyView.tsx:83 | The trimmed text sits in the input right after the leading white space. |
| Text.TrimBlank | src/components/EmergencyView.tsx:83 | Trimming gives the empty string exactly when every character is white space. |
| Text.TrimIdempotent | src/components/EmergencyView.tsx:83-84 | Trimming a trimmed string changes nothing. |
| Text.TrimmedHasNoOuterSpace | src/components/EmergencyView.tsx:83 | A trimmed string is empty or starts and ends with a non-space. |
| Text.NatToDecimal | src/components/MeditationView.tsx:121 | The decimal rendering is non-empty and all digits, and has one digit exactly when the number is below 10. |
| Text.DecimalRoundTrip | src/components/MeditationView.tsx:121 | Reading back the decimal rendering gives the number. |
| Domain.DayOf | src/lib/achievementSystem.ts:198 | The day of a timestamp is the one whose midnight is at or before it and whose next midnight is after it. |
| Domain.StartOfWeek | src/components/AnalyticsView.tsx:39 | The start of the week is a midnight falling on a Sunday, at or before the instant and less than seven days before it. |
| Domain.EndOfWeek | src/components/AnalyticsView.tsx:40 | The end of the week is at or after the instant, on the sixth day after the week's start, a Saturday, and is the last millisecond of that day. |
| Domain.CivilYearMonth | src/components/JournalView.tsx:35 | The month of any day number is between 1 and 12; with CivilYearMonthIff, the pair is the Gregorian year and month the day falls in. |
| Domain.DaysInMonth | src/components/JournalView.tsx:35 | Months have 28 to 31 days, and 29 exactly for February of a leap year. |
| Domain.LeapsStep | src/components/JournalView.tsx:35 | The leap-year count rises by one exactly at a leap year. |
| Domain.YearLength | src/components/JournalView.tsx:35 | A year is 366 days long if it is a leap year and 365 otherwise. |
| Domain.DaysBeforeMonth | src/components/JournalView.tsx:35 | The days before a month are at most 31 for each month before it. |
| Domain.CivilRoundTrip | src/components/JournalView.tsx:35 | The conversion gives back the year and month of every valid calendar date. |
| Domain.CivilDateExists | src/components/JournalView.tsx:35 | Every day number is some valid calendar date. |
| Domain.CivilYearMonthIff | src/components/JournalView.tsx:35 | A day converts to (y, m) if and only if it is one of the valid dates of month m of year y. |
| Domain.DaysSince | src/lib/achievementSystem.ts:209-212 | The floored day difference between now and a day's midnight is today's day number minus that day. |
| Domain.DaysBetweenMidnights | src/lib/achievementSystem.ts:221-225 | The floored day difference between two midnights is the difference of their day numbers. |
| Statistics.JournalCount | src/lib/achievementSystem.ts:163 | The number of logs with journal text is at most the number of logs. |
| Statistics.JournalCountSnoc | src/lib/achievementSystem.ts:163 | Adding a log at the end adds one exactly when it has journal text. |
| Statistics.JournalCountCounts | src/lib/achievementSystem.ts:163 | The count equals the number of positions whose log has journal text, the length of the filtered array. |
| Statistics.AiCount | src/lib/achievementSystem.ts:164 | The number of logs with an AI reply is at most the number of logs. |
| Statistics.AiCountSnoc | src/lib/achievementSystem.ts:164 | Adding a log at the end adds one exactly when it has an AI reply. |
| Statistics.AiCountCounts | src/lib/achievementSystem.ts:164 | The count equals the number of positions whose log has an AI reply. |
| Statistics.MoodSumBounds | src/lib/achievementSystem.ts:165 | With moods on 1-10, the mood sum lies between n and 10n. |
| Statistics.AverageMoodInRange | src/lib/achievementSystem.ts:165 | With moods on 1-10, the average mood lies on 1-10. |
| Statistics.InsertDay | src/lib/achievementSystem.ts:198-201 | Adding a day keeps the list strictly descending, and its members are the old ones plus the new day. |
| Statistics.UniqueDaysDescending | src/lib/achievementSystem.ts:198-201 | The distinct dates are strictly descending and are exactly the days that have a log. |
| Statistics.UniqueDaysCount | src/lib/achievementSystem.ts:174-176 | The distinct-date list is as long as the number of active days. |
| Statistics.DaysActiveAtMostEntries | src/lib/achievementSystem.ts:174-176 | There are never more active days than logs. |
| Statistics.StreakFromMeaning | src/lib/achievementSystem.ts:208-217 | The counted dates are today, yesterday, and so on back, and the first date after them breaks the pattern. |
| Statistics.StreakFromUnique | src/lib/achievementSystem.ts:208-217 | Any count with that property is the counted one. |
| Statistics.CurrentStreakCharacterized | src/lib/achievementSystem.ts:208-217 | A number is the current streak if and only if the first that many dates are today back to `today - c + 1` and the next date is not `today - c`. |
| Statistics.NoEntryTodayNoStreak | src/lib/achievementSystem.ts:208-217 | Without a log today the current streak is 0. |
| Statistics.RunEndingAtSpan | src/lib/achievementSystem.ts:220-231 | The run counted at a position is made of consecutive days. |
| Statistics.RunEndingAtCovers | src/lib/achievementSystem.ts:220-231 | Every run of consecutive days ending at a position is no longer than the counted run. |
| Statistics.MaxRunBounds | src/lib/achievementSystem.ts:220-232 | The running maximum is at least each run seen so far, and equals one of them. |
| Statistics.LongestStreakIsLongestRun | src/lib/achievementSystem.ts:219-232 | The longest streak bounds every run of consecutive days in the list, and some run reaches it. |
| Statistics.LongestStreakMonotone | src/lib/achievementSystem.ts:219-232 | When every day of one list is in another descending list, its longest streak is no longer than the other's. |
| Statistics.RunGivesBlock | src/lib/achievementSystem.ts:219-232 | A run of consecutive days covers every day between its first and last. |
| Statistics.BlockGivesRun | src/lib/achievementSystem.ts:219-232 | In a descending list that holds every day of a block, those days form a run of that length. |
| Statistics.CurrentStreakOf | src/lib/achievementSystem.ts:208-217 | The current streak is at most the number of days, and its k-th day is k days before today. |
| Statistics.LongestStreakOf | src/lib/achievementSystem.ts:219-232 | The longest streak is at most the number of days. |
| Statistics.LongestStreakBounds | src/lib/achievementSystem.ts:219-232 | With at least one log, the longest streak is between 1 and the number of distinct days. |
| Statistics.CurrentAtMostLongest | src/lib/achievementSystem.ts:194-235 | The current streak never exceeds the longest streak. |
| Statistics.CalculateStreaks | src/lib/achievementSystem.ts:194-235 | No logs give 0 and 0; otherwise the two loops over the distinct days return the current streak and the longest streak specified above. |
| Statistics.CountCurrentStreak | src/lib/achievementSystem.ts:207-217 | The first loop, with its break, returns the current streak of the day list. |
| Statistics.CountLongestStreak | src/lib/achievementSystem.ts:219-232 | The second loop, with its running maximum and the final comparison, returns the longest streak of a non-empty day list. |
| Statistics.InsertByRecency | src/lib/achievementSystem.ts:240-242 | Inserting one log into the ordering adds exactly one element. |
| Statistics.InsertByRecencyPermutes | src/lib/achievementSystem.ts:240-242 | The insertion is a permutation of the old list plus the new log. |
| Statistics.InsertByRecencySorted | src/lib/achievementSystem.ts:240-242 | Inserting into a newest-first list keeps it newest first. |
| Statistics.ByRecency | src/lib/achievementSystem.ts:240-242 | The ordering keeps the number of logs. |
| Statistics.ByRecencyPermutes | src/lib/achievementSystem.ts:240-242 | The ordering is a permutation of the logs. |
| Statistics.ByRecencySorted | src/lib/achievementSystem.ts:240-242 | The ordering is newest first. |
| Statistics.CreatedAtInsert | src/lib/achievementSystem.ts:240-242 | An insertion places the new log after the earlier logs with the same timestamp. |
| Statistics.ByRecencyStable | src/lib/achievementSystem.ts:240-242 | The ordering is stable: logs with the same timestamp keep their relative order. |
| Statistics.ByRecencyKeepsSorted | src/lib/achievementSystem.ts:240-242 | Logs already newest first, as the store returns them, are left unchanged. |
| Statistics.InsertByRecencyAt | src/lib/achievementSystem.ts:240-242 | The insertion puts the new log just after the last log that is not older. |
| Statistics.InsertInPlace | src/lib/achievementSystem.ts:240-242 | Shifting the array moves `a[i]` into the sorted prefix as the insertion function does, and the rest of the array is untouched. |
| Statistics.ShiftedInsert | src/lib/achievementSystem.ts:240-242 | An array shifted this way holds the insertion of `x` in its first `i + 1` cells. |
| Statistics.SortByRecency | src/lib/achievementSystem.ts:240-242 | The in-place sort leaves the array holding the newest-first ordering of its old contents. |
| Statistics.MoodImprovementOf | src/lib/achievementSystem.ts:237-251 | Under fourteen logs the improvement is 0; with moods on 1-10 it lies between -9 and 9. |
| Statistics.ImprovementInScale | src/lib/achievementSystem.ts:244-250 | With moods on 1-10 the difference of the two weekly means lies between -9 and 9. |
| Statistics.ImprovementThreshold | src/lib/achievementSystem.ts:244-250 | An improvement of at least 2 means the newest seven moods sum to at least 14 more than the seven before them. |
| Statistics.CalculateMoodImprovement | src/lib/achievementSystem.ts:237-251 | Below fourteen logs the result is 0 and the array is untouched. Otherwise the array is sorted newest first and the result is the difference of the two weekly means. |
| Statistics.WeeklyConsistencyOf | src/lib/achievementSystem.ts:253-268 | Consistency is at least 0 and at most the number of logs over 28, and it is either 0 or at least 1/28. |
| Statistics.WeeklyConsistencyZero | src/lib/achievementSystem.ts:253-268 | Consistency is 0 exactly when no log falls in the last 28 days. |
| Statistics.Interval | src/lib/achievementSystem.ts:253-268 | The day range `lo..hi` has `hi - lo + 1` members. |
| Statistics.WeeklyConsistencyBound | src/lib/achievementSystem.ts:253-268 | With no future logs, consistency lies between 0 and 29/28, because the 28-day window touches 29 calendar dates. |
| Statistics.WeeklyConsistencyOrderFree | src/lib/achievementSystem.ts:253-268 | Consistency does not depend on the order of the logs. |
| Statistics.StatsOf | src/lib/achievementSystem.ts:140-192 | Entries equal the number of logs, and no logs give the all-zero summary. Journal, AI and active-day counts are at most the entries. |
| Statistics.StatsInvariants | src/lib/achievementSystem.ts:140-192 | The summary: entries equal the number of logs, and no logs give the all-zero summary. Journal, AI and active-day counts are bounded by entries. Current ≤ longest ≤ active days. No log today gives a current streak of 0. Under 14 logs the improvement is 0. |
| Statistics.StatsMonotone | src/lib/achievementSystem.ts:140-192 | Adding a log raises the entry count and never lowers the active days or the longest streak. |
| Statistics.GetUserStats | src/lib/achievementSystem.ts:140-192 | Returns the summary of the logs it was given, and leaves the array sorted newest first when it holds fourteen logs or more. |
| Achievements.CatalogueIdsDistinct | src/lib/achievementSystem.ts:28-119 | The ten catalogue rules have distinct ids and positive points. |
| Achievements.UserRows | src/lib/achievementSystem.ts:293-305 | A row is returned if and only if it is stored and belongs to that user. |
| Achievements.UserRowsCounts | src/lib/achievementSystem.ts:293-305 | Each of the user's rows is returned as many times as it is stored, and no other row is returned. |
| Achievements.UserRowsAppend | src/lib/achievementSystem.ts:293-297 | Selecting a user's rows distributes over appended rows. |
| Achievements.Kinds | src/lib/achievementSystem.ts:124 | `existingIds` has one entry per row, the row's type. |
| Achievements.KindsAppend | src/lib/achievementSystem.ts:124 | Taking the types distributes over appended rows. |
| Achievements.AwardedRulesMembers | src/lib/achievementSystem.ts:128-135 | A rule is awarded if and only if it is in the catalogue, not earned yet, its condition holds and its insert succeeds. |
| Achievements.NoGrantsNoAwards | src/lib/achievementSystem.ts:128-135 | If no rule qualifies, nothing is awarded. |
| Achievements.AwardedRulesDistinct | src/lib/achievementSystem.ts:128-135 | With distinct rule ids, no rule is awarded twice, and at most every rule is awarded. |
| Achievements.AwardingIsIdempotent | src/lib/achievementSystem.ts:121-138 | With the same statistics and the same refused inserts in both runs, once the awarded ids are added to the existing ones nothing is awarded again. |
| Achievements.AwardedNeverRegranted | src/lib/achievementSystem.ts:121-138 | Once the awarded ids are added to the existing ones, no rule awarded in the first run is awarded again, whatever the statistics and refused inserts of the later run. |
| Achievements.FailedReadRegrants | src/lib/achievementSystem.ts:123-128 | When the table's read fails, the existing types the run reads are empty. So every catalogue rule the user already holds whose condition holds and whose insert succeeds is awarded again. |
| Achievements.Granted | src/lib/achievementSystem.ts:126-135 | One new row per awarded rule. |
| Achievements.GrantedRows | src/lib/achievementSystem.ts:130-133 | New row `i` belongs to the user, takes the next id, and copies rule `i`'s id as type, its title, description, icon and points. |
| Achievements.GrantedKinds | src/lib/achievementSystem.ts:274-276 | The types of the new rows are the ids of the awarded rules, in order. |
| Achievements.GrantedUserRows | src/lib/achievementSystem.ts:274-275 | All new rows belong to the user. |
| Achievements.PointsSumAppend | src/lib/achievementSystem.ts:309 | The point total distributes over appended rows. |
| Achievements.GrantedPointsNonNegative | src/lib/achievementSystem.ts:280 | New rows carry non-negative points. |
| Achievements.LevelFor | src/lib/achievementSystem.ts:311-314 | The next-level threshold is 100 × level, and the points lie in the 100-point band just below it. Non-negative points give level ≥ 1. |
| Achievements.LevelMonotone | src/lib/achievementSystem.ts:311 | More points never give a lower level. |
| Achievements.AchievementTable.constructor | src/lib/achievementSystem.ts:27 | The table starts with the given rows, id counter, refused rule ids and read outcome. |
| Achievements.AchievementTable.UserAchievements | src/lib/achievementSystem.ts:293-305 | A failed read gives []. Otherwise a row is returned if and only if it is a stored row of the user, and each is returned as many times as it is stored. |
| Achievements.AchievementTable.GetUserLevel | src/lib/achievementSystem.ts:307-315 | The points are the total of the rows the read returns. The level and next-level threshold are those LevelFor gives for those points: level = points div 100 + 1 and threshold 100 × level. A failed read gives level 1, 0 points, next level 100. |
| Achievements.AchievementTable.AwardAchievement | src/lib/achievementSystem.ts:270-291 | A refused insert returns nothing and changes nothing. Otherwise it appends the rule's row with the next id and returns it. |
| Achievements.AchievementTable.AwardRules | src/lib/achievementSystem.ts:128-135 | The loop appends exactly the rows of the awarded rules, in catalogue order, and returns them. |
| Achievements.AchievementTable.CheckAndAwardAchievements | src/lib/achievementSystem.ts:121-138 | Returns the rows for the catalogue rules awarded on the statistics of the logs and on the user's existing types. The table gains exactly those rows. |
| Achievements.SecondRunGrantsNothing | src/lib/achievementSystem.ts:121-138 | When the second run's read of the rows succeeds and it meets the same statistics and the same refused inserts, it awards nothing. |
| Achievements.LaterRunNeverRegrants | src/lib/achievementSystem.ts:121-138 | When a later run's read of the rows succeeds, it awards none of the rules the first run stored, whatever its statistics and refused inserts. |
| Achievements.AwardingNeverLowersLevel | src/lib/achievementSystem.ts:307-315 | An award run never lowers the user's points or level. |
| Achievements.NothingForEmptyHistory | src/lib/achievementSystem.ts:148-160 | A user with no logs earns no achievement. |
| AIService.DetectEmergency | src/lib/aiService.ts:46-49 | An emergency is detected if and only if some keyword occurs in the lower-cased text. |
| AIService.AnyOccurs | src/lib/aiService.ts:46-49 | True if and only if some keyword occurs in the text. |
| AIService.DetectEmergencyIgnoresCase | src/lib/aiService.ts:46-49 | Detection does not depend on the case of the text. |
| AIService.DetectEmergencyInContext | src/lib/aiService.ts:46-49 | A crisis phrase is still detected inside longer text. |
| AIService.KeywordsAreDetected | src/lib/aiService.ts:29-32 | Each of the nine keywords on its own is detected. |
| AIService.Category | src/lib/aiService.ts:116-120 | Support if and only if mood ≤ 3 or high stress. Celebrate if and only if mood ≥ 8 with low stress, otherwise. Encourage if and only if mood ≥ 6, otherwise. Neutral if and only if mood 4-5 without high stress. |
| AIService.GetResponsesByPersona | src/lib/aiService.ts:137-230 | Three candidate replies: the persona's table for a known persona and category, the therapist's neutral list otherwise. |
| AIService.GetFollowUpQuestions | src/lib/aiService.ts:265-290 | Three questions: the category's for a known category, the neutral ones otherwise. |
| AIService.ByStress | src/lib/aiService.ts:292-308 | High, medium and low select their own entries, and an unknown stress level falls back to the medium entry. |
| AIService.GetMeditationSuggestion | src/lib/aiService.ts:292-299 | An unknown stress level falls back to the medium suggestion. |
| AIService.GetBreathingExercise | src/lib/aiService.ts:301-308 | An unknown stress level falls back to the medium exercise. |
| AIService.TopStrategies | src/lib/aiService.ts:232-263 | Mood at most 4 or high stress gives the first three grounding strategies. Otherwise, medium stress or mood at most 7 gives the first three relaxation strategies. Mood above 7 with low stress gives the first three uplifting ones. Mood above 7 with an undeclared stress level gives none. |
| AIService.GetCopingStrategies | src/lib/aiService.ts:232-263 | Pushing the qualifying blocks and keeping three gives the first three strategies of the first qualifying block. |
| AIService.LocalResponse | src/lib/aiService.ts:113-135 | Not an emergency, with confidence 0.85. The reply is one of the persona's candidates for the category, and the persona is therapist when none is given. Follow-ups come from the category, the strategies are the top three for the mood and stress, and the meditation and breathing suggestions are those for the stress level. |
| AIService.FromWebhook | src/lib/aiService.ts:97-108 | A webhook reply is never an emergency. Its confidence is non-zero and defaults to 0.8. |
| AIService.ProcessAIRequest | src/lib/aiService.ts:52-78 | An emergency is reported if and only if the journal text holds a crisis keyword, and then the reply is the fixed emergency reply. Otherwise the reply is the webhook's when it answered, or else exactly the local reply, with confidence 0.85. |
| MoodLogsHook.HookCategory | src/hooks/useMoodLogs.ts:81-83 | "high" if and only if mood ≤ 4 or high stress. "low" if and only if mood ≥ 8 with low stress. "medium" otherwise. |
| MoodLogsHook.RepliesFor | src/hooks/useMoodLogs.ts:63-85 | Each category has three replies. |
| MoodLogsHook.GetAIResponse | src/hooks/useMoodLogs.ts:57-87 | The reply comes from its category's list: strained replies for low mood or high stress, calm ones for a good mood with low stress. |
| MoodLogsHook.CategoriesAgree | src/hooks/useMoodLogs.ts:81-83 | Compared with the AI service: support implies "high", and celebrate holds if and only if "low" does. They differ exactly at mood 4 without high stress. |
| MoodLogsHook.MoodLogs.constructor | src/hooks/useMoodLogs.ts:5-7 | The hook starts with no logs and loading. |
| MoodLogsHook.MoodLogs.FetchLogs | src/hooks/useMoodLogs.ts:15-29 | Without a user nothing changes. With one, the logs become the fetched list if any, and loading ends. |
| MoodLogsHook.MoodLogs.AddMoodLog | src/hooks/useMoodLogs.ts:31-55 | No user or a failed insert leaves the logs alone. A stored log carries the mood, stress, journal text and canned reply, and is prepended. |
| Analytics.HasEntryOn | src/components/AnalyticsView.tsx:63-66 | True if and only if some log falls on that calendar day. |
| Analytics.DisplayStreakUnique | src/components/AnalyticsView.tsx:55-76 | At most one count fits the display-streak description. |
| Analytics.CalculateStreak | src/components/AnalyticsView.tsx:55-76 | The streak days back from today all have logs, it is at most 30, and the day before it has no log unless the cap stopped it. No logs give 0. |
| Analytics.DisplayStreakMatchesCurrentStreak | src/components/AnalyticsView.tsx:55-76 | With no future logs, the display streak is the achievement engine's current streak capped at 30. |
| Analytics.StreakDaysPresent | src/components/AnalyticsView.tsx:61-73 | Every day of the current streak has a log. |
| Analytics.DayBeforeStreakAbsent | src/components/AnalyticsView.tsx:61-73 | With no future logs, the day before the current streak has none. |
| Analytics.DayLogs | src/components/AnalyticsView.tsx:21-24 | A log is kept if and only if it is written on that day, and each such log is kept as many times as it occurs, so the length is that day's log count. |
| Analytics.RoundedMean | src/components/AnalyticsView.tsx:32 | The result is a whole number of tenths. |
| Analytics.RoundedMeanNearMean | src/components/AnalyticsView.tsx:32 | The rounded mean lies within 0.05 of the exact mean: at most 0.05 above it and less than 0.05 below it. |
| Analytics.RoundedMeanInRange | src/components/AnalyticsView.tsx:32 | The mean rounded to one decimal stays on 1-10 when the moods do. |
| Analytics.PointFor | src/components/AnalyticsView.tsx:20-35 | A point carries its day and the number of that day's logs, and mood 0 when the day has no logs. |
| Analytics.ChartData | src/components/AnalyticsView.tsx:15-35 | Seven points for the seven days ending today, oldest first, each with the number of logs written that day. |
| Analytics.ChartMoodInRange | src/components/AnalyticsView.tsx:26-32 | A day with logs shows a mood on 1-10 when all moods are. |
| Analytics.ThisWeekLogs | src/components/AnalyticsView.tsx:37-42 | A log is kept if and only if it falls between the start and end of this week, and each such log is kept as many times as it occurs, so the length is this week's log count. |
| Analytics.CountStress | src/components/AnalyticsView.tsx:45-47 | A stress count is at most the number of logs. |
| Analytics.CountStressCounts | src/components/AnalyticsView.tsx:45-47 | The count equals the number of positions whose log has that stress level, the length of the filtered array. |
| Analytics.StressData | src/components/AnalyticsView.tsx:44-48 | Three bars in the order Low, Medium, High, each with its colour and the count of logs whose level is "low", "medium" or "high"; together at most three times the logs. |
| Analytics.StressCountsCoverAll | src/components/AnalyticsView.tsx:44-48 | When every log has a declared stress level, the three bars add up to the number of logs. |
| Analytics.BestMood | src/components/AnalyticsView.tsx:53 | The best mood is a mood that occurs and is at least every mood, and 0 without logs. |
| Analytics.AvgMoodInRange | src/components/AnalyticsView.tsx:51 | The displayed mean lies on 1-10 when every mood does. |
| Analytics.AvgMood | src/components/AnalyticsView.tsx:51 | 0 without logs; otherwise within 0.05 of the exact mean mood. |
| Journal.DateMatch | src/components/JournalView.tsx:29-36 | "All" matches every date. "Week" matches if and only if the log lies between the start of this week and now, that is, on or after this week's Sunday and not after now. "Month" matches if and only if the log's calendar year and month are now's. A log written earlier on the current day matches every filter. |
| Journal.MonthFilterIsCalendarMonth | src/components/JournalView.tsx:34-35 | With now on a date of month m of year y, the month filter keeps a log if and only if it was written on one of that month's dates. |
| Journal.SearchMatch | src/components/JournalView.tsx:38-40 | The empty term matches every log; a non-empty term matches only a log with journal text or a reply. |
| Journal.Keep | src/components/JournalView.tsx:27-43 | A kept log has journal text or a reply; under "all" with an empty term, exactly those logs are kept. |
| Journal.FilteredLogs | src/components/JournalView.tsx:27-43 | A log is kept if and only if it matches the date filter and the search, and has journal text or a reply. |
| Journal.FilteredLogsCounts | src/components/JournalView.tsx:27-43 | Each kept log appears as many times as in the logs, and no other log appears. |
| Journal.FilteredIsSubsequence | src/components/JournalView.tsx:27-43 | The filter keeps logs in their order. |
| Journal.EmptySearchKeepsAllWithText | src/components/JournalView.tsx:38-42 | An empty search under "all" keeps exactly the logs with some text. |
| Journal.SearchIgnoresCase | src/components/JournalView.tsx:38-40 | The search ignores the case of the term. |
| Journal.AllIgnoresDate | src/components/JournalView.tsx:31-36 | Under "all" the result does not depend on the clock. |
| Meditation.Ticked | src/components/MeditationView.tsx:84-99 | A paused timer is unchanged, a running one with time left loses a second, and the time left never goes negative. |
| Meditation.RunningTimerEnds | src/components/MeditationView.tsx:84-99 | A running timer with `s` seconds reaches 0 after `s` ticks, and the next tick stops it and asks for the mood after. |
| Meditation.PausedTimerStays | src/components/MeditationView.tsx:84-99 | A paused timer never moves. |
| Meditation.MeditationTimer.constructor | src/components/MeditationView.tsx:10-15 | Nothing selected, stopped at 0, both moods 5, no mood-after prompt. |
| Meditation.MeditationTimer.SelectSession | src/components/MeditationView.tsx:182-185 | Selects the session and resets the mood before to 5. |
| Meditation.MeditationTimer.Deselect | src/components/MeditationView.tsx:290 | Clears the selection and nothing else. |
| Meditation.MeditationTimer.StartSession | src/components/MeditationView.tsx:101-106 | Runs the timer for the whole duration in seconds, with no mood-after prompt. |
| Meditation.MeditationTimer.PauseSession | src/components/MeditationView.tsx:108-110 | Toggles running and paused, and nothing else. |
| Meditation.MeditationTimer.ResetSession | src/components/MeditationView.tsx:112-116 | Stops the timer at the selected session's full duration, or at 0 with nothing selected. |
| Meditation.MeditationTimer.Tick | src/components/MeditationView.tsx:84-99 | One tick changes the timer as the tick specification says, and nothing else. |
| Meditation.MeditationTimer.SetMoodBefore | src/components/MeditationView.tsx:252-256 | Sets the mood before, on 1-10. |
| Meditation.MeditationTimer.SetMoodAfter | src/components/MeditationView.tsx:419-423 | Sets the mood after, on 1-10. |
| Meditation.MeditationTimer.CompleteSession | src/components/MeditationView.tsx:124-135 | Records the session id, duration and both moods, then clears the selection and the prompt. |
| Meditation.MoodGain | src/components/MeditationView.tsx:432-441 | The improvement note appears if and only if the mood after is higher, and shows the gain. |
| Meditation.TwoDigits | src/components/MeditationView.tsx:121 | Exactly two digits that read back as the seconds. |
| Meditation.FormatTime | src/components/MeditationView.tsx:118-122 | Digits, a colon, then two digits. |
| Meditation.FormatTimeRoundTrip | src/components/MeditationView.tsx:118-122 | Reading `m:ss` back gives the seconds, and the seconds field is below 60. |
| Emergency.Without | src/components/EmergencyView.tsx:90 | Keeps exactly the entries different from the removed contact. |
| Emergency.WithoutAbsent | src/components/EmergencyView.tsx:89-91 | Removing an absent contact changes nothing. |
| Emergency.WithoutPresent | src/components/EmergencyView.tsx:89-91 | In a list without duplicates, removal takes out exactly that position and keeps the rest in order. |
| Emergency.WithoutKeepsDistinct | src/components/EmergencyView.tsx:89-91 | Removal keeps a list free of duplicates. |
| Emergency.ContactList.constructor | src/components/EmergencyView.tsx:10-11 | No contacts and an empty input. |
| Emergency.ContactList.SetNewContact | src/components/EmergencyView.tsx:240 | Replaces the input, keeps the list. |
| Emergency.ContactList.AddEmergencyContact | src/components/EmergencyView.tsx:82-87 | Appends the trimmed input and clears it when it is non-blank and new, and otherwise changes nothing. The list stays duplicate-free, non-blank and trimmed. |
| Emergency.ContactList.RemoveContact | src/components/EmergencyView.tsx:89-91 | Removes that contact, and the list stays valid. |
| Notification.PaddingLength | src/lib/notificationService.ts:72 | At most three "=", bringing the length to a multiple of 4, and none when it already is one. |
| Notification.Repeat | src/lib/notificationService.ts:72 | `n` copies of the character. |
| Notification.Padded | src/lib/notificationService.ts:72-73 | The key followed by only "=", with a length that is a multiple of 4, at most 3 longer. |
| Notification.PaddedIdempotent | src/lib/notificationService.ts:72-73 | Padding a padded string adds nothing. |
| Notification.ToStandardAlphabet | src/lib/notificationService.ts:73-75 | Same length. "-" becomes "+", "_" becomes "/", and every other character is kept. |
| Notification.StandardHasNoUrlChars | src/lib/notificationService.ts:73-75 | The result holds no "-" or "_". |
| Notification.AlphabetRoundTrip | src/lib/notificationService.ts:73-75 | For a base64url string, mapping back to the URL alphabet restores it. |
| Notification.DecoderInput | src/lib/notificationService.ts:71-76 | The decoder's input is a multiple of 4 long, at most 3 longer than the key, and ends in "=" only. Its leading part is the key in the standard alphabet, and it contains no "-" or "_". |
| Notification.ToStandardAppend | src/lib/notificationService.ts:73-75 | The alphabet change works character by character, so it distributes over concatenation. |
| Notification.CopyToBytes | src/lib/notificationService.ts:77-83 | A new array as long as the decoded string, where element `i` is character `i`'s code modulo 256, and the exact code for Latin-1 characters. |
| Notification.AchievementBody | src/lib/notificationService.ts:112-117 | The icon, a space, the title, ": " and the description, in that order, each at its stated position. |
| Notification.GetNotificationSettings | src/lib/notificationService.ts:148-163 | The stored settings if any. Otherwise daily reminders, weekly reports and achievement alerts on, no contacts, reminder at "09:00", push off. |

## Left out

- Database I/O: every Supabase query and insert becomes a parameter or a class field:
  - logs passed in;
  - `refused` rule ids whose insert fails;
  - `readFails`;
  - the hook's fetched list and stored row;
  - the stored settings.
- Clock and calendar:
  - `new Date()` becomes a parameter `now` in UTC milliseconds, and a calendar day is `t / 86400000`.
  - Time zones and daylight saving are not modelled.
  - Date strings are not modelled, so `toDateString` comparisons become day-number comparisons.
  - The week starts on Sunday, as in the date library's default.
- Floating point:
  - Means and ratios are exact reals.
  - `Math.round(x * 10) / 10` is computed exactly.
  - The rounding error of binary floating point is not modelled.
- Randomness: `Math.random` in `selectRandomResponse` and in the hook's reply draw becomes the parameter `pick`.
- The webhook call (`callN8nWebhook`):
  - The HTTP request and its failure become `Option<WebhookData>`.
  - `encrypt`/`decrypt` (CryptoJS) and `saveConversation`/`getConversationHistory` are storage and library calls and are not modelled.
- `getDefaultResponse` is reached only when an exception escapes `processAIRequest`. The typed model raises none, so the reply is not modelled.
- JavaScript object-key lookups: keys such as `constructor` or `__proto__` that hit the object prototype are not modelled. Only the declared personas, categories and stress levels are looked up.
- `toLowerCase` is modelled for ASCII letters only; Unicode case mapping is not modelled.
- `window.atob` is a library call. `CopyToBytes` starts from its output, and the base64 decoding itself is not modelled.
- Browser notification side effects are not modelled:
  - service-worker registration;
  - permission requests;
  - push subscription;
  - `setTimeout` scheduling of notifications;
  - the daily-reminder delay and the weekly-report text;
  - `public/sw.js`.
- Presentation is not modelled:
  - chart date labels;
  - meditation icons, colours and instructions;
  - crisis-resource lists;
  - the markup of every view.
- Concurrency: two tabs awarding at once, and React's batching of state updates, are not modelled. Each handler is one atomic step.
- Achievements.AchievementTable.AwardAchievement: insert failure is modelled per rule id (`refused`), not per call.
- Achievements.AwardingIsIdempotent: stated only for a second run with the same statistics and refused inserts; Achievements.AwardedNeverRegranted states the general case.
- Achievements.SecondRunGrantsNothing: holds only when the second run's read succeeds; with a failed read the held rules are awarded again, as Achievements.FailedReadRegrants states.
- Analytics.CountStress: its own contract gives only the bound; the exact count is stated by Analytics.CountStressCounts.
- JournalCount: its own contract gives only the bound; the exact count is stated by Statistics.JournalCountCounts.
- AiCount: its own contract gives only the bound; the exact count is stated by Statistics.AiCountCounts.
- Journal.FilteredLogs: its own contract states membership; the multiplicity of each kept log is stated by Journal.FilteredLogsCounts.
- UserRows: its own contract states membership; the multiplicity of each row is stated by Achievements.UserRowsCounts.
- Analytics.RoundedMean: its own contract states only that the result is a whole number of tenths; the distance to the exact mean is stated by Analytics.RoundedMeanNearMean.
- UserRows, UserAchievements, DayLogs, ThisWeekLogs: the contracts fix which logs are kept and how often, not their order.
- Analytics.DisplayStreakMatchesCurrentStreak: requires that no log is dated after today. A future-dated log breaks the equivalence in the source as well.
