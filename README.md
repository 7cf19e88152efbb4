# Verified model of the tutoring app's bookkeeping core

The tutoring app is a Streamlit application. Around its language-model calls it keeps a
set of small, deterministic records. This project models those records in Dafny and
proves what the Python code promises about them:

- **Flashcards** (`Flashcards`): the SM-2 variant that reschedules a card from a recall
  quality, the due-card query with its limit, the statistics, and the initial state of
  generated cards.
- **Achievements** (`Achievements`): the fixed catalogue, the unlock step, the checks of
  `check_achievements`, the level function and the unlocked/locked overview.
- **Progress record** (`ProgressTracker`): the fresh record, `update_progress`, and the
  difficulty-label fallback.
- **Study plans** (`StudyPlans`): the default plan, the dating of generated plans, saving
  into the plan map, `mark_day_complete` and the active-plan listing.
- **Exercises** (`Exercises`): answer checking per exercise type, the fallback exercise,
  quiz numbering, and the attempt log capped at 100 entries.
- **Utilities** (`Utils`): `clean_text`, `calculate_streak`, `format_time_ago`,
  `validate_student_id`, `chunk_text` and `sanitize_filename`.
- **Analytics** (`Analytics`): the 30-day and 4-week activity, the topic ranking, the
  difficulty metrics, peak hours and study pattern, the streak of the overview, and the
  recommendation rules.
- **Export** (`Export`): the text exports of the conversation history and of the progress
  report, the report summary, and the format fallback.

Shared building blocks:

- `Wrappers` holds `Option`.
- `Seqs` holds filters, a stable descending sort, `Take`/`KeepLast`, `Flatten` and `Reverse`.
- `Text` holds Python's whitespace set, strip, ASCII lower-casing, substring search,
  integer printing, join and `split()`.
- `Dict` is an insertion-ordered association list, which models a Python `dict` where its
  order is observable.

State that the source changes in place is a class field, changed by methods with
`modifies` clauses:

- `FlashcardSystem.cards`
- `AchievementSystem.data`
- `StudentProgressTracker.progress`
- `StudyPlanGenerator.plans`
- `ExerciseGenerator.attempts`

The loops of the source are methods with loop invariants. Each one is proved equal to a
specification function, and the properties are proved as lemmas about those functions.

Time is modelled as whole numbers:

- Flashcard times are seconds on one clock.
- Analytics, streak and plan dates are day numbers, and analytics hours run from 0 to 23.
- `format_time_ago` takes the elapsed seconds.
- "Now" and "today" are parameters.
- A date string that does not parse is `None` (or `Unparsed`).

## Model

| member | source | states |
|---|---|---|
| Flashcards.Trunc | flashcards.py:146 | `int()` of a float truncates toward zero: within one of `x`, on the side of zero |
| Flashcards.NewEase | flashcards.py:133 | the new ease factor is at least 1.3 and at least the old ease plus the quality adjustment, and it is one of the two: the floor 1.3 or the adjusted ease |
| Flashcards.Review | flashcards.py:127-156 | after a review: the ease is the floored adjustment of the old ease by the quality (so >= 1.3); quality < 3 resets to 0 repetitions and a 1-day interval; quality >= 3 adds exactly one repetition, giving interval 1 after 0 repetitions and 6 after 1; mastered iff repetitions >= 5 and interval >= 30; next review = now + interval days; id, front, back, topic, subtopic and creation time unchanged |
| Flashcards.ReviewGrowsInterval | flashcards.py:145-146 | from the third successful review on, the interval is the truncated product of the old interval and the new ease |
| Flashcards.EaseDeltaByQuality | flashcards.py:133 | the adjustment per quality 5..0 is +0.1, 0, -0.14, -0.32, -0.54, -0.8 |
| Flashcards.EaseTopQualities | flashcards.py:133 | quality 5 adds 0.1 to the ease factor; quality 4 leaves an ease of at least 1.3 unchanged |
| Flashcards.EaseMonotoneInQuality | flashcards.py:133 | for qualities 0..5, a better recall never gives a lower ease factor |
| Flashcards.ReviewKeepsScheduled | flashcards.py:127-156 | a review keeps ease >= 1.3, interval >= 1 and repetitions >= 0 |
| Flashcards.SuccessNeverShrinksInterval | flashcards.py:140-148 | from the third successful review on, the interval never shrinks |
| Flashcards.MasteredOnlyAfterSuccess | flashcards.py:135-156 | a card mastered after a review was recalled at quality >= 3 and had at least 4 repetitions before |
| Flashcards.ReviewScenarios | flashcards.py:127-156 | a new card recalled twice at quality 5 gets intervals 1 then 6 and ease 2.6; a card at 4 repetitions forgotten at quality 2 is reset and not mastered |
| Flashcards.FindCard | flashcards.py:123-125 | returns the index of the first card with the id, or None when no card has it |
| Flashcards.DueCardsSound | flashcards.py:93-116 | due cards are cards of the list, never mastered, with no usable next review or one that has passed; at most `limit` of them, or at most one when `limit` < 1 |
| Flashcards.DueCardsIsPrefix | flashcards.py:98-114 | with `limit` >= 1, the result is a prefix of all due cards in list order, and is all of them when there are at most `limit` |
| Flashcards.DueCardsStopAt | flashcards.py:113-114 | where the walk breaks at the limit, the cards collected so far are the answer |
| Flashcards.DueCardsRunOut | flashcards.py:98-116 | where the walk reaches the end of the list, the cards collected are the answer |
| Flashcards.StatisticsConsistent | flashcards.py:160-172 | mastered + due <= total, in-progress >= 0, mastery percentage in [0, 100]; with at most 1000 cards the due count is the number of due cards |
| Flashcards.NewCard | flashcards.py:63-76 | a generated card starts at interval 1, ease 2.5, 0 repetitions, not mastered |
| Flashcards.NewCardIsDue | flashcards.py:63-76 | a generated card is due at once |
| Flashcards.FlashcardSystem.constructor | flashcards.py:13-25 | the stored cards, or no cards when nothing is stored |
| Flashcards.FlashcardSystem.ReviewCard | flashcards.py:118-158 | an unknown id leaves the cards unchanged; otherwise only the first card with the id is replaced by its review |
| Flashcards.FlashcardSystem.GetDueCards | flashcards.py:93-116 | the loop returns exactly the due-card function's result |
| Flashcards.FlashcardSystem.AddGenerated | flashcards.py:60-78 | one fresh card per draft, appended at the end in draft order |
| Achievements.PointsOfCatalogue | achievements.py:11-84 | an id has a catalogue entry exactly when it is one of the declared ids, and it earns points (> 0) on unlock exactly then |
| Achievements.Level | achievements.py:170-184 | the level is at least 1 |
| Achievements.LevelRanges | achievements.py:170-184 | levels 1 to 5 are exactly the point ranges below 100, 100-299, 300-599, 600-999 and 1000-1499; every level n >= 6 is exactly the range 1500 + 500(n-6) to 1999 + 500(n-6), so level 6 is 1500-1999 |
| Achievements.LevelMonotone | achievements.py:170-184 | more points never give a lower level |
| Achievements.InitialValid | achievements.py:100-105 | the initial record has no duplicate ids, points equal to the sum of its ids' points, and the level of its points |
| Achievements.AfterUnlockProperties | achievements.py:150-158 | unlocking twice equals unlocking once; the id is unlocked afterwards; unlocked ids and points never shrink; validity (no duplicates, points = sum, level = Level(points)) is preserved |
| Achievements.Rules | achievements.py:122-143 | there are seven checks; the definition lists them, id and condition, in source order |
| Achievements.ApplyShape | achievements.py:118-148 | the checks append exactly the newly unlocked ids and add exactly their points; when nothing is unlocked the record is unchanged |
| Achievements.ApplyValid | achievements.py:118-148 | the checks keep a valid record valid |
| Achievements.ApplyUnlocks | achievements.py:118-148 | afterwards an id is unlocked iff it was unlocked before or its condition held |
| Achievements.ApplySettled | achievements.py:118-148 | when every met condition's id is already unlocked, nothing changes and nothing is reported |
| Achievements.CheckIdempotent | achievements.py:118-148 | a second check with the same progress changes nothing and reports nothing |
| Achievements.CheckConditions | achievements.py:123-146 | an id ends up unlocked iff it was already unlocked or its condition held: questions >= 1/10/50/100, topics >= 5/10, Advanced >= 10; the streak, quiz and flashcard ids are never unlocked here |
| Achievements.AllAchievementsLocked | achievements.py:196-203 | the locked list is the catalogue without the unlocked ids, in catalogue order |
| Achievements.AllAchievementsSplit | achievements.py:186-206 | each catalogue id is on the unlocked list iff unlocked, and on the locked list iff not |
| Achievements.AchievementSystem.constructor | achievements.py:86-105 | the stored record, or the initial one |
| Achievements.AchievementSystem.Unlock | achievements.py:150-168 | an already unlocked id gives None and no change; otherwise the id is appended, its points added, the level recomputed and the entry reported |
| Achievements.AchievementSystem.CheckAchievements | achievements.py:118-148 | the record after the seven checks, and the entries for the ids they unlock, in order |
| Achievements.AchievementSystem.CheckQuestionCounts | achievements.py:122-131 | the four question-count checks carry the record and the report past the first four checks |
| Achievements.AchievementSystem.CheckTopicCounts | achievements.py:133-138 | the two topic-count checks carry the record and the report past the fifth and sixth checks |
| Achievements.AchievementSystem.Check | achievements.py:124-143 | one check (unlock when the condition holds and the id is new, reporting the entry) carries the record and the report past exactly that check, so the outcome of all seven checks is unchanged |
| ProgressTracker.Label | progress_tracker.py:129 | each difficulty's label reads back as that difficulty |
| ProgressTracker.Normalize | progress_tracker.py:138-139 | any name other than "Intermediate" or "Advanced" counts as Basic; a name is kept iff it is one of the three labels |
| ProgressTracker.AnalyzeDifficulty | progress_tracker.py:127-133 | the label is always Basic, Intermediate or Advanced; Basic when the reply is unusable; the stripped reply exactly when it is one of the three labels, Basic otherwise |
| ProgressTracker.Buckets.Bump | progress_tracker.py:150 | exactly one bucket goes up by 1, and the total goes up by 1 |
| ProgressTracker.FreshRecord | progress_tracker.py:19-26 | the given student id and time, zero questions, no topics, all three buckets 0 |
| ProgressTracker.AddSubtopicKeepsList | progress_tracker.py:147-148 | the subtopic list stays duplicate-free and keeps its order; the subtopic is present afterwards iff it is non-empty or was already there |
| ProgressTracker.UpdatedEffect | progress_tracker.py:136-150 | one more question; the topic is a key afterwards; other topics' subtopics are unchanged; exactly the normalised bucket goes up by 1 |
| ProgressTracker.FreshRecordConsistent | progress_tracker.py:19-26 | the fresh record is consistent (distinct topics, duplicate-free subtopics, buckets summing to the question count) |
| ProgressTracker.UpdatedConsistent | progress_tracker.py:136-150 | updates keep a record consistent, so from the fresh record the buckets always sum to the number of questions |
| ProgressTracker.CoverTopic | progress_tracker.py:143-147 | inserting an empty list for a new topic and then appending a new non-empty subtopic is one write of the topic's updated list |
| ProgressTracker.StudentProgressTracker.constructor | progress_tracker.py:10-26 | the stored record, or the fresh one |
| ProgressTracker.StudentProgressTracker.UpdateProgress | progress_tracker.py:136-152 | the in-place update yields exactly the updated record |
| StudyPlans.DefaultPlanShape | study_plans.py:71-97 | one entry per day; entry i has day i+1, date start+i and the daily hours; nothing completed, progress 0, so the plan is active |
| StudyPlans.Generated | study_plans.py:51-60 | generated entry i is dated start+i; completed days empty, progress 0, creation time now; topic, duration and id kept |
| StudyPlans.SavedProperties | study_plans.py:99-105 | the plan keeps its id, or gets a fresh one; it is stored under that key carrying the id; every other key is unchanged; distinct keys stay distinct |
| StudyPlans.CompleteDay | study_plans.py:140-144 | the day is appended, and progress = completed days / duration |
| StudyPlans.MarkDay | study_plans.py:135-145 | an unknown plan id, or a day already complete, changes nothing; it fails (division by zero) iff a new day is marked on a plan of duration 0 |
| StudyPlans.SavedKeyed | study_plans.py:99-105 | saving keeps every stored plan carrying its own key as its id |
| StudyPlans.MarkDayKeyed | study_plans.py:135-145 | marking a day keeps every stored plan carrying its own key as its id |
| StudyPlans.MarkDayIdempotent | study_plans.py:135-145 | in a store whose plans carry their keys as ids, marking the same day a second time changes nothing, whatever fresh id either call would draw |
| StudyPlans.MarkDayUnkeyedCopies | study_plans.py:103-105 | a stored plan without an id is saved as a copy under the fresh id while its own entry keeps the day unmarked, so a second call adds another copy |
| StudyPlans.MarkDayAppends | study_plans.py:140-145 | a new day is appended and the plan saved with progress = count / duration; completed days stay duplicate-free |
| StudyPlans.ProgressCanPassOne | study_plans.py:141-144 | days are not range-checked: marking a second day on a one-day plan gives progress 2 |
| StudyPlans.ActivePlansOf | study_plans.py:124-133 | the result is sorted newest first and is a permutation of the plans with progress below 1 |
| StudyPlans.ActivePlansExactly | study_plans.py:124-133 | a plan is listed iff it is stored and active; plans with the same creation time keep map order |
| StudyPlans.StudyPlanGenerator.constructor | study_plans.py:13-14 | the stored plan map |
| StudyPlans.StudyPlanGenerator.GenerateStudyPlan | study_plans.py:45-69 | a reply is dated, stamped and saved; without a reply, the default plan is returned and nothing is saved |
| StudyPlans.StudyPlanGenerator.DefaultPlan | study_plans.py:71-97 | the loop builds exactly the default plan |
| StudyPlans.StudyPlanGenerator.SavePlan | study_plans.py:99-105 | the plan map after the save, and the plan carrying its id; a store whose plans carry their keys stays so |
| StudyPlans.StudyPlanGenerator.MarkDayComplete | study_plans.py:135-145 | the plan map after marking; false, with no change, where the source raises; a store whose plans carry their keys stays so |
| StudyPlans.StudyPlanGenerator.GetActivePlans | study_plans.py:124-133 | the loop and sort return exactly the active-plan listing |
| Exercises.DefaultExercise | exercises.py:65-76 | four options and correct answer 0, with the requested type, topic, subtopic and difficulty |
| Exercises.GenerateExercise | exercises.py:50-63 | a reply keeps its question, options and answer and has type, topic, subtopic and difficulty overwritten; no reply gives the default exercise |
| Exercises.AnyKeyword | exercises.py:95-97 | true iff some lower-cased keyword is a substring of the answer |
| Exercises.CheckAnswer | exercises.py:87-109 | a missing type counts as multiple choice; multiple choice is correct iff the answer equals the stored one; short answer is correct iff some lower-cased keyword is in the lower-cased answer; coding and unknown types are never correct; the shown answer is the stored answer for multiple choice and the keyword list otherwise; explanation defaults to "" |
| Exercises.ShortAnswerEdgeCases | exercises.py:93-97 | no keywords means incorrect; an empty keyword accepts any answer |
| Exercises.DefaultExerciseAnswer | exercises.py:65-76 | the default exercise accepts exactly option 0 |
| Exercises.Logged | exercises.py:133-137 | the log length after an append is min(old length + 1, 100) |
| Exercises.LoggedKeepsRecent | exercises.py:133-137 | the new attempt is last; at most 100 entries; the kept entries are the most recent ones in their original order; nothing is dropped below 100 |
| Exercises.ExerciseGenerator.constructor | exercises.py:13-14 | the stored attempt log |
| Exercises.ExerciseGenerator.CheckAndRecord | exercises.py:87-114 | the check result, and the log with that attempt recorded |
| Exercises.ExerciseGenerator.SaveQuizAttempt | exercises.py:116-137 | append, then keep the last 100 |
| Exercises.ExerciseGenerator.GenerateQuiz | exercises.py:78-85 | exactly n (or 0 when n <= 0) multiple-choice exercises, numbered 1..n in order |
| Utils.CollapseProperties | utils.py:13 | after collapsing, no whitespace is left except single spaces, and every character is a space or comes from the input |
| Utils.TrimCollapsed | utils.py:13 | trimming the ends of a collapsed string leaves it collapsed |
| Utils.CleanText | utils.py:8-16 | "" for empty input, and the result never contains NUL |
| Utils.CleanTextShape | utils.py:8-16 | for input without NUL: no leading or trailing whitespace, and no whitespace except single spaces |
| Utils.CleanTextWords | utils.py:8-16 | cleaning is the `str.split()` words joined by single spaces with NUL then removed; on text without NUL the cleaned text has the same words |
| Utils.StripCollapse | utils.py:13 | collapsing whitespace runs and stripping the ends gives the words joined by single spaces |
| Utils.CleanTextNulFirst | utils.py:13-15 | stripping happens before NUL removal, so "\0 a" becomes " a" |
| Utils.Max | utils.py:45-47 | the latest day is in the list and not below any other |
| Utils.StreakUnique | utils.py:46-57 | a list of days has at most one streak ending at a given day |
| Utils.StreakBound | utils.py:46-57 | a streak is at most the number of distinct days |
| Utils.StreakResult | utils.py:46-57 | a scan that stops at the first gap below the latest day has found the streak |
| Utils.StreakScanEnd | utils.py:49-57 | the scan stops only where the day before the current one is absent |
| Utils.StreakOf | utils.py:45-59 | sort and scan return the number of consecutive days back from the latest one, with same-day duplicates skipped |
| Utils.RunLength | utils.py:46-57 | the counted run never exceeds its bound |
| Utils.RunLengthRun | utils.py:46-57 | every day of the counted run back from the latest day occurs; when the run stops below the bound, the day before it is absent |
| Utils.DistinctAtMostLength | utils.py:45 | a list has no more distinct days than entries |
| Utils.StreakMeaning | utils.py:39-61 | 0 for an empty list and 0 when any date fails to parse; otherwise the streak back from the latest day, between 1 and the number of distinct days |
| Utils.CalculateStreak | utils.py:39-61 | the parse, sort and scan return exactly the streak function's value |
| Utils.TimeAgoOf | utils.py:63-83 | the first matching bucket, each one iff its condition: days > 365 years, > 30 months, > 0 days, seconds > 3600 hours, > 60 minutes, otherwise just now; the count is days // 365, days // 30, days, seconds // 3600 or seconds // 60 respectively, always >= 1 |
| Utils.PluralExactlyAboveOne | utils.py:63-83 | the "s" suffix appears iff the count is above 1 |
| Utils.RecentPhrases | utils.py:76-83 | under a day: up to 60 s "just now", then minutes, then hours |
| Utils.OneSecondAhead | utils.py:63-78 | a time one second in the future reads "23 hours ago" |
| Utils.IdRun | utils.py:93 | the length of the leading run of `[A-Za-z0-9_-]` characters |
| Utils.ValidateStudentId | utils.py:89-93 | false below length 3; otherwise true iff every character is in `[A-Za-z0-9_-]`, or all but a final "\n" are |
| Utils.StudentIdExamples | utils.py:89-93 | "ab_-9" and "abc\n" pass; "ab", "a b" and "ab\nc" fail |
| Utils.FlushKeepsInvariant | utils.py:103-106 | starting a new chunk keeps the chunking invariant |
| Utils.AppendKeepsInvariant | utils.py:107-109 | extending the current chunk keeps the chunking invariant |
| Utils.ChunkedInvariant | utils.py:102-109 | the chunking invariant holds after every word |
| Utils.ChunkGroupsProperties | utils.py:95-114 | the groups, read in order, give back the words; groups of two or more words fit the size; only the first group can be empty |
| Utils.ChunkTextProperties | utils.py:95-114 | the chunks' words, read in order, equal `text.split()`; chunks of two or more words have length <= size; only chunk 0 can be "", and it is "" iff the first word's length is >= size; no words gives no chunks |
| Utils.ChunkText | utils.py:95-114 | the loop returns exactly the chunking function's result |
| Utils.ReplaceForbidden | utils.py:119 | each of `<>:"/\|?*` becomes '_', and every other character is kept; the result holds none of them, and a name without them is unchanged |
| Utils.SanitizeFilenameProperties | utils.py:116-122 | at most 255 characters, none of `<>:"/\|?*`, and no leading '.' or ' ' |
| Utils.SanitizeFilenameTrailingDot | utils.py:121-122 | 254 'a' followed by ".b" sanitises to a name ending in '.' |
| Utils.SanitizeFilenameFixed | utils.py:116-122 | at most 255 characters, no forbidden character, and no '.' or ' ' at either end |
| Utils.SanitizeFilenameFixedAgrees | utils.py:116-122 | equals the original whenever the stripped name already fits in 255 characters; idempotent |
| Analytics.TallyCounts | analytics.py:72-78 | the tally has distinct keys; each key's count is its number of occurrences; a key is present iff it occurs |
| Analytics.CountInTile | analytics.py:95-103 | counts over adjacent day ranges add up |
| Analytics.SumKeysInTally | analytics.py:99 | summing the tally over the keys in a range counts the days in that range |
| Analytics.PeriodTotalTally | analytics.py:218-221 | summing the tally over a range of hours counts the hours in that range |
| Analytics.TallyDays | analytics.py:72-80 | the per-day tally of the conversations whose stamp parses; others skipped |
| Analytics.LearningTrends | analytics.py:66-111 | no conversations gives the empty result; otherwise 30 daily entries, oldest first and ending today, each with that day's count; 4 weekly entries, oldest first, week i covering [today-(i+1)*7, today-i*7); the trend is "increasing" iff the last day's count exceeds the first |
| Analytics.DailyActivity | analytics.py:83-92 | 30 entries, oldest first, each with that day's count |
| Analytics.LastThirtyDays | analytics.py:85-90 | entry j is today minus j days with its count |
| Analytics.WeeklyActivity | analytics.py:95-105 | 4 entries, oldest first, with the counts of the four weeks before today |
| Analytics.WeekCount | analytics.py:99 | the sum of the tally over the week's days |
| Analytics.WeeksCoverMonth | analytics.py:95-105 | the four weeks together count exactly the 28 days before today; today's own count lies outside them |
| Analytics.QuestionsAbout | analytics.py:120-121 | the count of conversations about a topic is at most the number of conversations |
| Analytics.QuestionsAboutFilter | analytics.py:120-121 | the count equals the length of the list of conversations whose topic equals the topic or whose lower-cased question contains it |
| Analytics.CountQuestions | analytics.py:120-121 | the loop counts exactly the conversations about the topic |
| Analytics.GetTopicAnalysis | analytics.py:113-137 | the entries sorted by question count, descending; most studied is the first entry, or None; the total is the number of topics |
| Analytics.TopicRanking | analytics.py:117-136 | the ranking is a permutation of the entries, non-increasing in question count, stable for equal counts, and starts with a maximum |
| Analytics.PerformanceMetrics | analytics.py:139-163 | zero total gives "N/A" and 0; otherwise mastery <= 100, and the label is Advanced iff average > 2.5, Intermediate iff 1.5 < average <= 2.5, Basic otherwise |
| Analytics.AverageAbove | analytics.py:160 | w/t > p/q iff q*w > p*t, for positive t and q |
| Analytics.AverageBelow | analytics.py:157 | w/t < p/q iff q*w < p*t, for positive t and q |
| Analytics.MasteryProportional | analytics.py:154-157 | with non-negative buckets, mastery = 100 * weighted sum / (3 * total), which lies between 100/3 and 100 |
| Analytics.TallyHours | analytics.py:199-208 | the per-hour tally of the conversations whose stamp parses |
| Analytics.Pattern | analytics.py:223-231 | each pattern iff its period has the maximum, with ties broken in the order Morning, Afternoon, Evening, Night |
| Analytics.GetTimeAnalysis | analytics.py:194-237 | "No data" iff no stamp parses; otherwise the hour tally, the peak hours and the pattern of the four periods' counts |
| Analytics.TallyEmpty | analytics.py:210-211 | the tally is empty iff there are no hours |
| Analytics.TallyItem | analytics.py:214 | every tally entry is an hour that occurs, with its number of occurrences |
| Analytics.SortedTally | analytics.py:214 | the sorted tally is non-increasing in count, holds every hour once, with its number of occurrences |
| Analytics.PeakHoursOrdered | analytics.py:213-215 | at most 3 peak hours, each one occurring, in non-increasing count order; all hours when there are fewer than 3 |
| Analytics.PeakHoursDominate | analytics.py:213-215 | an hour left out of the peak hours occurs no more often than any peak hour |
| Analytics.GetOverviewStats | analytics.py:48-64 | the streak of the conversations' timestamps, the record's question and topic counts and buckets, and the time-ago phrase of the last activity |
| Analytics.FiredRules | analytics.py:243-261 | each rule fires iff its threshold holds (questions < 5; no Advanced and questions > 10; topics < 3; streak < 3; streak >= 7, naming the streak); at most 4 fire, none is the encouragement, and none fires exactly when all thresholds fail |
| Analytics.AdviceRules | analytics.py:239-266 | never empty and at most 4 entries; each recommendation is present iff its threshold holds (questions < 5; no Advanced and questions > 10; topics < 3; streak < 3; streak >= 7, naming the streak); the encouragement appears iff no rule fires, and then alone |
| Analytics.GenerateRecommendations | analytics.py:239-266 | the method returns exactly the messages of the rules applied to the record and the streak |
| Export.HistoryLinesShape | export.py:24-40 | the history text has 4 header lines, then exactly 7 lines per conversation, starting "Conversation i" with i from 1 in input order, with defaults "Unknown", "General", "" and "" |
| Export.ExportConversationHistory | export.py:18-42 | a format that lower-cases to "txt" gives the joined history lines; "json" and every other format give the conversations as JSON |
| Export.ReportOf | export.py:44-60 | the summary takes the question and topic counts from the record, and the streak and mastery level from the analytics; mastery <= 100 |
| Export.ReportLinesShape | export.py:64-93 | 17 + topics + recommendations lines; the title and generated lines; all four summary lines (questions, topics explored, streak in days, mastery level in percent); one topic line per topic, "topic: None" for an empty list; "RECOMMENDATIONS", then one "- rec" line per recommendation in order |
| Export.AppendTopicLines | export.py:83-85 | the loop appends exactly the topic lines |
| Export.AppendRecommendationLines | export.py:90-91 | the loop appends exactly the recommendation lines |
| Export.ReportText | export.py:64-93 | the report text is the report lines joined by "\n" |
| Export.ExportProgressReport | export.py:44-95 | a format that lower-cases to "txt" gives the joined report lines; "json" and every other format give the report as JSON |

## Left out

- The language-model calls and their prompts are not modelled. This covers topic
  classification, the text of the progress recommendations, and the generation of
  flashcards, exercises and study plans. A reply is a parameter: an `Option` that is
  `None` where the source falls back.
- The database layer (database.py and the `_load_*`/`_save_*` helpers) is not part of this
  model. Stored data is a constructor parameter or a class field. The exceptions those
  helpers swallow are not modelled.
- main.py, tutor.py, multimodal.py, code_executor.py and config.py are not part of this
  model (UI, model clients, code execution).
- `generate_id` (an MD5 hash) and `extract_json` (a regex and `json.loads`) are library
  behaviour. New identifiers are parameters (`newId`, `freshId`).
- `datetime.now()` and ISO-8601 parsing are not modelled. Times are whole seconds, day
  numbers and hours, and a string that does not parse is `None`/`Unparsed`. A
  `next_review` that parses but cannot be compared (a zone-aware time) is caught by the
  bare `except` in the source and counts as due; the model folds it into `None`.
- Floating point is not modelled bit for bit. The ease factor, plan progress, mastery and
  percentages are `real`. IEEE rounding can move `int(interval * ease)` at a boundary.
  Float printing in the report is the `show` parameter.
- Analytics.PerformanceMetrics: the mastery level is the exact ratio. `round(mastery, 1)`
  is not modelled, and `_calculate_improvement_rate` (a float regression) is left out.
- Export.ExportProgressReport: the mastery figure is printed through the `show`
  parameter. The JSON report omits the full `analytics` block of
  `get_comprehensive_stats`, because its parts are modelled one by one in `Analytics`.
- Export.ExportConversationHistory: the JSON branch returns the structure that
  `json.dumps` would serialise, not its text.
- Text.Lower: `str.lower()` is modelled for ASCII letters only. This affects keyword
  checks, topic matching and format names.
- `export_all_data` is not modelled. It only bundles the conversations, the record and the
  analytics with a time stamp.
- Analytics.GetOverviewStats: the analytics take a progress record. The "Never" shown for
  a record without `last_active_date` is not modelled.
- `get_comprehensive_stats` is modelled as its six parts, not as one member.
- StudyPlans.ActivePlansOf: plans are sorted by their creation time as a number. The
  source sorts by the `created_at` string, which orders the same for strings written by
  `str(datetime)`. A plan without `created_at` sorts as "" there, which is not modelled.
- Values of unexpected JSON types (a non-string question, a non-list `completed_days`)
  make the source raise. They are not modelled: every field has its declared type.
- In-place list reversal (`daily_activity.reverse()`) is modelled as `Seqs.Reverse` on a
  value rather than an array updated in place.

## Findings

| source | as written | input that shows it | evidently intended | confidence | as-written member | corrected member |
|---|---|---|---|---|---|---|
| utils.py:121-122 | the name is stripped of '.' and ' ' and then cut to 255 characters, so the cut can leave a trailing '.' or ' ' | 254 × 'a' followed by ".b" gives 254 'a' and a final '.' | no '.' or ' ' at either end of the 255-character result | medium, not executed | Utils.SanitizeFilenameTrailingDot | Utils.SanitizeFilenameFixed |
