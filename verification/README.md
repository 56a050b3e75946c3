# Habit Forge: streaks, statistics, challenges and suggestions in Dafny

This project models the logic of Habit Forge, a habit tracker. It covers five areas:

- **Habit tracking log.** A habit keeps a log of `{ date, completed }` entries.
- **Current streak.** The log is sorted newest first. The count starts at today if today's entry is completed, otherwise at yesterday. It then walks back one day per completed entry and stops at an incomplete entry or a gap.
- **Toggling a day.** Toggling flips that day's entry, or adds a completed one, and then recomputes the streak. The longest streak is never lowered.
- **Statistics.** The completion rate is taken over the last 30 days. Statistics over all habits give the count, the largest streak, the mean rate and the total completions.
- **Repositories and suggestions.**
  - Two habit repositories and a challenge repository keep their lists in storage.
  - Challenge participants record completed days; their progress is a percentage of the challenge's length.
  - A suggestion service proposes habit templates for a user's goals.

Dates are whole day numbers: the day before `d` is `d - 1`. This stands for the ISO `YYYY-MM-DD` strings of the source, whose lexical order is chronological (RFC 3339, sections 5.1 and 5.6). "Today" is a parameter.

Modules:

- **`Common`**: the first-match lookups and filters the code relies on (`findIndex`, `find` and `filter`), and the not-found errors.
- **`Entities`**: the records.
- **`TrackingLog`**: reading a log.
- **`StreakCalculator`**: the sort, the walk and the streak loop.
- **`DayWindow`**: the trailing window of days.
- **`HabitUtils`**: toggling, rates and statistics.
- **`HabitService`**: the service's streak pair and new-habit record.
- **Repositories**, each a class whose list field the methods reassign:
  - `HabitStore` for `LocalStorageHabitRepository.ts`;
  - `HabitCollection` for `localStorageHabitRepository.ts`;
  - `ChallengeStore` for the challenge repository, with `ChallengeProgress` holding its arithmetic.
- **`SuggestionService`**: a class holding the template table, its lookup and the suggestion loop.

The streak loop, the window loop and the suggestion loop are methods. Each is proved equal to a function, and the source's promises are proved about those functions. Several computations are written more than once in the source: the streak loop and the completion rate twice each, the 30-day window loop three times. Each is modelled once, and the table below cites the copy in `src/utils/habitUtils.ts`. The other copies are:
- the streak loop: `src/infrastructure/repositories/LocalStorageHabitRepository.ts` lines 154-185;
- the window loop: `src/presentation/utils/habitUtils.ts` lines 4-24 and `src/infrastructure/repositories/LocalStorageHabitRepository.ts` lines 132-152;
- the completion rate: `src/infrastructure/repositories/LocalStorageHabitRepository.ts` lines 126-130;
- the statistics (`getHabitStats`): `src/infrastructure/repositories/LocalStorageHabitRepository.ts` lines 97-123.

The streak does not depend on the order of the log as long as each date has one entry (`StreakIgnoresOrder`). With two entries for one date it does: the stable sort keeps them in their stored order and the first one decides whether today counts (`RepeatedDateIncompleteFirst`, `RepeatedDateCompleteFirst`).

## Model

| member | source | states |
|---|---|---|
| Common.FirstIndex | src/infrastructure/repositories/localStorageHabitRepository.ts:58 | the index of the first element satisfying the predicate, with no earlier one satisfying it; none exactly when no element does (`findIndex` giving -1) |
| Common.Find | src/infrastructure/repositories/LocalStorageHabitRepository.ts:33 | none exactly when no element satisfies the predicate; otherwise the element at the first index satisfying it |
| Common.Filter | src/infrastructure/repositories/localStorageHabitRepository.ts:71 | keeps exactly the elements satisfying the predicate and never lengthens the list; same length exactly when every element satisfies it, and then the list itself |
| Common.ReplaceFirstThenFind | src/infrastructure/repositories/localStorageHabitRepository.ts:58-61 | overwriting the first match with a value that still matches keeps its index first, and `find` then returns the new value |
| TrackingLog.CompletedOn | src/utils/habitUtils.ts:68-73 | a day counts as completed only if a completed entry for it exists; a day with no entry counts as not completed |
| TrackingLog.CompletedOnIsDoneOn | src/utils/habitUtils.ts:34 | with one entry per date, reading the first entry's flag is the same as asking whether a completed entry for that day exists |
| TrackingLog.CountCompleted | src/utils/habitUtils.ts:144 | the number of completed entries is at most the length of the log |
| StreakCalculator.InsertNewestFirst | src/utils/habitUtils.ts:24-25 | inserting into a newest-first list keeps it newest first and adds exactly that entry (multiset) |
| StreakCalculator.NewestFirst | src/utils/habitUtils.ts:24-25 | the sorted log is newest first and a permutation of the log, with the same number of completed entries |
| StreakCalculator.UniqueDatesSurvivePermutation | src/utils/habitUtils.ts:24-25 | reordering a log with one entry per date keeps one entry per date |
| StreakCalculator.SameDoneDays | src/utils/habitUtils.ts:24-25 | two orderings of a log have the same completed days |
| StreakCalculator.SortedStrictly | src/utils/habitUtils.ts:24-25 | sorting a log with one entry per date orders it strictly newest first |
| StreakCalculator.WalkBound | src/utils/habitUtils.ts:39-51 | the walk counts at most the number of completed entries |
| StreakCalculator.Streak | src/utils/habitUtils.ts:23-54 | the streak is at most the number of completed entries |
| StreakCalculator.RunLengthIsUnique | src/utils/habitUtils.ts:39-51 | at most one run length ends at a given anchor day |
| StreakCalculator.WalkIsRunLength | src/utils/habitUtils.ts:39-51 | over strictly newest-first entries, each of the k days ending at the cursor has a completed entry and the day before them has none |
| StreakCalculator.StreakIsRunLength | src/utils/habitUtils.ts:34-51 | whenever the log has one entry per date, the streak is the run of completed days ending today if today is completed, else ending yesterday |
| StreakCalculator.StreakIgnoresOrder | src/utils/habitUtils.ts:24-27 | with one entry per date, the streak does not depend on the order of the log |
| StreakCalculator.RepeatedDateIncompleteFirst | src/utils/habitUtils.ts:24-37 | an incomplete and a complete entry for today, in that order, give a streak of 0 |
| StreakCalculator.RepeatedDateCompleteFirst | src/utils/habitUtils.ts:24-37 | the same two entries in the other order give 1, so with a repeated date the order matters |
| StreakCalculator.Walk | src/utils/habitUtils.ts:39-51 | the walk counts at most one step per entry |
| StreakCalculator.Anchor | src/utils/habitUtils.ts:33-37 | the walk starts today exactly when the first entry for today is completed, and yesterday otherwise |
| StreakCalculator.IncompleteTodayCountsFromYesterday | src/utils/habitUtils.ts:34-37 | an incomplete entry for today does not force 0: with yesterday completed the streak is at least 1 |
| StreakCalculator.TwoDaysEndingToday | src/utils/habitUtils.ts:23-54 | two completed days ending today give a streak of 2 |
| StreakCalculator.TwoDaysEndingYesterday | src/utils/habitUtils.ts:23-54 | the same two days counted from the next day, which has no entry, still give 2 |
| StreakCalculator.IncompleteTodayAlone | src/utils/habitUtils.ts:23-54 | a lone incomplete entry for today gives 0 |
| StreakCalculator.CalculateStreak | src/utils/habitUtils.ts:23-54 | the loop returns the streak function's value: 0 for an empty log, at most the completed entries, and the run length ending at the anchor |
| DayWindow.Window | src/utils/habitUtils.ts:59-79 | the reference window: n cells (none for n <= 0), the k-th one being the cell of day today-(n-1)+k |
| DayWindow.LastNDays | src/utils/habitUtils.ts:59-79 | exactly n cells (none for n <= 0), dates consecutive from today-(n-1) to today, each flag the first entry's flag or false, only the last cell marked today |
| HabitUtils.ToggleLog | src/utils/habitUtils.ts:87-102 | with an entry for the date: same length, the first such entry flipped, every other entry unchanged; without one: a completed entry appended |
| HabitUtils.ToggleFlipsOnlyThatDay | src/utils/habitUtils.ts:87-102 | toggling flips whether the toggled day counts as completed and leaves every other day as it was |
| HabitUtils.ToggleKeepsUniqueDates | src/utils/habitUtils.ts:87-102 | toggling keeps one entry per date |
| HabitUtils.TargetDay | src/utils/habitUtils.ts:85 | the toggled day is the given date, or today when none is given |
| HabitUtils.ToggleTwiceRestoresLog | src/utils/habitUtils.ts:90-95 | toggling a day that has an entry twice gives back the original log |
| HabitUtils.ToggleTwiceFromAbsent | src/utils/habitUtils.ts:96-101 | toggling a day without an entry twice leaves one incomplete entry for it |
| HabitUtils.ToggleHabitCompletion | src/utils/habitUtils.ts:84-117 | the toggled log, the streak recomputed from it, a longest streak at least the new streak and the old longest, every other field unchanged, and well-formedness kept |
| HabitUtils.ToggleHabitTwice | src/utils/habitUtils.ts:84-117 | toggling a day that has an entry twice restores the log and its streak and never lowers the longest streak |
| HabitUtils.CountDone | src/utils/habitUtils.ts:124 | the count of completed cells is bounded by the window; it equals the window exactly when all are completed and is 0 exactly when none is |
| HabitUtils.CompletionRate | src/utils/habitUtils.ts:122-126 | the 30-day rate lies between 0 and 100 |
| HabitUtils.CompletionRateExtremes | src/utils/habitUtils.ts:122-126 | the rate is 100 exactly when each of the last 30 days is completed and 0 exactly when none is |
| HabitUtils.MaxCurrentStreak | src/utils/habitUtils.ts:142 | no habit has a larger current streak, and some habit has exactly this one |
| HabitUtils.TotalCompletions | src/utils/habitUtils.ts:143-145 | the total is 0 exactly when no habit has a completed entry |
| HabitUtils.CompletionsWithinTotal | src/utils/habitUtils.ts:143-145 | each habit's completed entries are part of the total |
| HabitUtils.SumOfRates | src/utils/habitUtils.ts:148-149 | the sum of the rates lies between 0 and 100 times the number of habits |
| HabitUtils.MeanCompletionRate | src/utils/habitUtils.ts:148-149 | the mean rate lies between 0 and 100 |
| HabitUtils.SumOfRatesAtMost | src/utils/habitUtils.ts:148-149 | the sum of the rates is at its maximum exactly when every rate is 100 |
| HabitUtils.SumOfRatesAtLeast | src/utils/habitUtils.ts:148-149 | the sum of the rates is 0 exactly when every rate is 0 |
| HabitUtils.MeanRateExtremes | src/utils/habitUtils.ts:148-149 | the mean is 100 exactly when every habit's rate is 100, and 0 exactly when every rate is 0 |
| HabitUtils.GenerateHabitStats | src/utils/habitUtils.ts:131-157 | all zeros for no habits; otherwise the count, the largest current streak (bound and witness), the total completed entries and the mean rate within 0..100 |
| HabitUtils.ActiveStreakWithinCompletions | src/utils/habitUtils.ts:142-145 | when each stored streak is at most its habit's completed entries, the active streak is at most the total completions |
| HabitService.CalculateStreakStats | src/application/services/habitService.ts:52-57 | the current streak is the recomputed streak (the run length, at most the completed entries); the longest is at least it and at least the stored one, and equal to one of them |
| HabitService.StatsAgreeAfterToggle | src/application/services/habitService.ts:52-57 | right after a toggle, the stored streak fields are exactly the pair the service reports |
| HabitService.CreateHabit | src/application/services/habitService.ts:25-34 | the given fields unchanged, both streaks 0, an empty log |
| HabitService.CreatedHabitIsConsistent | src/application/services/habitService.ts:25-34 | a created habit is well formed and its streak fields agree with the service's pair on any day |
| HabitStore.ReplaceAll | src/infrastructure/repositories/LocalStorageHabitRepository.ts:45-47 | same length; every habit with the id replaced, every other habit unchanged |
| HabitStore.ReplaceAllThenFind | src/infrastructure/repositories/LocalStorageHabitRepository.ts:43-50 | after replacing an id that was present, looking it up gives the new habit |
| HabitStore.ReplaceAllKeepsOthers | src/infrastructure/repositories/LocalStorageHabitRepository.ts:43-50 | looking up any other id gives what it gave before |
| HabitStore.LocalStorageHabitRepository.GetHabitById | src/infrastructure/repositories/LocalStorageHabitRepository.ts:31-34 | the first stored habit with the id, or none exactly when no habit has it |
| HabitStore.LocalStorageHabitRepository.AddHabit | src/infrastructure/repositories/LocalStorageHabitRepository.ts:36-41 | the habit appended at the end and returned |
| HabitStore.LocalStorageHabitRepository.UpdateHabit | src/infrastructure/repositories/LocalStorageHabitRepository.ts:43-50 | every habit with the id replaced, the rest and the length unchanged |
| HabitStore.LocalStorageHabitRepository.ToggleHabitCompletion | src/infrastructure/repositories/LocalStorageHabitRepository.ts:52-95 | unknown id: not-found and nothing changed; otherwise the first habit toggled and stored over every habit with the id, same length, other habits unchanged |
| HabitStore.ToggleThenFind | src/infrastructure/repositories/LocalStorageHabitRepository.ts:52-95 | after a toggle, looking the id up gives the toggled habit, whose log is the toggled log and whose longest streak is not lowered |
| HabitCollection.DeleteUndoesCreate | src/infrastructure/repositories/localStorageHabitRepository.ts:69-79 | deleting the id of a habit just created with a fresh id gives back the earlier list |
| HabitCollection.LocalStorageHabitRepository.GetAll | src/infrastructure/repositories/localStorageHabitRepository.ts:27-33 | with a non-empty user id, exactly the habits of that user in stored order; otherwise all habits |
| HabitCollection.LocalStorageHabitRepository.GetById | src/infrastructure/repositories/localStorageHabitRepository.ts:35-39 | the first stored habit with the id, or none exactly when no habit has it |
| HabitCollection.LocalStorageHabitRepository.Create | src/infrastructure/repositories/localStorageHabitRepository.ts:41-54 | the draft with the supplied id and time appended and returned |
| HabitCollection.LocalStorageHabitRepository.Update | src/infrastructure/repositories/localStorageHabitRepository.ts:56-67 | the first habit with the id overwritten and then found by id, or not-found with nothing changed |
| HabitCollection.LocalStorageHabitRepository.Delete | src/infrastructure/repositories/localStorageHabitRepository.ts:69-79 | every habit with the id removed; true exactly when one existed; afterwards no habit has the id |
| HabitCollection.LocalStorageHabitRepository.ToggleCompletion | src/infrastructure/repositories/localStorageHabitRepository.ts:81-94 | unknown id: not-found and nothing changed; otherwise exactly the first matching index replaced by the toggled habit |
| ChallengeProgress.AddDay | src/infrastructure/repositories/localStorageChallengeRepository.ts:158-162 | the day is present afterwards, nothing else is added, nothing is added when it was present, and no duplicate is created |
| ChallengeProgress.RemoveDay | src/infrastructure/repositories/localStorageChallengeRepository.ts:163-166 | every occurrence of the day is removed, other days are kept, nothing changes when it was absent, and no duplicate is created |
| ChallengeProgress.DayEditsIdempotent | src/infrastructure/repositories/localStorageChallengeRepository.ts:158-166 | adding or removing the same day a second time changes nothing |
| ChallengeProgress.RoundedPercent | src/infrastructure/repositories/localStorageChallengeRepository.ts:173 | the whole number nearest to 100n/totalDays, halves rounding up |
| ChallengeProgress.ProgressPercent | src/infrastructure/repositories/localStorageChallengeRepository.ts:173 | at most 100; 100 exactly when the rounded value reaches 100; otherwise the nearest whole percentage, halves up |
| ChallengeProgress.ProgressEnds | src/infrastructure/repositories/localStorageChallengeRepository.ts:173 | no completed days give 0%, at least as many completed days as the challenge has give 100% |
| ChallengeProgress.ProgressMonotonic | src/infrastructure/repositories/localStorageChallengeRepository.ts:173 | more completed days never lower the percentage |
| ChallengeProgress.ProgressExamples | src/infrastructure/repositories/localStorageChallengeRepository.ts:173 | 5 of 10 days is 50, 1 of 8 is 13, 1 of 3 is 33, 2 of 3 is 67 |
| ChallengeProgress.TotalDays | src/infrastructure/repositories/localStorageChallengeRepository.ts:169-171 | the day count is positive exactly when the challenge ends no earlier than it starts, and then counts both ends |
| ChallengeProgress.UpdatedParticipant | src/infrastructure/repositories/localStorageChallengeRepository.ts:156-173 | the day added or removed as asked, other days unchanged, no duplicate created, progress recomputed from the new count and at most 100 |
| ChallengeProgress.UpdateProgressIdempotent | src/infrastructure/repositories/localStorageChallengeRepository.ts:156-173 | repeating the same progress update changes nothing |
| ChallengeStore.LeaveUndoesJoin | src/infrastructure/repositories/localStorageChallengeRepository.ts:106-131 | leaving right after joining as a new participant gives back the earlier participant list |
| ChallengeStore.LocalStorageChallengeRepository.GetAll | src/infrastructure/repositories/localStorageChallengeRepository.ts:26-28 | the stored list |
| ChallengeStore.LocalStorageChallengeRepository.GetPublic | src/infrastructure/repositories/localStorageChallengeRepository.ts:30-33 | exactly the public challenges, in stored order |
| ChallengeStore.LocalStorageChallengeRepository.GetByUserId | src/infrastructure/repositories/localStorageChallengeRepository.ts:35-41 | exactly the challenges the user created or takes part in, in stored order |
| ChallengeStore.LocalStorageChallengeRepository.GetById | src/infrastructure/repositories/localStorageChallengeRepository.ts:43-47 | the first challenge with the id, or none exactly when no challenge has it |
| ChallengeStore.LocalStorageChallengeRepository.Create | src/infrastructure/repositories/localStorageChallengeRepository.ts:49-62 | the draft with the supplied id and time appended and returned |
| ChallengeStore.LocalStorageChallengeRepository.Update | src/infrastructure/repositories/localStorageChallengeRepository.ts:64-75 | the first challenge with the id overwritten and then found by id, or not-found with nothing changed |
| ChallengeStore.LocalStorageChallengeRepository.Delete | src/infrastructure/repositories/localStorageChallengeRepository.ts:77-87 | every challenge with the id removed; true exactly when one existed; afterwards none has the id |
| ChallengeStore.LocalStorageChallengeRepository.JoinChallenge | src/infrastructure/repositories/localStorageChallengeRepository.ts:89-117 | unknown challenge: not-found, nothing changed; already a participant: that record, nothing changed; otherwise one new participant with no progress appended to that challenge only |
| ChallengeStore.LocalStorageChallengeRepository.LeaveChallenge | src/infrastructure/repositories/localStorageChallengeRepository.ts:119-139 | unknown challenge: false, nothing changed; otherwise every record of the user removed from that challenge only, true exactly when there was one |
| ChallengeStore.LocalStorageChallengeRepository.UpdateProgress | src/infrastructure/repositories/localStorageChallengeRepository.ts:141-179 | unknown challenge or non-participant: the matching error, nothing changed; otherwise only the first record of the user in that challenge becomes the updated participant, with progress at most 100 |
| SuggestionService.SuggestionTable | src/infrastructure/services/suggestionService.ts:8-45 | every category has an entry of exactly three templates |
| SuggestionService.TableEntriesAreComplete | src/infrastructure/services/suggestionService.ts:9-45 | each template of the table has a non-empty name, an icon, a frequency and a description, and nothing else |
| SuggestionService.HealthTemplates | src/infrastructure/services/suggestionService.ts:10-14 | the health entry: three complete templates |
| SuggestionService.FitnessTemplates | src/infrastructure/services/suggestionService.ts:15-19 | the fitness entry: three complete templates |
| SuggestionService.ProductivityTemplates | src/infrastructure/services/suggestionService.ts:20-24 | the productivity entry: three complete templates |
| SuggestionService.LearningTemplates | src/infrastructure/services/suggestionService.ts:25-29 | the learning entry: three complete templates |
| SuggestionService.MindfulnessTemplates | src/infrastructure/services/suggestionService.ts:30-34 | the mindfulness entry: three complete templates |
| SuggestionService.SocialTemplates | src/infrastructure/services/suggestionService.ts:35-39 | the social entry: three complete templates |
| SuggestionService.OtherTemplates | src/infrastructure/services/suggestionService.ts:40-44 | the other entry: three complete templates |
| SuggestionService.GenericSuggestions | src/infrastructure/services/suggestionService.ts:67-73 | the three generic suggestions, each complete |
| SuggestionService.SuggestionService.constructor | src/infrastructure/services/suggestionService.ts:6-45 | the service holds the table |
| SuggestionService.SuggestionService.SuggestedHabitsForGoal | src/infrastructure/services/suggestionService.ts:47-49 | the table's templates for the goal's category, none when the table lacks the category; three for a service holding a complete table |
| SuggestionService.FirstSeen | src/infrastructure/services/suggestionService.ts:56-64 | the goals' categories without repeats, exactly those that occur, non-empty for non-empty goals |
| SuggestionService.Picks | src/infrastructure/services/suggestionService.ts:58-64 | two suggestions per category, the first two of its templates in the given table, in category order |
| SuggestionService.SuggestionsFor | src/infrastructure/services/suggestionService.ts:51-76 | no goals: the generic list; otherwise two per distinct category; never empty |
| SuggestionService.RepeatedCategoryAddsNothing | src/infrastructure/services/suggestionService.ts:59-62 | a goal whose category appeared already adds nothing |
| SuggestionService.NewCategoryAddsTwo | src/infrastructure/services/suggestionService.ts:59-62 | a goal of a new category adds its first two templates at the end |
| SuggestionService.SuggestionService.SuggestedHabitsForUser | src/infrastructure/services/suggestionService.ts:51-76 | the loop with its seen-set returns the suggestions for the goals: the generic list for no goals, otherwise two per distinct category, never empty |
| SuggestionService.CreateHabitFromSuggestion | src/infrastructure/services/suggestionService.ts:78-95 | name "New Habit" when missing or empty, frequency daily when missing, other fields copied, given owner, no goal, streaks 0, empty log, well formed |
| SuggestionService.TableSuggestionKeepsName | src/infrastructure/services/suggestionService.ts:78-95 | a habit made from a table template keeps its name and frequency |

## Left out

- Storage: `localStorage`, JSON parsing and the parse-error fallbacks are not modelled. Each repository holds its list in a field that its constructor receives.
- Demo data: the mock habits that `getHabits` falls back to (`getMockHabits`) are not modelled; they are clock-derived demo values.
- `getHabitTemplates`: the static template list of the lowercase habit repository is not modelled; it is a constant with no logic.
- Ids and clock: `generateId` (random) and the creation or join timestamps become parameters, and today is a parameter.
- Dates: JavaScript `Date` arithmetic, time zones and the local/UTC mismatch of `toISOString` are not modelled. Dates are day numbers.
- The empty date string: the source treats an empty date string like a missing date (`date || today`); the model has only the missing date (`None`).
- Numbers: rates are exact reals rather than floating point. `Math.round` is the exact integer formula `(200n + T) div 2T`, and the day count of a challenge is `end - start + 1`.
- HabitUtils.MeanCompletionRate: the mean is characterised by its bounds and its two extremes (`MeanRateExtremes`), not by the equation mean × count = sum. That equation is true but beyond what the solver proves cheaply here.
- ChallengeStore.LocalStorageChallengeRepository.UpdateProgress: requires the targeted challenge to end no earlier than it starts. For an inverted range the source divides by zero or a negative count, and stores NaN (no completed days over zero days), 100 (completed days over zero days, as `Math.min(100, Infinity)`) or a progress of at most 0 (a negative day count); this is not modelled.
- SuggestionService.SuggestionService.SuggestedHabitsForUser: the `user` argument, which the source never reads, is not a parameter.
- Suggestions per category: a comment in `getSuggestedHabitsForUser` speaks of three suggestions per category, but the code takes the first two (`slice(0, 2)`). The model follows the code.
- Suggestion templates hold only the fields a habit is made from; the other `Partial<Habit>` fields are left out.
- The two habit entity declarations (`Habit.ts` and `habit.ts`) are merged into one record; `goalId` and `userId` are optional.
- React, notifications, the dependency-injection container, the use-case classes and other delegating wrappers are not modelled.
- Concurrency: asynchrony and the last-writer-wins races between callers are not modelled.
