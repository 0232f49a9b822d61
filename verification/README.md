# Bullet-Bytes journal, modelled in Dafny

Bullet-Bytes is a browser bullet journal. Each page keeps its records in the browser's
storage and edits them through a small manager object. The pages are:

- a dashboard of tasks and habits;
- a habit tracker with completion histories and streaks;
- goals with milestones and progress percentages;
- a daily log whose entries can be migrated to another date;
- a mood tracker keyed by calendar day;
- a settings page with export, import and clear;
- a monthly calendar overview;
- sign-up and login forms.

This project models the logic of those pages, one Dafny module per page:

| module | file | page |
|---|---|---|
| `Common` | common.dfy | shared pieces: `Option`, the millisecond clock and its calendar days, `trim`, `find`/`findIndex`, `filter`, counting and sums |
| `App` | app.dfy | dashboard task list and habit list (app.js) |
| `HabitStreak` | habit_streak.dfy | habit streak engine on values (habits.js `updateStreak`) |
| `Habits` | habits.dfy | habit records and the habit manager (habits.js) |
| `Goals` | goals.dfy | goals, milestones, progress and averages (goals.js) |
| `DailyLog` | daily_log.dfy | daily log entries, day navigation and migration (daily-log.js) |
| `Mood` | mood.dfy | the mood tracker (mood.js) |
| `SettingsPage` | settings.dfy | preferences, font-size stepper, export/import/clear (settings.js) |
| `MonthlyOverview` | monthly_overview.dfy | calendar events, filters, day preview and day-cell dots (monthly-overview.js) |
| `Signup` | signup.dfy | sign-up validation and registration (signup.js) |
| `Login` | login.dfy | login validation, remember-me, redirect and logout (login.js) |

Modelling choices:

- **Records.** Records the managers change in place are classes: tasks, both kinds of
  habit, log entries and goals. A manager holds a sequence of them. Each record has a
  `const id`, so "the first record with this id" is a total function. Where a contract
  speaks about the records' contents, `Items()` takes a snapshot of them as datatype values.
- **Plain values.** Milestones, the preferences object and the display filters are object
  literals that the code replaces wholesale, so they are datatype values.
- **Time.** An instant is an integer count of milliseconds. Its calendar day is
  `t / 86_400_000`, the day number since 1970-01-01 in UTC.
- **Date text.** A `YYYY-MM-DD` date string is that day's number. Such strings sort
  chronologically and one parses to its UTC midnight, so comparing, sorting and
  subtracting day numbers does what the code does with the strings.
- **Browser storage.** Storage is a map from key to stored value.
- **Parameters.** The clock, `Date.now()` ids and the answers to `prompt`/`confirm` dialogs
  are parameters.
- **Regular expressions.** Both are written as string predicates. The email predicate is a
  left-to-right scan; `Signup.ValidEmailMatchesPattern` proves it accepts exactly the texts
  that match the pattern.

The central result is about the habit tracker. The stored `streak` of a habit is derived
state: the code updates it incrementally when a day is marked, and recounts it when a day
is un-marked. `HabitStreak.MarkKeepsStreakConsistent` and
`HabitStreak.UnmarkKeepsStreakConsistent` prove that both paths keep the streak equal to
the number of consecutive days at the end of the sorted history.
`Habits.HabitManager.CompleteHabit` carries that invariant through the in-place update.

A design observation on goals: progress is `Math.round((done / total) * 100)` and a goal
counts as completed exactly at 100. So 199 of 200 milestones done already completes the
goal. `Goals.PercentFullIff` states the exact threshold. The model rounds the exact ratio,
while the page rounds a double; see `Goals.Recomputed` under "## Left out".

## Model

| member | source | states |
|---|---|---|
| Common.DayOfShift | daily-log.js:47-48 | moving an instant by n whole days moves its calendar day by exactly n |
| Common.Trim | app.js:57 | `trim()` returns a text no longer than the input that neither starts nor ends with white space |
| Common.TrimStartShape | app.js:57 | what is removed at the front is white space, and the rest does not start with white space |
| Common.TrimEndShape | app.js:57 | what is removed at the back is white space, and the rest does not end with white space |
| Common.TrimEmptyIffAllSpace | app.js:57-58 | a trimmed input is blank exactly when every character was white space, which is the "blank input adds nothing" test |
| Common.TrimKeepsUnspacedText | signup.js:80 | trimming a text without white space leaves it unchanged |
| Common.TrimIdempotent | app.js:166-169 | trimming twice is trimming once |
| Common.Utf16Length | signup.js:48 | a string's `length` counts UTF-16 code units: between its number of characters and twice that, equal to it exactly when no character lies above U+FFFF |
| Common.Utf16LengthAppend | signup.js:48 | a general property of `length` in UTF-16 units: the length of a concatenation is the sum of the lengths |
| Common.FindIndex | app.js:149 | `find` yields the first position whose element matches, or none when no element matches |
| Common.FindIndexIs | app.js:149 | a matching position with no match before it is the one `find` yields |
| Common.Filter | app.js:158 | `filter` keeps exactly the matching elements, each from the input |
| Common.FilterKeepsNoRepeats | app.js:158 | filtering a list without repeated records gives a list without repeats |
| Common.FilterKeepsAll | app.js:158 | filtering with a test every element passes changes nothing |
| Common.FilterAppend | daily-log.js:107-109 | filtering keeps relative order: filtering a concatenation concatenates the filtered parts |
| Common.Count | goals.js:29 | `filter(p).length` is at most the length; it equals the length exactly when all match, and is 0 exactly when none match |
| Common.SumBounds | goals.js:341-343 | the sum of n values in lo..hi lies in n·lo..n·hi |
| App.Task.constructor | app.js:4-11 | a new task holds the given id, content, completion flag and due date |
| App.AsciiLower | app.js:180 | lower-casing keeps the length, changes exactly the upper-case letters, and turns each into its small letter (32 code points on) |
| App.FirstWithId | app.js:178 | the first task with the card's id, or none |
| App.Display | app.js:175-197 | one display decision per task card |
| App.DisplayExactly | app.js:180-194 | with distinct ids: 'completed' shows exactly the completed tasks, 'today' those due on the current calendar day, 'upcoming' those due after now, and any other filter every task |
| App.TaskManager.constructor | app.js:26-27 | the task list starts empty |
| App.TaskManager.Items | app.js:25-27 | the snapshot has one task state per task, in order |
| App.TaskManager.Find | app.js:149 | the position of the first task with the id, or none when no task has it |
| App.TaskManager.FindIndexOfItems | app.js:178 | looking the id up in the snapshot finds the same task as looking it up among the objects |
| App.TaskManager.AddTask | app.js:56-65 | a blank trimmed input adds nothing; otherwise exactly one fresh, uncompleted task with the trimmed content is appended and the earlier tasks are kept |
| App.TaskManager.ToggleTask | app.js:148-155 | only the first task with the id has its completion flag flipped; an unknown id changes nothing |
| App.TaskManager.DeleteTask | app.js:157-161 | every task with the id is removed and the rest keep their order |
| App.TaskManager.EditTask | app.js:163-173 | a non-null, non-blank answer, trimmed, replaces the content of the first task with the id; every other task and every other field is unchanged |
| App.TaskManager.FilterTasks | app.js:175-197 | the cards shown are those `Display` decides for the current tasks and the lower-cased filter |
| App.Habit.constructor | app.js:14-22 | a new daily habit has streak 0 and no checked-off days |
| App.HabitManager.constructor | app.js:220-224 | the habit list starts empty |
| App.HabitManager.Find | app.js:288 | the position of the first habit with the id, or none |
| App.HabitManager.AddHabit | app.js:241-250 | a blank name adds nothing; otherwise one fresh habit with streak 0 and no checked-off days is appended; each streak still counts its distinct days |
| App.HabitManager.CompleteHabit | app.js:287-298 | today ends up checked off; a day already checked off changes nothing, so the operation is idempotent per day; otherwise today is appended and the streak grows by one; the streak keeps counting distinct days |
| App.HabitManager.DeleteHabit | app.js:300-304 | every habit with the id is removed, the rest in order |
| App.HabitManager.EditHabit | app.js:306-316 | only a non-null, non-blank answer renames the first habit with the id, trimmed; streak and days are untouched |
| HabitStreak.Insert | habits.js:106-109 | inserting a day into a sorted history keeps it sorted and adds exactly that day |
| HabitStreak.Sort | habits.js:109 | `sort()` returns a sorted rearrangement of the history |
| HabitStreak.SortedUnique | habits.js:109 | two sorted rearrangements of the same days are equal, so the sorted order is unique |
| HabitStreak.SortOfSorted | habits.js:109 | sorting an already sorted history leaves it unchanged |
| HabitStreak.IndexOf | habits.js:112 | `indexOf` gives -1 exactly for an absent day, and otherwise the first position holding it |
| HabitStreak.RemoveAt | habits.js:137 | `splice(i, 1)` removes exactly the element at position i |
| HabitStreak.TrailingRun | habits.js:145-161 | the trailing run of a history is 0 exactly when it is empty and never longer than it |
| HabitStreak.TrailingRunIsLongestConsecutiveTail | habits.js:149-158 | the last `TrailingRun` days step by exactly one day and the day before them does not, so the run lies between 1 and the length |
| HabitStreak.TrailingRunAppend | habits.js:115-129 | appending the next day extends the run by one; appending any other later day starts a new run of 1 |
| HabitStreak.PrecedingEntryIsYesterday | habits.js:112-124 | after inserting a new day and sorting, an entry precedes it exactly when an earlier day is recorded, and that entry is yesterday exactly when yesterday is recorded |
| HabitStreak.MarkByPrecedingEntry | habits.js:112-130 | the code's streak rule on the sorted history (no preceding entry: 1; preceding entry is yesterday: +1; otherwise: 1) agrees with `Mark` |
| HabitStreak.MarkEffect | habits.js:105-130 | marking a recorded day changes neither history nor streak; marking a new day sorts it in once, keeping every earlier entry, with streak +1 when yesterday is recorded and 1 otherwise |
| HabitStreak.MarkIdempotent | habits.js:105 | marking the same day twice is marking it once |
| HabitStreak.UnmarkEffect | habits.js:133-163 | un-marking an absent day changes nothing; otherwise exactly one occurrence is removed, the streak is 0 for an empty history and otherwise the trailing run of the sorted rest |
| HabitStreak.UnmarkUndoesMark | habits.js:105-141 | for a sorted history without today, marking today and then un-marking it restores the history |
| HabitStreak.MarkKeepsStreakConsistent | habits.js:115-131 | if the streak equals the trailing run and no day is later than today, it still does after marking |
| HabitStreak.UnmarkKeepsStreakConsistent | habits.js:145-161 | the same invariant holds after un-marking |
| Habits.Habit.constructor | habits.js:3-13 | a new habit is not completed, has no last completion date, streak 0 and an empty history |
| Habits.RecountStreak | habits.js:145-161 | the backward loop with its `break` returns the trailing run, between 1 and the history's length, because `maxStreak` only ever takes the running count |
| Habits.HabitManager.constructor | habits.js:16-23 | the habit list starts empty |
| Habits.HabitManager.Find | habits.js:174 | the position of the first habit with the id, or none |
| Habits.HabitManager.UpdateStreak | habits.js:100-165 | a completed habit has today marked and an uncompleted one has it un-marked, as `Mark`/`Unmark` specify |
| Habits.HabitManager.MarkDay | habits.js:103-132 | the in-place push, sort, indexOf and streak update produce exactly `Mark` of the old history and streak |
| Habits.HabitManager.UnmarkDay | habits.js:133-163 | the in-place indexOf, splice, sort and recount produce exactly `Unmark` of the old history and streak |
| Habits.HabitManager.CompleteHabit | habits.js:173-180 | the named habit's flag flips; `lastCompletedDate` is null exactly when it is not completed; today is marked or un-marked; a consistent streak stays consistent; an unknown id and every other habit are unchanged |
| Habits.HabitManager.ToggleCompletion | habits.js:176-179 | for the habit found: the flag flips, the date is set exactly while completed, the name is kept, the streak is updated, and consistency is preserved |
| Habits.HabitManager.DeleteHabit | habits.js:204-205 | every habit with the id is removed, the rest in order |
| Habits.HabitManager.EditHabit | habits.js:210-215 | only a non-null, non-blank answer renames the first habit with the id, trimmed; no other habit's name changes |
| Goals.RoundIsNearest | goals.js:31 | `Math.round(a / b)`, written as `(2a + b) div 2b`, lies within half of a/b |
| Goals.RoundUnique | goals.js:31 | it is the only integer within half of a/b with halves rounded up |
| Goals.PercentBounds | goals.js:29-31 | the percentage of done milestones lies in 0..100 |
| Goals.PercentFullIff | goals.js:29-32 | the percentage is 100 exactly when 200·done ≥ 199·total, so in particular when all are done |
| Goals.Average | goals.js:341-351 | the average of no goals is 0; otherwise it is the integer nearest to the mean |
| Goals.AverageBounds | goals.js:341-351 | the average of values in a range around 0 stays in that range |
| Goals.AverageOfEqual | goals.js:341-351 | the average of equal values is that value |
| Goals.DoneCount | goals.js:29 | at most the number of milestones, and equal to it exactly when all are done |
| Goals.Recomputed | goals.js:23-32 | progress is in 0..100; completed exactly at 100; without milestones the flag is kept; with milestones completed iff 200·done ≥ 199·total, so all done implies completed |
| Goals.Goal.constructor | goals.js:3-13 | a new goal is uncompleted, at progress 0, without milestones, with the given deadline |
| Goals.Goal.AddMilestone | goals.js:15-21 | exactly one uncompleted milestone is appended; the earlier milestones are unchanged |
| Goals.Goal.Edit | goals.js:278-290 | the content is replaced; the deadline changes only when requested, to the answer when it is non-blank and to null otherwise |
| Goals.Goal.UpdateProgress | goals.js:23-32 | progress and flag become `Recomputed` of the milestones, so progress is a percentage matching the flag |
| Goals.Progresses | goals.js:341-351 | the progress values of the goals, in order |
| Goals.StatsWithinPercent | goals.js:338-368 | each average is within 0..100 when every progress is, and 0 for an empty group |
| Goals.GoalsManager.constructor | goals.js:35-58 | no goals, filter 'all' |
| Goals.GoalsManager.Find | goals.js:254 | the position of the first goal with the id, or none |
| Goals.GoalsManager.SetActiveFilter | goals.js:95-96 | the selected filter becomes current |
| Goals.GoalsManager.VisibleGoals | goals.js:141-144 | all goals under 'all'; otherwise exactly the goals of the selected type, each from the list |
| Goals.GoalsManager.Summaries | goals.js:340-345 | one type/progress pair per goal, in order |
| Goals.GoalsManager.StatsArePercentages | goals.js:338-368 | for a valid manager the three averages are percentages, and the overall one is 0 without goals |
| Goals.GoalsManager.AddGoal | goals.js:115-132 | a blank trimmed input adds nothing; otherwise one fresh uncompleted goal at progress 0, without milestones or deadline, is appended |
| Goals.GoalsManager.ToggleGoalComplete | goals.js:253-262 | the named goal's flag flips and its progress becomes 100 or 0 to match; so toggling twice restores the flag; every other goal, and everything for an unknown id, is unchanged |
| Goals.GoalsManager.DeleteGoal | goals.js:264-271 | only when confirmed, every goal with the id is removed, the rest in order |
| Goals.GoalsManager.EditGoal | goals.js:273-297 | a non-blank answer, trimmed, becomes the content, and the deadline follows `Goal.Edit`; flags, progress and milestones are untouched, and so is every other goal |
| Goals.GoalsManager.AddMilestone | goals.js:299-311 | a non-blank answer adds one uncompleted milestone to the named goal and recomputes its progress; nothing else changes |
| Goals.GoalsManager.ToggleMilestone | goals.js:313-325 | only the first milestone with the id is flipped and progress is recomputed; an unknown goal or milestone changes nothing |
| Goals.GoalsManager.DeleteMilestone | goals.js:327-336 | exactly the milestones with the id are removed, the others kept in order, and progress is recomputed |
| DailyLog.LogEntry.constructor | daily-log.js:3-12 | a new entry holds the given fields |
| DailyLog.FirstWithId | daily-log.js:222 | the first entry with the id, or none |
| DailyLog.MigrateOne | daily-log.js:220-239 | an unknown id changes nothing; for a known one, the first entry with the id is copied to the end with the stamp as id, the same content, type and completion flag, dated at the target; that entry becomes completed when it is a task; every other entry stays as it was |
| DailyLog.MarkMigrated | daily-log.js:236-239 | the closed form of the entries after migration keeps every entry's id and position |
| DailyLog.Copies | daily-log.js:224-234 | the copies are at most one per selected id, each with a new id and dated at the target |
| DailyLog.MigrateStepAbsent | daily-log.js:222-224 | a selected id no entry has changes neither the loop's result nor the closed form |
| DailyLog.MigrateStepPresent | daily-log.js:222-239 | a selected id found for the first time finds its entry unchanged, and completing it is what the closed form does |
| DailyLog.MigrateAllClosedForm | daily-log.js:205-246 | with distinct ids, a repeat-free selection and new stamps, migration appends one copy per selected existing entry (same content, type and prior flag, target date) and completes exactly the selected unfinished tasks |
| DailyLog.DailyLogManager.constructor | daily-log.js:15-31 | no entries, the current date is now |
| DailyLog.DailyLogManager.Items | daily-log.js:14-18 | one entry state per entry, in order |
| DailyLog.DailyLogManager.Find | daily-log.js:177 | the position of the first entry with the id, or none |
| DailyLog.DailyLogManager.FindAgrees | daily-log.js:222 | looking up among the snapshot and among the objects agree |
| DailyLog.DailyLogManager.PrevDay | daily-log.js:47-48 | the current date moves back exactly one calendar day |
| DailyLog.DailyLogManager.NextDay | daily-log.js:55-56 | the current date moves forward exactly one calendar day |
| DailyLog.DailyLogManager.AddEntry | daily-log.js:82-99 | a blank input adds nothing; otherwise one uncompleted entry of the chosen type, dated at the current date, is appended |
| DailyLog.DailyLogManager.EntriesShown | daily-log.js:101-113 | exactly the entries whose date falls on the current date's calendar day |
| DailyLog.DailyLogManager.ToggleComplete | daily-log.js:176-183 | only a task's flag flips; notes, events and unknown ids change nothing |
| DailyLog.DailyLogManager.DeleteEntry | daily-log.js:185-191 | only when confirmed, every entry with the id is removed, the rest in order |
| DailyLog.DailyLogManager.SetContent | daily-log.js:196-197 | one entry's content changes and every other entry state is unchanged |
| DailyLog.DailyLogManager.EditEntry | daily-log.js:193-203 | a non-blank answer, trimmed, becomes the content of the first entry with the id; otherwise nothing changes |
| DailyLog.DailyLogManager.MigrateSelected | daily-log.js:220-239 | one turn of the migration loop does `MigrateOne` to the entries' states |
| DailyLog.DailyLogManager.MigrateEntries | daily-log.js:205-246 | no selection or no target date changes nothing; otherwise the loop yields `MigrateAll`, whose closed form `MigrateAllClosedForm` gives |
| Mood.DatePart | mood.js:48-50 | the date key is the prefix of the ISO text before the first 'T' |
| Mood.DatePartOfTimestamp | mood.js:48-50 | for an ISO timestamp date + 'T' + time the key is the date |
| Mood.Restored | mood.js:72-93 | a day without an entry clears mood and notes; otherwise the notes are restored, and the mood when a button carries it |
| Mood.SaveThenLoad | mood.js:82-111 | after saving on a day, loading that day restores the mood (when a button carries it) and the trimmed notes; other days restore what they did before |
| Mood.MoodTracker.constructor | mood.js:3-11 | starts at now with what is stored for today loaded |
| Mood.MoodTracker.SelectMood | mood.js:40-46 | the clicked button's mood becomes the selection |
| Mood.MoodTracker.LoadMoodForCurrentDate | mood.js:72-93 | selection and notes become what `Restored` gives for the current day |
| Mood.MoodTracker.SaveMoodEntry | mood.js:95-114 | without a selected mood nothing is stored; otherwise mood and trimmed notes replace the current day's entry and every other day is untouched |
| Mood.MoodTracker.ChangeDate | mood.js:57-61 | the date moves by exactly the given number of days and the new day's entry is loaded |
| SettingsPage.Decreased | settings.js:67-68 | one step down only above 12, staying in 12..24 |
| SettingsPage.Increased | settings.js:77-78 | one step up only below 24, staying in 12..24 |
| SettingsPage.StepsUndo | settings.js:66-82 | inside the range, a step up then down, or down then up, restores the size |
| SettingsPage.Exported | settings.js:230-236 | the bundle holds the preferences and all four collections |
| SettingsPage.Imported | settings.js:280-284 | the preferences and the four collection keys are written; every other key is kept |
| SettingsPage.ExportAfterImport | settings.js:230-284 | exporting what an import wrote gives the imported bundle back, absent collections as empty |
| SettingsPage.ImportAfterExport | settings.js:230-284 | importing an export reproduces the preferences and collections and keeps the other keys |
| SettingsPage.SettingsManager.constructor | settings.js:15-23 | defaults light/default/Inter/16 unless preferences are stored |
| SettingsPage.SettingsManager.LoadSettings | settings.js:99-104 | stored preferences replace the current ones; otherwise nothing changes |
| SettingsPage.SettingsManager.SaveSettings | settings.js:106-108 | only the preferences key is written |
| SettingsPage.SettingsManager.ChooseTheme | settings.js:30-39 | only the theme changes, and it is saved |
| SettingsPage.SettingsManager.ChooseColorScheme | settings.js:42-51 | only the colour scheme changes, and it is saved |
| SettingsPage.SettingsManager.ChooseFont | settings.js:55-61 | only the font changes, and it is saved |
| SettingsPage.SettingsManager.DecreaseFontSize | settings.js:65-73 | one step down, saved, only above 12; at 12 nothing changes, not even storage; the size stays in 12..24 |
| SettingsPage.SettingsManager.IncreaseFontSize | settings.js:75-83 | one step up, saved, only below 24; at 24 nothing changes; the size stays in 12..24 |
| SettingsPage.SettingsManager.ExportData | settings.js:227-255 | the exported bundle, each collection empty when nothing is stored |
| SettingsPage.SettingsManager.ImportData | settings.js:257-302 | an unreadable file, missing preferences or a declined confirmation writes nothing; otherwise exactly `Imported` is written and the preferences reloaded |
| SettingsPage.SettingsManager.ClearData | settings.js:304-318 | only after both confirmations exactly the five app keys are removed; the login keys and every other key stay |
| MonthlyOverview.TaskEvents | monthly-overview.js:158-171 | one event per task on its due date, green when completed and blue otherwise |
| MonthlyOverview.DayEvents | monthly-overview.js:179-190 | one habit event per listed day |
| MonthlyOverview.HabitEvents | monthly-overview.js:176-193 | exactly one event per recorded day of each habit; none for a missing or empty history |
| MonthlyOverview.LogEvents | monthly-overview.js:198-212 | exactly one event per log entry of type 'event' |
| MonthlyOverview.CalendarEvents | monthly-overview.js:150-214 | each group of events is present exactly while its filter is on |
| MonthlyOverview.TasksDue | monthly-overview.js:314-319 | exactly the tasks due on the day |
| MonthlyOverview.HabitsDone | monthly-overview.js:321-325 | exactly the habits whose history holds the day |
| MonthlyOverview.EntriesOn | monthly-overview.js:327-331 | exactly the log entries dated on the day |
| MonthlyOverview.OfType | monthly-overview.js:343-344 | exactly the entries of the type |
| MonthlyOverview.Sections | monthly-overview.js:333-353 | a section exists exactly for each non-empty group, and there are none exactly when all groups are empty |
| MonthlyOverview.DayPreview | monthly-overview.js:299-362 | the day's tasks, habits, notes and events; log tasks in no section; the empty-day message exactly when no section was created |
| MonthlyOverview.DayIndicators | monthly-overview.js:247-297 | a dot for tasks, habits or events exactly when the day has one |
| MonthlyOverview.IndicatorsMatchPreview | monthly-overview.js:247-362 | a cell's dots agree with its day's preview sections |
| MonthlyOverview.MonthlyOverviewManager.constructor | monthly-overview.js:15-23 | all filters on, every event on the calendar |
| MonthlyOverview.MonthlyOverviewManager.ToggleFilter | monthly-overview.js:109-112 | only the named flag flips and the events are rebuilt |
| MonthlyOverview.MonthlyOverviewManager.ShowAll | monthly-overview.js:83-97 | all three flags on, events rebuilt |
| Signup.ValidEmailMatches | signup.js:55-56 | every text the email scan accepts matches the pattern |
| Signup.PatternPassesScan | signup.js:55-56 | every text matching the pattern passes the scan |
| Signup.ValidEmailMatchesPattern | signup.js:55-56 | the scan accepts exactly the texts matching the email pattern |
| Signup.ValidEmailIsTrimmed | signup.js:56-80 | a valid email has nothing to trim |
| Signup.OneEmojiIsLongEnough | signup.js:48 | a one-emoji name is two code units long and passes the name check; a one-letter name fails it |
| Signup.ValidateForm | signup.js:37-86 | each check shows its own error exactly when it fails (the name's trimmed `length` in UTF-16 units at least 2); registration happens exactly when all four pass, with trimmed name and email and verbatim password |
| Signup.Registered | signup.js:88-99 | the user is logged in with the email and name; no other key changes |
| Signup.SignupRedirect | signup.js:102-107 | a logged-in visitor is sent to index.html, others stay |
| Login.Remembered | login.js:56-62 | the email is stored when the box is checked and removed otherwise; no other key changes |
| Login.ValidateForm | login.js:33-69 | both checks run (the password's `length` in UTF-16 units at least 6); authentication exactly when both pass, and only then the remember-me key is updated |
| Login.Authenticated | login.js:71-79 | the user is logged in under the email; no other key changes |
| Login.LoadRememberedEmail | login.js:82-88 | a stored non-empty email fills the field and checks the box; otherwise both stay |
| Login.RememberRoundTrip | login.js:56-88 | a remembered email comes back with the box checked; a forgotten one leaves field and box as they were |
| Login.CurrentPage | login.js:93 | the text after the last '/' of the path |
| Login.CurrentPageAfterSlash | login.js:93 | a path ending in a slash and a name without slashes has that name as its page |
| Login.LoginRedirect | login.js:91-98 | redirect to login.html exactly when not logged in and not on signup.html |
| Login.LoginPageRedirectsToItself | login.js:91-98 | as written, a visitor who is not logged in is sent from login.html to login.html on every load |
| Login.IntendedLoginRedirect | login.js:91-98 | the intended redirect: to login.html exactly when not logged in and on neither signup.html nor login.html, and never to the page itself |
| Login.IntendedRedirectAgrees | login.js:91-98 | away from login.html the intended redirect is the one written |
| Login.Logout | login.js:101-105 | only the login flag and email are removed |
| Login.SessionRedirects | login.js:71-107 | after logging in or registering no login redirect happens; after logout it happens everywhere but signup.html; the remembered email survives logout |

## Left out

- Rendering and event wiring are not modelled: HTML templates, class toggles, listeners, alerts and page reloads.
- JSON text is not modelled. Stored records are taken to come back with the fields they were saved with; for goals that is not all they lose (next line).
- Goals.GoalsManager.AddMilestone, Goals.GoalsManager.ToggleMilestone, Goals.GoalsManager.DeleteMilestone: the model's goals are `Goal` objects with their methods. After a reload, goals.js:373 restores the goals with `JSON.parse`, which gives plain objects without `Goal.prototype`. Then `goal.addMilestone` (goals.js:304) and `goal.updateProgress` (goals.js:319, 331) throw a TypeError. Toggling and deleting have by then already changed the milestones in memory, and nothing is saved. The model describes only goals created in the current page session.
- The file download and upload of export and import are not modelled. An unreadable file is an absent bundle, and a bundle field JavaScript treats as false is absent.
- `loadSettings` takes only a stored preferences value. A stored non-preferences value under the key is ignored rather than parsed.
- habits.js `addHabit` is not modelled: it posts to a server address the page never defines.
- The FullCalendar updates of habits.js (`calendarEventId` and the calendar event adds and removes) are not modelled; they call into a library.
- calendar.js, server.js, finance.js, theme-manager.js and auth.js are not part of this model.
- The theme toggles of the sign-up and login pages, Google Fonts loading and `applyTheme`/`applyColorScheme`/`applyFont` are not modelled; they only style the page.
- Drag-and-drop reordering of tasks is not modelled; it depends on floating-point element positions.
- Time zones and daylight saving are not modelled. Calendar days are UTC days, and `setDate(getDate() ± n)` moves by n × 86 400 000 ms.
- The ISO text is not modelled beyond `Mood.DatePart`. Mood keys and habit dates are day numbers.
- App.AsciiLower: lower-cases only ASCII letters, where `toLowerCase` handles all of Unicode. For ASCII text it gives the same result. The filter names it compares against are ASCII.
- The goal deadline is kept as the answer text. Whether `new Date(text)` parses it is not modelled.
- `new Date(null)` for a task without a due date is the epoch, instant 0.
- mood.js as shipped never runs. The class closes at mood.js:115. `renderMoodHistory()` at mood.js:116 is then a call at top level, the block after it a statement, and the `return` at mood.js:118 a `return` outside any function, which is a syntax error. So the page defines no `MoodTracker`, and the `DOMContentLoaded` handler at the end of the file is never registered. Even with the stray block removed, mood.js:10 and mood.js:112 call `this.renderMoodHistory()`, which the class does not have. The `Mood` module models the evidently intended class, with `renderMoodHistory` as one of its methods.
- mood.js `renderMoodHistory` is not modelled: it is calendar-grid layout.
- Habits.HabitManager.EditHabit: states that the named habit is renamed and that no other habit's name changes. The other fields are outside its frame, so they stay unchanged by construction rather than by a stated postcondition.
- Goals.Recomputed: rounds the exact ratio done/total, where goals.js:30 rounds the double `(done / total) * 100`. The same holds for Goals.Goal.UpdateProgress and for the progress that Goals.GoalsManager.AddMilestone, Goals.GoalsManager.ToggleMilestone and Goals.GoalsManager.DeleteMilestone recompute. The two differ where the double falls just below a half the exact ratio reaches. For 23 of 40 milestones the double is 57.49999999999999 and the page shows 57, where the model gives 58. Up to 200 milestones the differing pairs are 23/40, 46/80, 69/120, 92/160, 29/200, 57/200, 113/200 and 115/200. The 0..100 bounds and the threshold for 100 hold for the double computation too: 199/200 gives exactly 99.5.
- Signup.Registered, Login.Authenticated: apply their storage writes at once, where signup.js:90-98 and login.js:73-78 make them one second later in a `setTimeout`. What the page does in between is not modelled.
- DailyLog.MigrateAllClosedForm: assumes the stamps of one migration are distinct and new. daily-log.js:226 takes a fresh `Date.now()` for every copy within one synchronous loop, so copies made in the same millisecond share an id. DailyLog.MigrateAll models the loop for any stamps, repeated ones included; only the closed form needs them distinct.

## Findings

| source | as written | input that shows it | evidently intended | confidence | as-written member | corrected member |
|---|---|---|---|---|---|---|
| login.js:91-98, 108-112 | `checkLoginStatus` runs on every load of the login page and sends a visitor who is not logged in to login.html unless the page is signup.html | a visitor who is not logged in opens /login.html: the page sets `location.href` to login.html, which loads the page again, without end | send to login.html only from pages other than login.html and signup.html | high; not executed | Login.LoginPageRedirectsToItself | Login.IntendedLoginRedirect |
