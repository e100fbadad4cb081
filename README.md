# Gym buddy: a model of the workout tracker's core

Gym buddy is a workout tracker. Its server keeps six tables:

- training sessions, and the exercises of each session;
- the target sets ("series") of each exercise;
- the sets a user has logged;
- body measurements;
- one settings row per user.

The server offers handlers that seed the catalogue, read it, log sets and measurements, and read or update a user's settings. Its inputs are validated by zod schemas. The client is made of React components:

- a rest timer;
- a settings panel;
- an exercise screen that walks the user through the sets of one exercise;
- a body-measurement tracker.

This project models that core in Dafny and proves properties of the model.

Layout, one module per source file or component:

- `Wrappers`, `Text`: `Option`/`Result`, decimal text, JavaScript's `parseInt`, its truncating `%`, and `String.includes`.
- `Tables`: the rows of `server/src/db/schema.ts`, the two enums, and id allocation.
- `Validation`: the zod schemas of `server/src/schema.ts` as predicates, and the `limit`/`offset` defaults as a parser.
- `Rows`: filtering, ordering (a descending `ORDER BY` is specified as "some ordering permutation", since ties are unordered), and `LIMIT`/`OFFSET`.
- `Database`: a `Store` class whose sequence fields are the tables. Its methods are the insert and update statements, and they allocate serial ids.
- `Seeder`, `SettingsHandlers`, `Mutations`, `Queries`: the handlers. A handler that only reads is a function of the tables. A handler that writes is a pure step on the tables, plus a method on the `Store` whose postcondition ties the new state to that step.
- `RestTimer`, `SettingsPanel`, `ExerciseScreen`, `MetricsScreen`: the components.
  - Each component's state is a value, and each handler is a step function on it, with lemmas about sequences of steps.
  - A class with the component's state cells has one method per handler. Each method's postcondition is the step.
  - A server answer that a component awaits is a parameter of the handler.

Times are integers, and the clock is a `now` parameter. `real` columns are modelled as integers.

## Model

| member | source | states |
|---|---|---|
| Text.JsRem | client/src/components/WorkoutTimer.tsx:66 | JavaScript's `%` by a positive divisor: equal to the mathematical remainder for non-negative operands, strictly between minus and plus the divisor, never positive for a negative dividend, and differing from the dividend by a multiple of the divisor |
| Text.ParseNatToString | client/src/components/UserSettingsPanel.tsx:68-74 | reading back the decimal text of a natural number gives the number |
| Text.JsParseIntOfIntToString | client/src/components/UserSettingsPanel.tsx:127 | `parseInt` of the decimal text of any integer, negative ones included, gives the integer back |
| Text.JsParseInt | client/src/components/UserSettingsPanel.tsx:127 | `parseInt` yields no number exactly when no digit follows the optional sign |
| Text.ContainsIffOccurs | server/src/handlers/initialize_training_data.ts:94-106 | `includes` holds exactly when the pattern occurs at some position |
| Tables.ParseTrainingType | server/src/schema.ts:5 | a string is accepted as a training type exactly when it names one, and the type accepted is the one it names |
| Tables.ParseMetricType | server/src/schema.ts:8 | the same for the seven body-measurement types |
| Tables.EnumsListed | server/src/db/schema.ts:6-7 | four training types and seven measurement types, each listed once |
| Tables.SessionRows | server/src/db/schema.ts:11-15 | a multi-row insert gives row i the id first + i and the insert time |
| Tables.AppendKeepsIdsFresh | server/src/db/schema.ts:63 | appending a row with the next serial id keeps ids increasing and below the counter |
| Tables.AppendBlockKeepsIdsFresh | server/src/db/schema.ts:11 | the same for a block of rows with consecutive ids |
| Tables.IdsFreshUnique | server/src/db/schema.ts:40 | serial ids identify rows: two positions with the same id are the same position |
| Tables.OneRowPerUser | server/src/db/schema.ts:64 | `user_id` is unique: two rows of the same user are the same row |
| Validation.ParsePage | server/src/schema.ts:121-122 | the page is accepted exactly when a given limit is positive and a given offset is not negative; an omitted limit becomes 50 and an omitted offset 0; given values are kept |
| Validation.ParseLogsQuery | server/src/schema.ts:118-123 | the log query is accepted exactly when its page is; user and exercise filter are passed through |
| Validation.ParseMetricsQuery | server/src/schema.ts:127-132 | the same for the measurement query |
| Validation.ValidSeriesNumber | server/src/schema.ts:51 | a set number is one of 1, 2, 3, 4 |
| Validation.ValidTargetSeries | server/src/schema.ts:28 | sets per exercise are 2, 3 or 4 |
| Validation.ExerciseRecordValid | server/src/schema.ts:23-30 | an exercise record asks for 2, 3 or 4 sets |
| Validation.SeriesRecordValid | server/src/schema.ts:35-42 | a series record has set number 1 to 4 and positive target repetitions and weight |
| Validation.LogRecordValid | server/src/schema.ts:47-56 | a log record has set number 1 to 4 and positive repetitions and weight |
| Validation.MetricRecordValid | server/src/schema.ts:61-69 | a measurement record has a positive value |
| Validation.SettingsRecordValid | server/src/schema.ts:74-82 | a settings record has a positive timer duration |
| Validation.LogInputValid | server/src/schema.ts:87-94 | the log input schema accepts exactly the inputs whose fields the log record schema accepts, whatever id and times the row gets |
| Validation.MetricInputValid | server/src/schema.ts:98-104 | the measurement input schema accepts exactly the inputs whose fields the record schema accepts |
| Validation.SettingsUpdateValid | server/src/schema.ts:108-113 | an update passes exactly when it carries no duration or one the settings record schema accepts |
| Rows.FilterAppend | server/src/handlers/get_exercises_by_session.ts:10-13 | a `WHERE` on a concatenation is the concatenation of the `WHERE`s |
| Rows.FilterMultiset | server/src/handlers/get_user_exercise_logs.ts:21-23 | a `WHERE` keeps every matching row as often as it is stored and no other row |
| Rows.FilterIncreasing | server/src/handlers/get_exercises_by_session.ts:10-13 | selecting from rows stored in id order keeps them in id order |
| Rows.Sort | server/src/handlers/get_user_exercise_logs.ts:24 | the insertion sort returns an ordered permutation of its input |
| Rows.SortedPermutationUnique | server/src/handlers/get_user_exercise_logs.ts:24 | with pairwise distinct keys there is only one ordered permutation, so `ORDER BY` is deterministic |
| Rows.Page | server/src/handlers/get_user_exercise_logs.ts:25-26 | at most `limit` rows: those from position `offset` on, in order, as many as are left up to the limit |
| Rows.PagesDisjoint | server/src/handlers/get_user_exercise_logs.ts:25-26 | pages of an ordered result with distinct keys at non-overlapping offsets share no row |
| Rows.SortedPage | server/src/handlers/get_body_metrics.ts:22-28 | filter, order and page: the `[offset, offset + limit)` slice of an ordered permutation of the selected rows, so at most `limit` rows, each selected, in order |
| Rows.SortedPageDetermined | server/src/handlers/get_body_metrics.ts:22-28 | with distinct keys the page is the slice of every ordering permutation of the selection |
| Rows.SortedPagesDisjoint | server/src/handlers/get_body_metrics.ts:26-27 | pages of the same ordered selection at non-overlapping offsets share no row, ties in the sort key included |
| Database.Store.constructor | server/src/db/schema.ts:10-70 | an empty database: every table empty and the ids start at 1 |
| Database.Store.InsertSessions | server/src/handlers/initialize_training_data.ts:31-34 | the drafts are appended with consecutive ids and returned |
| Database.Store.InsertExercises | server/src/handlers/initialize_training_data.ts:80-83 | the same for exercises |
| Database.Store.InsertSeries | server/src/handlers/initialize_training_data.ts:118-121 | the same for series |
| Database.Store.InsertLog | server/src/handlers/create_user_exercise_log.ts:20-30 | one log row appended with the next id; the other tables unchanged |
| Database.Store.InsertMetric | server/src/handlers/create_body_metric.ts:9-18 | one measurement row appended with the next id |
| Database.Store.InsertSettings | server/src/handlers/get_user_settings.ts:24-32 | one settings row appended for a user without one, so each user keeps at most one row |
| Database.Store.UpdateSettingsRow | server/src/handlers/update_user_settings.ts:32-36 | the row at the user's position replaced, with its id and user kept |
| Seeder.RepScheme | server/src/handlers/initialize_training_data.ts:90-106 | the first-match rule on the exercise name: repetitions always positive, weight zero exactly for plank, pull-ups and push-ups |
| Seeder.SeriesUpTo | server/src/handlers/initialize_training_data.ts:88-113 | slot k of an exercise is set k + 1 with the name rule's targets |
| Seeder.SeriesPlan | server/src/handlers/initialize_training_data.ts:86-115 | the collected series count equals the exercises' total number of sets |
| Seeder.SeriesOfExercise | server/src/handlers/initialize_training_data.ts:86-115 | with distinct exercise ids, the collected series of one exercise are exactly its sets 1..target_series in order |
| Seeder.SeededSeriesPerExercise | server/src/handlers/initialize_training_data.ts:86-121 | for the inserted exercises each one gets exactly its own set slots |
| Seeder.SeedSessions | server/src/handlers/initialize_training_data.ts:15-28 | eight sessions, two of each training type, in the order pull, push, legs, other |
| Seeder.SeedExercises | server/src/handlers/initialize_training_data.ts:37-77 | twenty-four exercises, three per session in session order, each with 2 to 4 sets |
| Seeder.SeededExerciseLinks | server/src/handlers/initialize_training_data.ts:37-83 | each inserted exercise points at the session at its seed position and passes the exercise record schema |
| Seeder.SeedLinksInRange | server/src/handlers/initialize_training_data.ts:37-77 | every exercise literal names one of the eight sessions |
| Seeder.SeedSlotCount | server/src/handlers/initialize_training_data.ts:37-115 | the seeded exercises have eighty set slots in all |
| Seeder.SeedTargetsOfSeeds | server/src/handlers/initialize_training_data.ts:37-77 | the exercise literals ask for four sets at eight positions and three at every other |
| Seeder.SeedSlotsTotal | server/src/handlers/initialize_training_data.ts:37-77 | those target series add up to eighty |
| Seeder.BodyweightSeriesFailRecordSchema | server/src/handlers/initialize_training_data.ts:94-99 | the series seeded for a bodyweight exercise have weight 0, which the series record schema (server/src/schema.ts:40) rejects; "Pull-ups" is such an exercise |
| Seeder.CollectSeries | server/src/handlers/initialize_training_data.ts:86-115 | the nested loop collects exactly the series plan of the inserted exercises |
| Seeder.SeedCatalogue | server/src/handlers/initialize_training_data.ts:31-83 | for any session and exercise literals whose links name an inserted session: the sessions, then the exercises linked to them by position, are appended with consecutive ids and returned |
| Seeder.SeedSeries | server/src/handlers/initialize_training_data.ts:86-121 | the series plan of the given exercises is appended with consecutive ids from the given first id and returned |
| Seeder.Seed | server/src/handlers/initialize_training_data.ts:31-121 | the three inserts in turn, for any literals whose links name an inserted session; the other tables are unchanged |
| Seeder.InitializeTrainingData | server/src/handlers/initialize_training_data.ts:12-133 | sessions, then exercises linked to them, then their series are appended with consecutive ids and returned; nothing stored is consulted |
| SettingsHandlers.FindSettings | server/src/handlers/get_user_settings.ts:10-16 | the first row of the user, or none exactly when the user has no row |
| SettingsHandlers.DefaultSettings | server/src/handlers/get_user_settings.ts:24-30 | a new row has duration 120, dark mode on and reminders on |
| SettingsHandlers.GetOrCreate | server/src/handlers/get_user_settings.ts:10-38 | the stored row and an unchanged table, or a default row appended; either way a row of the user comes back, and with one row per user before, it is afterwards the user's only row |
| SettingsHandlers.GetOrCreateStable | server/src/handlers/get_user_settings.ts:15-21 | a second call finds the row the first returned and inserts nothing |
| SettingsHandlers.DistinctUsersDistinctRows | server/src/handlers/get_user_settings.ts:24-34 | two users asking in turn get rows with different ids |
| SettingsHandlers.MergeSettings | server/src/handlers/update_user_settings.ts:17-30 | every provided field overwrites, every omitted one is kept, `updated_at` becomes now, and id, user and `created_at` stay |
| SettingsHandlers.InsertedSettings | server/src/handlers/update_user_settings.ts:41-47 | an inserted row is the defaults with the provided fields merged in |
| SettingsHandlers.Upsert | server/src/handlers/update_user_settings.ts:10-52 | the user's row is merged in place, or a row is inserted; other users' rows unchanged; with one row per user before, the returned row is afterwards the user's only row |
| SettingsHandlers.MergeIdempotent | server/src/handlers/update_user_settings.ts:22-30 | sending the same update twice equals sending it once, apart from `updated_at` |
| SettingsHandlers.FullUpdateOverwrites | server/src/handlers/update_user_settings.ts:22-30 | an update with all three fields does not depend on the stored values |
| SettingsHandlers.UpsertKeepsRecordsValid | server/src/schema.ts:77 | validated updates keep every stored duration positive |
| SettingsHandlers.GetUserSettings | server/src/handlers/get_user_settings.ts:7-38 | the store after the call and the returned row are those of `GetOrCreate` |
| SettingsHandlers.UpdateUserSettings | server/src/handlers/update_user_settings.ts:7-52 | the store after the call and the returned row are those of `Upsert` |
| Mutations.ErrorMessage | server/src/handlers/create_user_exercise_log.ts:16 | the message is the fixed prefix "Exercise with id ", the id, and the fixed suffix " does not exist" |
| Mutations.ErrorMessageNamesId | server/src/handlers/create_user_exercise_log.ts:16 | the error message carries the missing id, readable back between its fixed prefix and suffix |
| Mutations.LogRow | server/src/handlers/create_user_exercise_log.ts:20-28 | the inserted log has the input's fields; `completed_at` is the given time or else now |
| Mutations.CreateLog | server/src/handlers/create_user_exercise_log.ts:10-30 | an error naming the id, and no change, exactly when the exercise is missing; otherwise exactly one row appended |
| Mutations.SeriesNumberNotChecked | server/src/handlers/create_user_exercise_log.ts:10-17 | only existence is checked: any set number of an existing exercise is accepted |
| Mutations.LogRowValid | server/src/schema.ts:87-94 | a validated log input gives a row the log record schema accepts |
| Mutations.CreateUserExerciseLog | server/src/handlers/create_user_exercise_log.ts:7-38 | the store after the call and the result are those of `CreateLog` |
| Mutations.MetricRow | server/src/handlers/create_body_metric.ts:9-16 | the inserted measurement has the input's fields; `recorded_at` is the given time or else now |
| Mutations.MetricRowValid | server/src/schema.ts:98-104 | a validated measurement input gives a row the record schema accepts |
| Mutations.CreateBodyMetric | server/src/handlers/create_body_metric.ts:6-22 | exactly one measurement row appended and returned, whatever is stored |
| Queries.TrainingSessions | server/src/handlers/get_training_sessions.ts:8-12 | every stored session, in stored order, with its description as stored (null included) |
| Queries.SeededTrainingSessions | server/src/handlers/get_training_sessions.ts:8-12 | after seeding, the sessions read back are the eight seeded ones, with consecutive ids and two of each type |
| Queries.ExercisesBySession | server/src/handlers/get_exercises_by_session.ts:10-15 | exactly the exercises of the session, in stored order |
| Queries.ExercisesBySessionAppend | server/src/handlers/get_exercises_by_session.ts:10-13 | the selection distributes over a table that grows by appending |
| Queries.ExercisesBySessionBlock | server/src/handlers/get_exercises_by_session.ts:10-13 | for exercises stored three per session, the selection is that session's block of three |
| Queries.SeededSessionExercises | server/src/handlers/get_exercises_by_session.ts:10-15 | every seeded session has three exercises |
| Queries.FindExercise | server/src/handlers/get_exercise_with_series.ts:14-23 | none exactly when no exercise has the id; otherwise a stored exercise with that id |
| Queries.GetExerciseWithSeries | server/src/handlers/get_exercise_with_series.ts:11-40 | null exactly when the exercise is missing; otherwise the stored exercise with its id and exactly its series rows, each as often as stored and no other |
| Queries.UserExerciseLogs | server/src/handlers/get_user_exercise_logs.ts:7-27 | the `[offset, offset + limit)` slice of a newest-first permutation of the user's logs (of the exercise when given): at most `limit` stored logs, newest first |
| Queries.UserExerciseLogsIsSlice | server/src/handlers/get_user_exercise_logs.ts:21-27 | the result is the `offset`/`limit` slice of the newest-first order, and its length is what is left after the offset, capped by the limit |
| Queries.UserExerciseLogsPagesDisjoint | server/src/handlers/get_user_exercise_logs.ts:25-26 | pages at non-overlapping offsets share no log id, also when the logs share their completion time |
| Queries.BodyMetrics | server/src/handlers/get_body_metrics.ts:8-28 | the `[offset, offset + limit)` slice of a newest-first permutation of the user's measurements (of the type when given): at most `limit` stored measurements, newest first |
| Queries.BodyMetricsIsSlice | server/src/handlers/get_body_metrics.ts:22-28 | the result is the `offset`/`limit` slice of the newest-first order |
| Queries.BodyMetricsPagesDisjoint | server/src/handlers/get_body_metrics.ts:26-27 | pages at non-overlapping offsets share no measurement id, ties in `recorded_at` included |
| Queries.LatestCompletedAt | server/src/handlers/get_last_exercise_performance.ts:10-29 | none exactly when the user never logged the exercise; otherwise the time of one such log, and no such log is later |
| Queries.LatestIsFirstOfNewestFirst | server/src/handlers/get_last_exercise_performance.ts:20-21 | the first row of the newest-first order, whatever the tie order, has that time |
| Queries.LastExercisePerformance | server/src/handlers/get_last_exercise_performance.ts:7-42 | empty exactly when there is no log; otherwise a permutation of the user's logs of the exercise at the latest time (each as often as stored, no other) in ascending set order |
| RestTimer.PadStart2 | client/src/components/WorkoutTimer.tsx:67 | pads to two characters with leading zeros and keeps longer texts |
| RestTimer.FormatTime | client/src/components/WorkoutTimer.tsx:64-68 | for a non-negative time: digits, a colon and exactly two digits; four characters below ten minutes |
| RestTimer.PaddedSeconds | client/src/components/WorkoutTimer.tsx:66-67 | the padded seconds of a time are two characters and read back as the seconds |
| RestTimer.ClockRoundTrip | client/src/components/WorkoutTimer.tsx:64-68 | reading the clock text back gives the time |
| RestTimer.ClockInjective | client/src/components/WorkoutTimer.tsx:91 | different times show different clock texts |
| RestTimer.Tick | client/src/components/WorkoutTimer.tsx:37-53 | nothing unless running; otherwise one more second elapsed, and from the last second zero, stopped and `onComplete` called once; consistency kept |
| RestTimer.AddTime | client/src/components/WorkoutTimer.tsx:75-78 | thirty seconds more on both counters: elapsed time and running state unchanged |
| RestTimer.Skip | client/src/components/WorkoutTimer.tsx:70-73 | stopped, `onComplete` called once, the time kept; with time left the card stays rendered |
| RestTimer.Load | client/src/components/WorkoutTimer.tsx:22-26 | a loaded duration on both counters, nothing elapsed; no settings change nothing |
| RestTimer.CountdownCompletes | client/src/components/WorkoutTimer.tsx:37-53 | a running timer reaches zero after exactly its time left, is then stopped and hidden, and has called `onComplete` exactly once more |
| RestTimer.NoEarlyCompletion | client/src/components/WorkoutTimer.tsx:37-52 | before its last second the timer still runs and has not completed |
| RestTimer.StoppedStays | client/src/components/WorkoutTimer.tsx:37 | a stopped timer never changes, so `onComplete` is not called again by the countdown |
| RestTimer.TimerView.constructor | client/src/components/WorkoutTimer.tsx:14-16 | two minutes on both counters, running |
| RestTimer.TimerView.OnTick | client/src/components/WorkoutTimer.tsx:38-53 | the state after the interval callback is `Tick` of the state before |
| RestTimer.TimerView.HandleAddTime | client/src/components/WorkoutTimer.tsx:75-78 | the state after is `AddTime` of the state before |
| RestTimer.TimerView.HandleSkip | client/src/components/WorkoutTimer.tsx:70-73 | the state after is `Skip` of the state before |
| RestTimer.TimerView.LoadSettings | client/src/components/WorkoutTimer.tsx:19-32 | the state after is `Load` of the state before |
| SettingsPanel.FormatTimerDisplay | client/src/components/UserSettingsPanel.tsx:68-74 | "0s" for zero; a non-negative duration ends in "m" exactly on whole minutes of at least one minute, and otherwise in "s" |
| SettingsPanel.TimerDisplayRoundTrip | client/src/components/UserSettingsPanel.tsx:68-74 | reading the duration text back gives the seconds |
| SettingsPanel.TimerDisplayInjective | client/src/components/UserSettingsPanel.tsx:133 | different durations show different texts |
| SettingsPanel.LeadingDigitsStop | client/src/components/UserSettingsPanel.tsx:73 | the digits of the minutes end at the "m" that follows them |
| SettingsPanel.TimerInput | client/src/components/UserSettingsPanel.tsx:127 | never zero; text that is not a number gives 120; a nonzero number is kept |
| SettingsPanel.TimerInputEcho | client/src/components/UserSettingsPanel.tsx:127 | typing an integer keeps it, except zero, which becomes 120; negatives are kept |
| SettingsPanel.SavePayload | client/src/components/UserSettingsPanel.tsx:50-55 | Save always sends all three fields |
| SettingsPanel.SaveStoresForm | client/src/components/UserSettingsPanel.tsx:50-57 | the input schema lets the save through exactly when the duration is positive; then, whatever was stored, the user's row holds exactly the form's values |
| SettingsPanel.LoadThenSaveKeeps | client/src/components/UserSettingsPanel.tsx:29-57 | loading and saving straight back changes only `updated_at` and adds no row |
| SettingsPanel.SettingsForm.constructor | client/src/components/UserSettingsPanel.tsx:22-24 | before loading: 120 seconds, dark mode on, reminders on |
| SettingsPanel.SettingsForm.Load | client/src/components/UserSettingsPanel.tsx:29-35 | a loaded row is copied field for field and its dark mode reported; nothing loaded changes nothing |
| SettingsPanel.SettingsForm.EditTimer | client/src/components/UserSettingsPanel.tsx:127 | the duration becomes `TimerInput` of the typed text |
| SettingsPanel.SettingsForm.ToggleDarkMode | client/src/components/UserSettingsPanel.tsx:150-154 | the dark-mode switch sets the form's dark mode to its new position, nothing else changes |
| SettingsPanel.SettingsForm.ToggleReminder | client/src/components/UserSettingsPanel.tsx:167-171 | the reminder switch sets the form's reminder flag to its new position, nothing else changes |
| SettingsPanel.SettingsForm.Save | client/src/components/UserSettingsPanel.tsx:50-57 | the update sent is `SavePayload` of the form, and the form is unchanged |
| ExerciseScreen.FindLog | client/src/components/ExerciseView.tsx:50-52 | the first last-performance log with the set number, or none exactly when there is none |
| ExerciseScreen.InitialPerformance | client/src/components/ExerciseView.tsx:49-59 | one open entry per series in series order; each value is the non-zero value of the first matching last log, and the target when there is no such log or its value is zero |
| ExerciseScreen.CompletedCount | client/src/components/ExerciseView.tsx:121-123 | never more than the number of entries |
| ExerciseScreen.NothingDoneInitially | client/src/components/ExerciseView.tsx:49-59 | a freshly loaded screen has no completed set |
| ExerciseScreen.PrefillFromLatestWorkout | client/src/components/ExerciseView.tsx:39-59 | the log that decides a set is one of the latest workout for that set, found exactly when that workout logged the set; its non-zero values are used and the targets fill in otherwise |
| ExerciseScreen.UpdateSeries | client/src/components/ExerciseView.tsx:73-81 | only the edited field of set n changes |
| ExerciseScreen.UpdateLastWins | client/src/components/ExerciseView.tsx:73-81 | editing the same field twice equals the last edit |
| ExerciseScreen.UpdateKeepsProgress | client/src/components/ExerciseView.tsx:73-81 | editing never changes the number of completed sets |
| ExerciseScreen.MarkCompleted | client/src/components/ExerciseView.tsx:100-104 | set n is marked done, the rest unchanged, and the completed count never drops |
| ExerciseScreen.CompleteAddsOne | client/src/components/ExerciseView.tsx:100-104 | with distinct set numbers, completing an open set raises the count by exactly one |
| ExerciseScreen.FindEntry | client/src/components/ExerciseView.tsx:84-85 | the first entry of set n, or none exactly when there is none |
| ExerciseScreen.LogRequest | client/src/components/ExerciseView.tsx:89-95 | the log sent carries the user, the exercise, the set number and the entry's values, without a time |
| ExerciseScreen.CompleteSet | client/src/components/ExerciseView.tsx:83-119 | no entry or a failed save changes nothing; otherwise the set is done, and either the next set is current and the timer started, or success is shown |
| ExerciseScreen.WorkThroughSets | client/src/components/ExerciseView.tsx:83-119 | completing the sets in order: after k sets exactly the first k are done; before the last, set k + 1 is current with its button enabled (lines 281-284) and the timer started k times; after the last, success is shown and the timer was started one time fewer |
| ExerciseScreen.ExerciseViewState.constructor | client/src/components/ExerciseView.tsx:29-34 | no entries, set 1 current, no success shown |
| ExerciseScreen.ExerciseViewState.Loaded | client/src/components/ExerciseView.tsx:48-61 | with an exercise the entries become `InitialPerformance`; without one nothing changes |
| ExerciseScreen.ExerciseViewState.HandleSeriesUpdate | client/src/components/ExerciseView.tsx:73-81 | the entries become `UpdateSeries` of the old ones |
| ExerciseScreen.ExerciseViewState.HandleCompleteSet | client/src/components/ExerciseView.tsx:83-119 | the request is `LogRequest` of the entry (none without an entry), and the state after is `CompleteSet` of the state before |
| MetricsScreen.FindOptionFrom | client/src/components/BodyMetricsTracker.tsx:53 | the first option of the type, or none exactly when no option has it |
| MetricsScreen.MetricOptionsCoverTypes | client/src/components/BodyMetricsTracker.tsx:17-25 | the selector lists the seven types of the schema in schema order, so the lookup of a type never fails |
| MetricsScreen.OptionUnits | client/src/components/BodyMetricsTracker.tsx:17-25 | the selector measures body weight in kilograms and every other type in centimetres |
| MetricsScreen.DefaultUnit | client/src/components/BodyMetricsTracker.tsx:52-57 | kilograms for body weight, centimetres for every other type |
| MetricsScreen.LatestOfType | client/src/components/BodyMetricsTracker.tsx:84-87 | none exactly when the type has no measurement; otherwise one of that type, none of that type is more recent, and no earlier-listed one is as recent |
| MetricsScreen.LatestIsHeadOfNewestFirst | client/src/components/BodyMetricsTracker.tsx:85-86 | the head of the type's measurements sorted newest first is as recent as the selected one |
| MetricsScreen.NewestPrependedIsLatest | client/src/components/BodyMetricsTracker.tsx:73 | a measurement newer than all of its type becomes the latest once prepended |
| MetricsScreen.SubmitGuardOnNumbers | client/src/components/BodyMetricsTracker.tsx:61 | a typed integer passes the guard exactly when it is positive; empty text never does |
| MetricsScreen.MetricRequest | client/src/components/BodyMetricsTracker.tsx:61-70 | a request exactly when the guard passes and the text reads as a number; it carries user, type, value and unit, and passes the input schema |
| MetricsScreen.History | client/src/components/BodyMetricsTracker.tsx:227 | the first ten measurements, or all when fewer |
| MetricsScreen.HistoryAfterPrepend | client/src/components/BodyMetricsTracker.tsx:73 | after recording, the history opens with the new measurement and keeps nine of the earlier ones |
| MetricsScreen.MetricsForm.constructor | client/src/components/BodyMetricsTracker.tsx:28-34 | no measurements, body weight selected, empty value, unit "kg" |
| MetricsScreen.MetricsForm.Loaded | client/src/components/BodyMetricsTracker.tsx:39-40 | the loaded list replaces the old one |
| MetricsScreen.MetricsForm.SelectType | client/src/components/BodyMetricsTracker.tsx:52-57 | the type is selected; the unit is reset to the type's default when the type changes and kept when the same type is picked again |
| MetricsScreen.MetricsForm.EditValue | client/src/components/BodyMetricsTracker.tsx:144 | the value input's text becomes the form's value |
| MetricsScreen.MetricsForm.EditUnit | client/src/components/BodyMetricsTracker.tsx:154 | the unit input's text becomes the form's unit |
| MetricsScreen.MetricsForm.Submit | client/src/components/BodyMetricsTracker.tsx:59-82 | the request is `MetricRequest` of the form; a created measurement is prepended and the value cleared; otherwise nothing changes |

## Left out

- Network, database driver, tRPC wiring and the server entry point (`server/src/index.ts`): the handlers are functions or methods on the tables. A thrown database error is not modelled; only the handlers' own thrown error is (as `Err`).
- `client/src/App.tsx` and `client/src/components/TrainingSessionList.tsx` are not part of this model.
- Floating point: `real` columns and `parseFloat` are modelled with integers. The body-measurement value is read with the `parseInt` model, so fractional values are not modelled.
- Clock: `new Date()` is the `now` parameter, and timestamps are integers.
- Rows.SortedPage: an `ORDER BY` leaves rows with equal keys in an order the database chooses; the result is proved to be the page of some ordered permutation of the selection, and `Sort` fixes which one. That the page is the same for every such order is proved only for distinct keys (`Rows.SortedPageDetermined`), because with ties it is not.
- Queries.UserExerciseLogs: the page is the slice of some newest-first order of the matching logs; equality with the slice of every such order is proved only for distinct completion times (`Queries.UserExerciseLogsIsSlice`). Disjointness of pages holds for pages of the one order the model takes.
- Queries.BodyMetrics: the same, with `recorded_at` (`Queries.BodyMetricsIsSlice`).
- Queries.LastExercisePerformance: logs of the same set at the latest time appear in the one order `Sort` chooses among them.
- Row order of plain selects: the stored (insertion) order is assumed.
- Ids: one counter serves every table, where the database has one sequence per table. The serial ids are increasing in both.
- `SettingsHandlers.GetOrCreate`: the `null` in the signature of `getUserSettings` is never produced, so the model always returns a row.
- `Seeder.InitializeTrainingData`: it does not model the seeding test file's expectations. The rep rule is the name-matching chain of the code.
- Foreign keys: the schema declares relations but no constraints, so log and series rows may point at missing rows. Only `createUserExerciseLog` checks existence.
- `MetricsScreen.MetricRequest`: a value that is not a number passes the client guard (`NaN <= 0` is false). The server schema would reject such a request, so the model sends none.
- Client presentation: progress percentages, success banners and their timeouts, loading and saving flags, notifications, icons, `getMetricIcon` and `getMetricLabel`.
- Concurrency: overlapping requests, and a handler answered after a later one, are not modelled. A handler runs to completion with the answer as a parameter (`saved`, `created`, `result`).
- `RestTimer.ClockRoundTrip` and `SettingsPanel.TimerDisplayRoundTrip`: proved only for non-negative durations. The settings input can hold a negative duration (see `SettingsPanel.TimerInputEcho`), and its text is then not modelled.
