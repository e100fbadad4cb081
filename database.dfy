/** The database as the handlers see it: six tables held as sequences of rows
    in insertion order, and the counter the serial ids come from. Each
    primitive below is one `insert ... returning` or `update ... returning`
    statement; the clock is the `now` parameter. */
module Database {

  import opened Wrappers
  import opened Tables

  class Store {
    var sessions: seq<TrainingSession>
    var exercises: seq<Exercise>
    var series: seq<Series>
    var logs: seq<ExerciseLog>
    var metrics: seq<BodyMetric>
    var settings: seq<UserSettings>
    /** The id the next inserted row receives. */
    var nextId: int

    /** Ids are serial in every table and `user_settings.user_id` is unique. */
    ghost predicate Valid()
      reads this
    {
      && IdsFresh(sessions, SessionId, nextId)
      && IdsFresh(exercises, ExerciseId, nextId)
      && IdsFresh(series, SeriesId, nextId)
      && IdsFresh(logs, LogId, nextId)
      && IdsFresh(metrics, MetricId, nextId)
      && IdsFresh(settings, SettingsId, nextId)
      && OneRowPerUser(settings)
    }

    /** A freshly created, empty database. */
    constructor ()
      ensures Valid() && nextId == 1
      ensures sessions == [] && exercises == [] && series == [] && logs == [] && metrics == [] && settings == []
    {
      sessions, exercises, series, logs, metrics, settings := [], [], [], [], [], [];
      nextId := 1;
    }

    /** A multi-row insert into `training_sessions`. */
    method InsertSessions(drafts: seq<NewSession>, now: int) returns (rows: seq<TrainingSession>)
      requires Valid()
      modifies this`sessions, this`nextId
      ensures Valid() && nextId == old(nextId) + |drafts|
      ensures rows == SessionRows(drafts, old(nextId), now)
      ensures sessions == old(sessions) + rows
    {
      rows := SessionRows(drafts, nextId, now);
      AppendBlockKeepsIdsFresh(sessions, SessionId, nextId, rows);
      sessions := sessions + rows;
      nextId := nextId + |drafts|;
    }

    /** A multi-row insert into `exercises`. */
    method InsertExercises(drafts: seq<NewExercise>, now: int) returns (rows: seq<Exercise>)
      requires Valid()
      modifies this`exercises, this`nextId
      ensures Valid() && nextId == old(nextId) + |drafts|
      ensures rows == ExerciseRows(drafts, old(nextId), now)
      ensures exercises == old(exercises) + rows
    {
      rows := ExerciseRows(drafts, nextId, now);
      AppendBlockKeepsIdsFresh(exercises, ExerciseId, nextId, rows);
      exercises := exercises + rows;
      nextId := nextId + |drafts|;
    }

    /** A multi-row insert into `series`. */
    method InsertSeries(drafts: seq<NewSeries>, now: int) returns (rows: seq<Series>)
      requires Valid()
      modifies this`series, this`nextId
      ensures Valid() && nextId == old(nextId) + |drafts|
      ensures rows == SeriesRows(drafts, old(nextId), now)
      ensures series == old(series) + rows
    {
      rows := SeriesRows(drafts, nextId, now);
      AppendBlockKeepsIdsFresh(series, SeriesId, nextId, rows);
      series := series + rows;
      nextId := nextId + |drafts|;
    }

    method InsertLog(userId: string, exerciseId: int, seriesNumber: int, repetitions: int, weight: int,
                     completedAt: int, now: int)
      returns (row: ExerciseLog)
      requires Valid()
      modifies this`logs, this`nextId
      ensures Valid() && nextId == old(nextId) + 1
      ensures row == ExerciseLog(old(nextId), userId, exerciseId, seriesNumber, repetitions, weight, completedAt, now)
      ensures logs == old(logs) + [row]
    {
      row := ExerciseLog(nextId, userId, exerciseId, seriesNumber, repetitions, weight, completedAt, now);
      AppendKeepsIdsFresh(logs, LogId, nextId, row, nextId + 1);
      logs := logs + [row];
      nextId := nextId + 1;
    }

    method InsertMetric(userId: string, metricType: MetricType, value: int, unit: string, recordedAt: int, now: int)
      returns (row: BodyMetric)
      requires Valid()
      modifies this`metrics, this`nextId
      ensures Valid() && nextId == old(nextId) + 1
      ensures row == BodyMetric(old(nextId), userId, metricType, value, unit, recordedAt, now)
      ensures metrics == old(metrics) + [row]
    {
      row := BodyMetric(nextId, userId, metricType, value, unit, recordedAt, now);
      AppendKeepsIdsFresh(metrics, MetricId, nextId, row, nextId + 1);
      metrics := metrics + [row];
      nextId := nextId + 1;
    }

    /** Inserting a settings row; the unique constraint on `user_id` makes
        this fail for a user who already has one, so callers insert only
        after finding none. */
    method InsertSettings(userId: string, timerDuration: int, darkMode: bool, reminderEnabled: bool, now: int)
      returns (row: UserSettings)
      requires Valid()
      requires forall i :: 0 <= i < |settings| ==> settings[i].userId != userId
      modifies this`settings, this`nextId
      ensures Valid() && nextId == old(nextId) + 1
      ensures row == UserSettings(old(nextId), userId, timerDuration, darkMode, reminderEnabled, now, now)
      ensures settings == old(settings) + [row]
    {
      row := UserSettings(nextId, userId, timerDuration, darkMode, reminderEnabled, now, now);
      AppendKeepsIdsFresh(settings, SettingsId, nextId, row, nextId + 1);
      settings := settings + [row];
      nextId := nextId + 1;
    }

    /** `update user_settings set ... where user_id = ...` on the one row of
        that user, at position `k`. */
    method UpdateSettingsRow(k: int, row: UserSettings)
      requires Valid() && 0 <= k < |settings|
      requires row.id == settings[k].id && row.userId == settings[k].userId
      modifies this`settings
      ensures Valid()
      ensures settings == old(settings)[k := row]
    {
      settings := settings[k := row];
    }
  }
}
