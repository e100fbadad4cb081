/** The two inserting handlers: `createUserExerciseLog`, guarded by the
    existence of the exercise, and `createBodyMetric`, unconditional. A
    thrown error is an `Err` result. */
module Mutations {

  import opened Wrappers
  import opened Text
  import opened Tables
  import opened Validation
  import opened Database

  datatype LogError = ExerciseNotFound(exerciseId: int)

  /** The message of the thrown error. */
  function ErrorMessage(e: LogError): (m: string)
    ensures |m| > 32 && m[..17] == "Exercise with id " && m[|m| - 15..] == " does not exist"
  {
    "Exercise with id " + IntToString(e.exerciseId) + " does not exist"
  }

  /** The message names the missing id: reading the number between the
      fixed prefix and suffix gives it back, so distinct ids give distinct
      messages. */
  lemma ErrorMessageNamesId(e: LogError)
    ensures var m := ErrorMessage(e);
      |m| > 32 && JsParseInt(m[17..|m| - 15]) == Some(e.exerciseId)
  {
    var m := ErrorMessage(e);
    assert m[17..|m| - 15] == IntToString(e.exerciseId);
    JsParseIntOfIntToString(e.exerciseId);
  }

  /** A table after an insert, and the inserted row. */
  datatype Appended<T> = Appended(table: seq<T>, row: T)

  /** The row inserted for a log: the input's fields, and `completed_at`
      the given time or else the current one. */
  function LogRow(input: LogInput, id: int, now: int): (r: ExerciseLog)
    ensures r.id == id && r.createdAt == now
    ensures r.userId == input.userId && r.exerciseId == input.exerciseId && r.seriesNumber == input.seriesNumber
    ensures r.repetitions == input.repetitions && r.weight == input.weight
    ensures input.completedAt.Some? ==> r.completedAt == input.completedAt.value
    ensures input.completedAt.None? ==> r.completedAt == now
  {
    ExerciseLog(id, input.userId, input.exerciseId, input.seriesNumber, input.repetitions, input.weight,
                input.completedAt.GetOr(now), now)
  }

  /** `createUserExerciseLog` as a step on the logs table: an error naming
      the id, and no change, when the exercise is missing; otherwise exactly
      one row appended. */
  function CreateLog(exercises: seq<Exercise>, logs: seq<ExerciseLog>, input: LogInput, nextId: int, now: int)
    : (r: Result<Appended<ExerciseLog>, LogError>)
    ensures r.Err? <==> !ExerciseExists(exercises, input.exerciseId)
    ensures r.Err? ==> r.error == ExerciseNotFound(input.exerciseId)
    ensures r.Ok? ==> r.value.table == logs + [r.value.row] && r.value.row == LogRow(input, nextId, now)
  {
    if !ExerciseExists(exercises, input.exerciseId) then Err(ExerciseNotFound(input.exerciseId))
    else Ok(Appended(logs + [LogRow(input, nextId, now)], LogRow(input, nextId, now)))
  }

  /** Only existence is checked: the set number is not compared with the
      exercise's number of sets, so any set number of an existing exercise
      is accepted. */
  lemma SeriesNumberNotChecked(exercises: seq<Exercise>, logs: seq<ExerciseLog>, input: LogInput, n: int,
                               nextId: int, now: int)
    requires CreateLog(exercises, logs, input, nextId, now).Ok?
    ensures CreateLog(exercises, logs, input.(seriesNumber := n), nextId, now).Ok?
  {
  }

  /** A validated input yields a row the log record schema accepts. */
  lemma LogRowValid(input: LogInput, id: int, now: int)
    requires LogInputValid(input)
    ensures LogRecordValid(LogRow(input, id, now))
  {
  }

  method CreateUserExerciseLog(db: Store, input: LogInput, now: int) returns (r: Result<ExerciseLog, LogError>)
    requires db.Valid()
    modifies db`logs, db`nextId
    ensures db.Valid()
    ensures r.Err? ==> CreateLog(old(db.exercises), old(db.logs), input, old(db.nextId), now) == Err(r.error)
    ensures r.Err? ==> db.logs == old(db.logs) && db.nextId == old(db.nextId)
    ensures r.Ok? ==> CreateLog(old(db.exercises), old(db.logs), input, old(db.nextId), now) == Ok(Appended(db.logs, r.value))
    ensures r.Ok? ==> db.nextId == old(db.nextId) + 1
  {
    if !ExerciseExists(db.exercises, input.exerciseId) {
      return Err(ExerciseNotFound(input.exerciseId));
    }
    var row := db.InsertLog(input.userId, input.exerciseId, input.seriesNumber, input.repetitions, input.weight,
                            input.completedAt.GetOr(now), now);
    r := Ok(row);
  }

  /** The row inserted for a body metric: the input's fields, and
      `recorded_at` the given time or else the current one. */
  function MetricRow(input: MetricInput, id: int, now: int): (r: BodyMetric)
    ensures r.id == id && r.createdAt == now
    ensures r.userId == input.userId && r.metricType == input.metricType && r.value == input.value && r.unit == input.unit
    ensures input.recordedAt.Some? ==> r.recordedAt == input.recordedAt.value
    ensures input.recordedAt.None? ==> r.recordedAt == now
  {
    BodyMetric(id, input.userId, input.metricType, input.value, input.unit, input.recordedAt.GetOr(now), now)
  }

  /** A validated input yields a row the body metric record schema accepts. */
  lemma MetricRowValid(input: MetricInput, id: int, now: int)
    requires MetricInputValid(input)
    ensures MetricRecordValid(MetricRow(input, id, now))
  {
  }

  /** `createBodyMetric`: one row appended, whatever is stored. */
  method CreateBodyMetric(db: Store, input: MetricInput, now: int) returns (r: BodyMetric)
    requires db.Valid()
    modifies db`metrics, db`nextId
    ensures db.Valid() && db.nextId == old(db.nextId) + 1
    ensures r == MetricRow(input, old(db.nextId), now)
    ensures db.metrics == old(db.metrics) + [r]
  {
    r := db.InsertMetric(input.userId, input.metricType, input.value, input.unit, input.recordedAt.GetOr(now), now);
  }
}
