/** The zod schemas that guard the remote procedures: integer ranges,
    positivity, enumerations and the defaults of the list queries. A request
    that fails them never reaches a handler. */
module Validation {

  import opened Wrappers
  import opened Tables

  /** A set slot: `int().min(1).max(4)`. */
  function ValidSeriesNumber(n: int): (b: bool)
    ensures b <==> n in {1, 2, 3, 4}
  {
    1 <= n <= 4
  }

  /** Sets per exercise: `int().min(2).max(4)`. */
  function ValidTargetSeries(n: int): (b: bool)
    ensures b <==> n in {2, 3, 4}
  {
    2 <= n <= 4
  }

  const DefaultLimit: int := 50
  const DefaultOffset: int := 0

  /** The exercise record schema: two to four sets. */
  function ExerciseRecordValid(e: Exercise): (b: bool)
    ensures b <==> e.targetSeries in {2, 3, 4}
  {
    ValidTargetSeries(e.targetSeries)
  }

  /** The series record schema asks for a positive target weight. */
  function SeriesRecordValid(s: Series): (b: bool)
    ensures b <==> s.seriesNumber in {1, 2, 3, 4} && s.targetRepetitions >= 1 && s.targetWeight >= 1
  {
    ValidSeriesNumber(s.seriesNumber) && s.targetRepetitions > 0 && s.targetWeight > 0
  }

  /** The log record schema: set 1 to 4, positive repetitions and weight. */
  function LogRecordValid(l: ExerciseLog): (b: bool)
    ensures b <==> l.seriesNumber in {1, 2, 3, 4} && l.repetitions >= 1 && l.weight >= 1
  {
    ValidSeriesNumber(l.seriesNumber) && l.repetitions > 0 && l.weight > 0
  }

  /** The measurement record schema: a positive value. */
  function MetricRecordValid(m: BodyMetric): (b: bool)
    ensures b <==> m.value >= 1
  {
    m.value > 0
  }

  /** The settings record schema: a positive timer duration. */
  function SettingsRecordValid(s: UserSettings): (b: bool)
    ensures b <==> s.timerDuration >= 1
  {
    s.timerDuration > 0
  }

  /** Input of `createUserExerciseLog`. */
  datatype LogInput = LogInput(
    userId: string, exerciseId: int, seriesNumber: int, repetitions: int, weight: int, completedAt: Option<int>)

  /** The input schema accepts exactly the inputs whose fields pass the
      record schema, whatever id and times the row receives. */
  function LogInputValid(i: LogInput): (b: bool)
    ensures b <==> forall id, t, c :: LogRecordValid(ExerciseLog(id, i.userId, i.exerciseId, i.seriesNumber, i.repetitions, i.weight, t, c))
  {
    assert LogRecordValid(ExerciseLog(0, i.userId, i.exerciseId, i.seriesNumber, i.repetitions, i.weight, 0, 0))
      ==> ValidSeriesNumber(i.seriesNumber) && i.repetitions > 0 && i.weight > 0;
    ValidSeriesNumber(i.seriesNumber) && i.repetitions > 0 && i.weight > 0
  }

  /** Input of `createBodyMetric`. */
  datatype MetricInput = MetricInput(
    userId: string, metricType: MetricType, value: int, unit: string, recordedAt: Option<int>)

  /** The input schema accepts exactly the inputs whose fields pass the
      record schema. */
  function MetricInputValid(i: MetricInput): (b: bool)
    ensures b <==> forall id, t, c :: MetricRecordValid(BodyMetric(id, i.userId, i.metricType, i.value, i.unit, t, c))
  {
    assert MetricRecordValid(BodyMetric(0, i.userId, i.metricType, i.value, i.unit, 0, 0)) ==> i.value > 0;
    i.value > 0
  }

  /** Input of `updateUserSettings`: every setting optional. */
  datatype SettingsUpdate = SettingsUpdate(
    userId: string, timerDuration: Option<int>, darkMode: Option<bool>, reminderEnabled: Option<bool>)

  /** An update passes exactly when the duration it carries, if any, would
      pass the record schema. */
  function SettingsUpdateValid(u: SettingsUpdate): (b: bool)
    ensures b <==> (u.timerDuration.None? ||
      forall id, dark, reminder, c, t :: SettingsRecordValid(UserSettings(id, u.userId, u.timerDuration.value, dark, reminder, c, t)))
  {
    assert u.timerDuration.Some? && SettingsRecordValid(UserSettings(0, u.userId, u.timerDuration.value, true, true, 0, 0))
      ==> u.timerDuration.value > 0;
    u.timerDuration.None? || u.timerDuration.value > 0
  }

  /** Input of `getUserExerciseLogs` once the defaults are applied. */
  datatype LogsQuery = LogsQuery(userId: string, exerciseId: Option<int>, limit: int, offset: int)

  /** Input of `getBodyMetrics` once the defaults are applied. */
  datatype MetricsQuery = MetricsQuery(userId: string, metricType: Option<MetricType>, limit: int, offset: int)

  /** A positive limit (default 50) and a non-negative offset (default 0). */
  predicate PageValid(limit: int, offset: int) {
    limit > 0 && offset >= 0
  }

  /** Pagination parameters as they arrive: either may be absent. Absent ones
      take their default; present ones must pass the range checks. */
  function ParsePage(limit: Option<int>, offset: Option<int>): (r: Option<(int, int)>)
    ensures r.Some? <==> (limit.None? || limit.value > 0) && (offset.None? || offset.value >= 0)
    ensures r.Some? ==> PageValid(r.value.0, r.value.1)
    ensures r.Some? && limit.None? ==> r.value.0 == DefaultLimit
    ensures r.Some? && offset.None? ==> r.value.1 == DefaultOffset
    ensures r.Some? ==> (limit.Some? ==> r.value.0 == limit.value) && (offset.Some? ==> r.value.1 == offset.value)
  {
    var l := limit.GetOr(DefaultLimit);
    var o := offset.GetOr(DefaultOffset);
    if PageValid(l, o) then Some((l, o)) else None
  }

  function ParseLogsQuery(userId: string, exerciseId: Option<int>, limit: Option<int>, offset: Option<int>): (r: Option<LogsQuery>)
    ensures r.Some? <==> ParsePage(limit, offset).Some?
    ensures r.Some? ==> r.value.userId == userId && r.value.exerciseId == exerciseId
    ensures r.Some? ==> (r.value.limit, r.value.offset) == ParsePage(limit, offset).value
  {
    match ParsePage(limit, offset)
    case Some((l, o)) => Some(LogsQuery(userId, exerciseId, l, o))
    case None => None
  }

  function ParseMetricsQuery(userId: string, metricType: Option<MetricType>, limit: Option<int>, offset: Option<int>): (r: Option<MetricsQuery>)
    ensures r.Some? <==> ParsePage(limit, offset).Some?
    ensures r.Some? ==> r.value.userId == userId && r.value.metricType == metricType
    ensures r.Some? ==> (r.value.limit, r.value.offset) == ParsePage(limit, offset).value
  {
    match ParsePage(limit, offset)
    case Some((l, o)) => Some(MetricsQuery(userId, metricType, l, o))
    case None => None
  }
}
