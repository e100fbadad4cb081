/** The read-only handlers, as functions of the tables they select from:
    the catalogue lookups, the paged history queries and the latest
    performance of an exercise. */
module Queries {

  import opened Wrappers
  import opened Tables
  import opened Rows
  import opened Validation
  import opened Seeder

  /** `getTrainingSessions`: the whole table, in stored order, descriptions
      (null ones included) as stored. */
  function TrainingSessions(sessions: seq<TrainingSession>): (r: seq<TrainingSession>)
    ensures |r| == |sessions| && forall i :: 0 <= i < |r| ==> r[i] == sessions[i]
  {
    sessions
  }

  /** After seeding, the catalogue lists eight sessions with consecutive ids,
      two of each training type in the order pull, push, legs, other. */
  lemma SeededTrainingSessions(first: int, now: int)
    ensures var r := TrainingSessions(SessionRows(SessionSeeds, first, now));
      |r| == 8 && forall i :: 0 <= i < 8 ==> r[i].id == first + i && r[i].kind == TrainingTypes[i / 2]
  {
    SeedSessions();
  }

  function InSession(sessionId: int): Exercise -> bool {
    (e: Exercise) => e.sessionId == sessionId
  }

  /** `getExercisesBySession`: exactly the exercises of the session, in
      stored order, hence in increasing id order. */
  function ExercisesBySession(exercises: seq<Exercise>, sessionId: int): (r: seq<Exercise>)
    ensures forall i :: 0 <= i < |r| ==> r[i] in exercises && r[i].sessionId == sessionId
    ensures forall i :: 0 <= i < |exercises| && exercises[i].sessionId == sessionId ==> exercises[i] in r
    ensures Increasing(exercises, ExerciseId) ==> Increasing(r, ExerciseId)
  {
    assert Increasing(exercises, ExerciseId) ==> Increasing(Filter(exercises, InSession(sessionId)), ExerciseId) by {
      if Increasing(exercises, ExerciseId) {
        FilterIncreasing(exercises, InSession(sessionId), ExerciseId);
      }
    }
    Filter(exercises, InSession(sessionId))
  }

  /** Exercises inserted later come after those inserted earlier. */
  lemma ExercisesBySessionAppend(a: seq<Exercise>, b: seq<Exercise>, sessionId: int)
    ensures ExercisesBySession(a + b, sessionId) == ExercisesBySession(a, sessionId) + ExercisesBySession(b, sessionId)
  {
    FilterAppend(a, b, InSession(sessionId));
  }

  /** Position `i` lies in block `i / 3` of three. */
  lemma ThirdOf(i: int, j: int)
    requires 0 <= i && 0 <= j
    ensures i < 3 * j ==> i / 3 < j
    ensures 3 * j <= i < 3 * j + 3 ==> i / 3 == j
    ensures 3 * j + 3 <= i ==> i / 3 > j
  {
  }

  /** When exercises are stored three per session, in session order (as the
      seeder inserts them), a session's exercises are exactly its block of
      three. */
  lemma ExercisesBySessionBlock(exercises: seq<Exercise>, sessions: seq<TrainingSession>, j: int)
    requires |exercises| == 3 * |sessions| && 0 <= j < |sessions|
    requires forall i :: 0 <= i < |exercises| ==> exercises[i].sessionId == sessions[i / 3].id
    requires forall a, b :: 0 <= a < b < |sessions| ==> sessions[a].id != sessions[b].id
    ensures ExercisesBySession(exercises, sessions[j].id) == exercises[3 * j .. 3 * j + 3]
  {
    var p := InSession(sessions[j].id);
    var before, block, after := exercises[..3 * j], exercises[3 * j .. 3 * j + 3], exercises[3 * j + 3..];
    assert exercises == before + block + after;
    forall i | 0 <= i < |before| ensures !p(before[i]) {
      assert before[i] == exercises[i];
      ThirdOf(i, j);
    }
    forall i | 0 <= i < |block| ensures p(block[i]) {
      assert block[i] == exercises[3 * j + i];
      ThirdOf(3 * j + i, j);
    }
    forall i | 0 <= i < |after| ensures !p(after[i]) {
      assert after[i] == exercises[3 * j + 3 + i];
      ThirdOf(3 * j + 3 + i, j);
    }
    FilterMiddleBlock(before, block, after, p);
  }

  /** After seeding, every session has exactly its three exercises. */
  lemma SeededSessionExercises(db: seq<TrainingSession>, first: int, now: int, j: int)
    requires |db| == 8 && 0 <= j < 8
    requires forall a, b :: 0 <= a < b < 8 ==> db[a].id != db[b].id
    ensures var es := ExerciseRows(ExerciseDrafts(ExerciseSeeds, db), first, now);
      |ExercisesBySession(es, db[j].id)| == 3
  {
    SeededExerciseLinks(db, first, now);
    ExercisesBySessionBlock(ExerciseRows(ExerciseDrafts(ExerciseSeeds, db), first, now), db, j);
  }

  /** An exercise and its prescribed series. */
  datatype ExerciseWithSeries = ExerciseWithSeries(exercise: Exercise, series: seq<Series>)

  function OfExercise(exerciseId: int): Series -> bool {
    (s: Series) => s.exerciseId == exerciseId
  }

  /** The first stored exercise with the id. */
  function FindExercise(exercises: seq<Exercise>, exerciseId: int): (r: Option<Exercise>)
    ensures r.None? <==> !ExerciseExists(exercises, exerciseId)
    ensures r.Some? ==> r.value in exercises && r.value.id == exerciseId
    decreases |exercises|
  {
    if exercises == [] then None
    else if exercises[0].id == exerciseId then Some(exercises[0])
    else
      var r := FindExercise(exercises[1..], exerciseId);
      assert r.None? ==> !ExerciseExists(exercises, exerciseId) by {
        if r.None? {
          forall i | 0 <= i < |exercises| ensures exercises[i].id != exerciseId {
            if i > 0 {
              assert exercises[i] == exercises[1..][i - 1];
            }
          }
        }
      }
      assert r.Some? ==> ExerciseExists(exercises, exerciseId) by {
        if r.Some? {
          var k :| 0 <= k < |exercises[1..]| && exercises[1..][k] == r.value;
          assert exercises[k + 1] == r.value;
        }
      }
      r
  }

  /** `getExerciseWithSeries`: null for an unknown id; otherwise the
      exercise as stored and exactly its series rows (possibly none), each
      as often as it is stored. */
  function GetExerciseWithSeries(exercises: seq<Exercise>, series: seq<Series>, exerciseId: int)
    : (r: Option<ExerciseWithSeries>)
    ensures r.None? <==> !ExerciseExists(exercises, exerciseId)
    ensures r.Some? ==> r.value.exercise in exercises && r.value.exercise.id == exerciseId
    ensures r.Some? ==> forall i :: 0 <= i < |r.value.series| ==> r.value.series[i] in series && r.value.series[i].exerciseId == exerciseId
    ensures r.Some? ==> forall i :: 0 <= i < |series| && series[i].exerciseId == exerciseId ==> series[i] in r.value.series
    ensures r.Some? ==> forall x :: multiset(r.value.series)[x] == if x.exerciseId == exerciseId then multiset(series)[x] else 0
  {
    match FindExercise(exercises, exerciseId)
    case None => None
    case Some(e) =>
      var f := Filter(series, OfExercise(exerciseId));
      assert forall x :: multiset(f)[x] == if x.exerciseId == exerciseId then multiset(series)[x] else 0 by {
        forall x ensures multiset(f)[x] == if x.exerciseId == exerciseId then multiset(series)[x] else 0 {
          FilterMultiset(series, OfExercise(exerciseId), x);
        }
      }
      Some(ExerciseWithSeries(e, f))
  }

  function CompletedAt(l: ExerciseLog): int { l.completedAt }
  function RecordedAt(m: BodyMetric): int { m.recordedAt }
  function SeriesNumberOf(l: ExerciseLog): int { l.seriesNumber }

  /** The `where` of `getUserExerciseLogs`: the user, and the exercise when
      one is given. */
  function LogsFilter(userId: string, exerciseId: Option<int>): ExerciseLog -> bool {
    (l: ExerciseLog) => l.userId == userId && (exerciseId.None? || l.exerciseId == exerciseId.value)
  }

  /** `getUserExerciseLogs`: the user's logs (of one exercise, when given),
      newest first, at most `limit` of them from position `offset`. */
  function UserExerciseLogs(logs: seq<ExerciseLog>, q: LogsQuery): (r: seq<ExerciseLog>)
    requires PageValid(q.limit, q.offset)
    ensures |r| <= q.limit
    ensures forall i :: 0 <= i < |r| ==> r[i] in logs && r[i].userId == q.userId
    ensures q.exerciseId.Some? ==> forall i :: 0 <= i < |r| ==> r[i].exerciseId == q.exerciseId.value
    ensures forall i, j :: 0 <= i < j < |r| ==> r[i].completedAt >= r[j].completedAt
    ensures exists v ::
      SortedPermutation(v, Filter(logs, LogsFilter(q.userId, q.exerciseId)), CompletedAt, true) && r == Page(v, q.offset, q.limit)
  {
    SortedPage(logs, LogsFilter(q.userId, q.exerciseId), CompletedAt, q.offset, q.limit)
  }

  /** The page is the slice `[offset, offset + limit)` of the newest-first
      order of the matching logs, and with distinct completion times every
      execution returns the same page. */
  lemma UserExerciseLogsIsSlice(logs: seq<ExerciseLog>, q: LogsQuery, v: seq<ExerciseLog>)
    requires PageValid(q.limit, q.offset)
    requires SortedPermutation(v, Filter(logs, LogsFilter(q.userId, q.exerciseId)), CompletedAt, true)
    requires DistinctKeys(Filter(logs, LogsFilter(q.userId, q.exerciseId)), CompletedAt)
    ensures UserExerciseLogs(logs, q) == Page(v, q.offset, q.limit)
    ensures q.offset <= |v| ==> |UserExerciseLogs(logs, q)| == if |v| - q.offset < q.limit then |v| - q.offset else q.limit
  {
    SortedPageDetermined(logs, LogsFilter(q.userId, q.exerciseId), CompletedAt, q.offset, q.limit, v);
  }

  /** Pages of two requests at non-overlapping positions (offset 0 and 2
      with limit 2, say) share no log id, also when the logs were inserted
      together and so share their completion time. */
  lemma UserExerciseLogsPagesDisjoint(logs: seq<ExerciseLog>, nextId: int, q1: LogsQuery, q2: LogsQuery)
    requires IdsFresh(logs, LogId, nextId)
    requires PageValid(q1.limit, q1.offset) && PageValid(q2.limit, q2.offset)
    requires q1.userId == q2.userId && q1.exerciseId == q2.exerciseId && q1.offset + q1.limit <= q2.offset
    ensures forall x, y :: x in UserExerciseLogs(logs, q1) && y in UserExerciseLogs(logs, q2) ==> x.id != y.id
  {
    SortedPagesDisjoint(logs, LogsFilter(q1.userId, q1.exerciseId), CompletedAt, LogId,
                        q1.offset, q1.limit, q2.offset, q2.limit);
  }

  /** The `where` of `getBodyMetrics`: the user, and the type when one is
      given. */
  function MetricsFilter(userId: string, metricType: Option<MetricType>): BodyMetric -> bool {
    (m: BodyMetric) => m.userId == userId && (metricType.None? || m.metricType == metricType.value)
  }

  /** `getBodyMetrics`: the user's measurements (of one type, when given),
      newest first, at most `limit` of them from position `offset`. */
  function BodyMetrics(metrics: seq<BodyMetric>, q: MetricsQuery): (r: seq<BodyMetric>)
    requires PageValid(q.limit, q.offset)
    ensures |r| <= q.limit
    ensures forall i :: 0 <= i < |r| ==> r[i] in metrics && r[i].userId == q.userId
    ensures q.metricType.Some? ==> forall i :: 0 <= i < |r| ==> r[i].metricType == q.metricType.value
    ensures forall i, j :: 0 <= i < j < |r| ==> r[i].recordedAt >= r[j].recordedAt
    ensures exists v ::
      SortedPermutation(v, Filter(metrics, MetricsFilter(q.userId, q.metricType)), RecordedAt, true) && r == Page(v, q.offset, q.limit)
  {
    SortedPage(metrics, MetricsFilter(q.userId, q.metricType), RecordedAt, q.offset, q.limit)
  }

  lemma BodyMetricsIsSlice(metrics: seq<BodyMetric>, q: MetricsQuery, v: seq<BodyMetric>)
    requires PageValid(q.limit, q.offset)
    requires SortedPermutation(v, Filter(metrics, MetricsFilter(q.userId, q.metricType)), RecordedAt, true)
    requires DistinctKeys(Filter(metrics, MetricsFilter(q.userId, q.metricType)), RecordedAt)
    ensures BodyMetrics(metrics, q) == Page(v, q.offset, q.limit)
  {
    SortedPageDetermined(metrics, MetricsFilter(q.userId, q.metricType), RecordedAt, q.offset, q.limit, v);
  }

  /** Different offsets yield different records, ties in `recorded_at`
      included. */
  lemma BodyMetricsPagesDisjoint(metrics: seq<BodyMetric>, nextId: int, q1: MetricsQuery, q2: MetricsQuery)
    requires IdsFresh(metrics, MetricId, nextId)
    requires PageValid(q1.limit, q1.offset) && PageValid(q2.limit, q2.offset)
    requires q1.userId == q2.userId && q1.metricType == q2.metricType && q1.offset + q1.limit <= q2.offset
    ensures forall x, y :: x in BodyMetrics(metrics, q1) && y in BodyMetrics(metrics, q2) ==> x.id != y.id
  {
    SortedPagesDisjoint(metrics, MetricsFilter(q1.userId, q1.metricType), RecordedAt, MetricId,
                        q1.offset, q1.limit, q2.offset, q2.limit);
  }

  /** Logs of one user for one exercise. */
  function LogOf(userId: string, exerciseId: int): ExerciseLog -> bool {
    (l: ExerciseLog) => l.userId == userId && l.exerciseId == exerciseId
  }

  /** The latest completion time among the user's logs of the exercise:
      none exactly when there is no such log; otherwise one of them carries
      it and none is later. */
  function LatestCompletedAt(logs: seq<ExerciseLog>, userId: string, exerciseId: int): (r: Option<int>)
    ensures r.None? <==> forall i :: 0 <= i < |logs| ==> !LogOf(userId, exerciseId)(logs[i])
    ensures r.Some? ==> exists i :: 0 <= i < |logs| && LogOf(userId, exerciseId)(logs[i]) && logs[i].completedAt == r.value
    ensures r.Some? ==> forall i :: 0 <= i < |logs| && LogOf(userId, exerciseId)(logs[i]) ==> logs[i].completedAt <= r.value
    decreases |logs|
  {
    if logs == [] then None
    else
      var rest := LatestCompletedAt(logs[1..], userId, exerciseId);
      assert forall i :: 1 <= i < |logs| ==> logs[i] == logs[1..][i - 1];
      var here := LogOf(userId, exerciseId)(logs[0]);
      if !here then
        assert rest.Some? ==> exists i :: 0 <= i < |logs| && LogOf(userId, exerciseId)(logs[i]) && logs[i].completedAt == rest.value by {
          if rest.Some? {
            var k :| 0 <= k < |logs[1..]| && LogOf(userId, exerciseId)(logs[1..][k]) && logs[1..][k].completedAt == rest.value;
            assert logs[k + 1] == logs[1..][k];
          }
        }
        rest
      else if rest.Some? && rest.value > logs[0].completedAt then
        assert exists i :: 0 <= i < |logs| && LogOf(userId, exerciseId)(logs[i]) && logs[i].completedAt == rest.value by {
          var k :| 0 <= k < |logs[1..]| && LogOf(userId, exerciseId)(logs[1..][k]) && logs[1..][k].completedAt == rest.value;
          assert logs[k + 1] == logs[1..][k];
        }
        rest
      else
        Some(logs[0].completedAt)
  }

  /** The first query (`orderBy completed_at desc limit 1`) reads exactly
      this time: whatever order the database picks among equal times, its
      first row carries the latest completion time. */
  lemma LatestIsFirstOfNewestFirst(logs: seq<ExerciseLog>, userId: string, exerciseId: int, v: seq<ExerciseLog>)
    requires SortedPermutation(v, Filter(logs, LogOf(userId, exerciseId)), CompletedAt, true)
    ensures v == [] <==> LatestCompletedAt(logs, userId, exerciseId).None?
    ensures v != [] ==> v[0].completedAt == LatestCompletedAt(logs, userId, exerciseId).value
  {
    var f := Filter(logs, LogOf(userId, exerciseId));
    var latest := LatestCompletedAt(logs, userId, exerciseId);
    if v != [] {
      assert v[0] in multiset(f);
      assert v[0] in f;
      var k :| 0 <= k < |logs| && LogOf(userId, exerciseId)(logs[k]) && logs[k].completedAt == latest.value;
      assert logs[k] in multiset(v);
      var m :| 0 <= m < |v| && v[m] == logs[k];
      if m > 0 {
        assert Precedes(CompletedAt, true, v[0], v[m]);
      }
    }
  }

  /** Logs of one user for one exercise completed at time `t`. */
  function LogAt(userId: string, exerciseId: int, t: int): ExerciseLog -> bool {
    (l: ExerciseLog) => l.userId == userId && l.exerciseId == exerciseId && l.completedAt == t
  }

  /** `getLastExercisePerformance`: every set of the latest workout of the
      exercise, each as often as it is stored, by ascending set number;
      empty exactly when the user never logged it. */
  function LastExercisePerformance(logs: seq<ExerciseLog>, userId: string, exerciseId: int): (r: seq<ExerciseLog>)
    ensures r == [] <==> LatestCompletedAt(logs, userId, exerciseId).None?
    ensures forall i :: 0 <= i < |r| ==>
      && r[i] in logs && r[i].userId == userId && r[i].exerciseId == exerciseId
      && r[i].completedAt == LatestCompletedAt(logs, userId, exerciseId).value
    ensures LatestCompletedAt(logs, userId, exerciseId).Some? ==>
      forall i :: 0 <= i < |logs| && LogAt(userId, exerciseId, LatestCompletedAt(logs, userId, exerciseId).value)(logs[i])
        ==> logs[i] in r
    ensures Ordered(r, SeriesNumberOf, false)
    ensures LatestCompletedAt(logs, userId, exerciseId).Some? ==>
      SortedPermutation(r, Filter(logs, LogAt(userId, exerciseId, LatestCompletedAt(logs, userId, exerciseId).value)),
                        SeriesNumberOf, false)
  {
    match LatestCompletedAt(logs, userId, exerciseId)
    case None => []
    case Some(t) =>
      var r := Sort(Filter(logs, LogAt(userId, exerciseId, t)), SeriesNumberOf, false);
      LatestWorkoutRows(logs, userId, exerciseId, t, r);
      r
  }

  /** A permutation of the logs at time `t` holds exactly those logs, and
      is not empty when one of them exists. */
  lemma LatestWorkoutRows(logs: seq<ExerciseLog>, userId: string, exerciseId: int, t: int, r: seq<ExerciseLog>)
    requires multiset(r) == multiset(Filter(logs, LogAt(userId, exerciseId, t)))
    requires exists k :: 0 <= k < |logs| && LogOf(userId, exerciseId)(logs[k]) && logs[k].completedAt == t
    ensures r != []
    ensures forall i :: 0 <= i < |r| ==>
      r[i] in logs && r[i].userId == userId && r[i].exerciseId == exerciseId && r[i].completedAt == t
    ensures forall i :: 0 <= i < |logs| && LogAt(userId, exerciseId, t)(logs[i]) ==> logs[i] in r
  {
    var f := Filter(logs, LogAt(userId, exerciseId, t));
    var k :| 0 <= k < |logs| && LogOf(userId, exerciseId)(logs[k]) && logs[k].completedAt == t;
    assert logs[k] in f;
    assert logs[k] in multiset(r);
    forall i | 0 <= i < |r| ensures r[i] in f {
      assert r[i] in multiset(f);
    }
    forall i | 0 <= i < |logs| && LogAt(userId, exerciseId, t)(logs[i]) ensures logs[i] in r {
      assert logs[i] in multiset(r);
    }
  }
}
