/** The six tables of the workout tracker's database, as row datatypes, with
    the two enumerations their columns use and the column defaults.
    Timestamps are milliseconds since the epoch; the `real` columns (weights
    and metric values) are integers here. Foreign-key columns are plain
    integers: the database declares no constraint on them. */
module Tables {

  import opened Wrappers

  /** `training_type`: the kind of a training session. */
  datatype TrainingType = Pull | Push | Legs | Other

  /** `body_metric_type`: what a body measurement measures. */
  datatype MetricType = Arms | Legs | Core | Chest | Shoulders | Waist | Weight

  const TrainingTypes: seq<TrainingType> := [Pull, Push, TrainingType.Legs, Other]
  const MetricTypes: seq<MetricType> := [Arms, MetricType.Legs, Core, Chest, Shoulders, Waist, Weight]

  /** The label each training type has in the database and on the wire. */
  function TrainingTypeName(t: TrainingType): string {
    match t
    case Pull => "pull"
    case Push => "push"
    case Legs => "legs"
    case Other => "other"
  }

  function MetricTypeName(t: MetricType): string {
    match t
    case Arms => "arms"
    case Legs => "legs"
    case Core => "core"
    case Chest => "chest"
    case Shoulders => "shoulders"
    case Waist => "waist"
    case Weight => "weight"
  }

  /** Reading a label back: the enum check of the schema. Exactly the four
      labels are accepted, each as the type it names. */
  function ParseTrainingType(s: string): (r: Option<TrainingType>)
    ensures r.None? ==> forall t :: TrainingTypeName(t) != s
    ensures r.Some? ==> TrainingTypeName(r.value) == s
  {
    if s == "pull" then Some(Pull)
    else if s == "push" then Some(Push)
    else if s == "legs" then Some(TrainingType.Legs)
    else if s == "other" then Some(Other)
    else None
  }

  /** Exactly the seven labels are accepted, each as the type it names. */
  function ParseMetricType(s: string): (r: Option<MetricType>)
    ensures r.None? ==> forall t :: MetricTypeName(t) != s
    ensures r.Some? ==> MetricTypeName(r.value) == s
  {
    if s == "arms" then Some(Arms)
    else if s == "legs" then Some(MetricType.Legs)
    else if s == "core" then Some(Core)
    else if s == "chest" then Some(Chest)
    else if s == "shoulders" then Some(Shoulders)
    else if s == "waist" then Some(Waist)
    else if s == "weight" then Some(Weight)
    else None
  }

  /** The enumeration constants list every value exactly once. */
  lemma EnumsListed()
    ensures |TrainingTypes| == 4 && forall t :: t in TrainingTypes
    ensures forall i, j :: 0 <= i < j < |TrainingTypes| ==> TrainingTypes[i] != TrainingTypes[j]
    ensures |MetricTypes| == 7 && forall t :: t in MetricTypes
    ensures forall i, j :: 0 <= i < j < |MetricTypes| ==> MetricTypes[i] != MetricTypes[j]
  {
    forall t: TrainingType ensures t in TrainingTypes {
      match t
      case Pull => assert TrainingTypes[0] == t;
      case Push => assert TrainingTypes[1] == t;
      case Legs => assert TrainingTypes[2] == t;
      case Other => assert TrainingTypes[3] == t;
    }
    forall t: MetricType ensures t in MetricTypes {
      match t
      case Arms => assert MetricTypes[0] == t;
      case Legs => assert MetricTypes[1] == t;
      case Core => assert MetricTypes[2] == t;
      case Chest => assert MetricTypes[3] == t;
      case Shoulders => assert MetricTypes[4] == t;
      case Waist => assert MetricTypes[5] == t;
      case Weight => assert MetricTypes[6] == t;
    }
  }

  datatype TrainingSession = TrainingSession(
    id: int, name: string, kind: TrainingType, description: Option<string>, createdAt: int)

  datatype Exercise = Exercise(
    id: int, sessionId: int, name: string, description: Option<string>, targetSeries: int, createdAt: int)

  /** A prescribed set slot of an exercise. */
  datatype Series = Series(
    id: int, exerciseId: int, seriesNumber: int, targetRepetitions: int, targetWeight: int, createdAt: int)

  /** One set a user performed. */
  datatype ExerciseLog = ExerciseLog(
    id: int, userId: string, exerciseId: int, seriesNumber: int, repetitions: int, weight: int,
    completedAt: int, createdAt: int)

  datatype BodyMetric = BodyMetric(
    id: int, userId: string, metricType: MetricType, value: int, unit: string, recordedAt: int, createdAt: int)

  datatype UserSettings = UserSettings(
    id: int, userId: string, timerDuration: int, darkMode: bool, reminderEnabled: bool,
    createdAt: int, updatedAt: int)

  /** The columns a caller supplies when inserting a session, an exercise or
      a series row; the id and `created_at` come from the database. */
  datatype NewSession = NewSession(name: string, kind: TrainingType, description: Option<string>)
  datatype NewExercise = NewExercise(sessionId: int, name: string, description: Option<string>, targetSeries: int)
  datatype NewSeries = NewSeries(exerciseId: int, seriesNumber: int, targetRepetitions: int, targetWeight: int)

  /** The rows a multi-row insert of `drafts` returns: consecutive ids from
      `first`, in the order of the drafts, all created at `now`. */
  function SessionRows(drafts: seq<NewSession>, first: int, now: int): (r: seq<TrainingSession>)
    ensures |r| == |drafts|
    ensures forall i :: 0 <= i < |r| ==> r[i].id == first + i && r[i].createdAt == now
  {
    seq(|drafts|, i requires 0 <= i < |drafts| =>
      TrainingSession(first + i, drafts[i].name, drafts[i].kind, drafts[i].description, now))
  }

  function ExerciseRows(drafts: seq<NewExercise>, first: int, now: int): (r: seq<Exercise>)
    ensures |r| == |drafts|
    ensures forall i :: 0 <= i < |r| ==> r[i].id == first + i && r[i].createdAt == now
  {
    seq(|drafts|, i requires 0 <= i < |drafts| =>
      Exercise(first + i, drafts[i].sessionId, drafts[i].name, drafts[i].description, drafts[i].targetSeries, now))
  }

  function SeriesRows(drafts: seq<NewSeries>, first: int, now: int): (r: seq<Series>)
    ensures |r| == |drafts|
    ensures forall i :: 0 <= i < |r| ==> r[i].id == first + i && r[i].createdAt == now
  {
    seq(|drafts|, i requires 0 <= i < |drafts| =>
      Series(first + i, drafts[i].exerciseId, drafts[i].seriesNumber, drafts[i].targetRepetitions,
             drafts[i].targetWeight, now))
  }

  /** Column defaults of `user_settings`. */
  const DefaultTimerDuration: int := 120
  const DefaultDarkMode: bool := true
  const DefaultReminderEnabled: bool := true

  function SessionId(r: TrainingSession): int { r.id }
  function ExerciseId(r: Exercise): int { r.id }
  function SeriesId(r: Series): int { r.id }
  function LogId(r: ExerciseLog): int { r.id }
  function MetricId(r: BodyMetric): int { r.id }
  function SettingsId(r: UserSettings): int { r.id }

  /** `select ... from exercises where id = exerciseId` is not empty. */
  predicate ExerciseExists(exercises: seq<Exercise>, exerciseId: int) {
    exists i :: 0 <= i < |exercises| && exercises[i].id == exerciseId
  }

  /** Serial ids: every row's id is below the next one handed out, and ids
      grow in insertion order (hence are distinct). */
  ghost predicate IdsFresh<T>(rows: seq<T>, id: T -> int, next: int) {
    && (forall i, j :: 0 <= i < j < |rows| ==> id(rows[i]) < id(rows[j]))
    && (forall i :: 0 <= i < |rows| ==> id(rows[i]) < next)
  }

  /** Appending a row carrying the next id keeps the ids fresh. */
  lemma AppendKeepsIdsFresh<T>(rows: seq<T>, id: T -> int, next: int, row: T, next': int)
    requires IdsFresh(rows, id, next) && id(row) == next && next < next'
    ensures IdsFresh(rows + [row], id, next')
  {
  }

  /** Appending a block of rows numbered consecutively from the next id
      keeps the ids fresh. */
  lemma AppendBlockKeepsIdsFresh<T>(rows: seq<T>, id: T -> int, next: int, block: seq<T>)
    requires IdsFresh(rows, id, next)
    requires forall i :: 0 <= i < |block| ==> id(block[i]) == next + i
    ensures IdsFresh(rows + block, id, next + |block|)
  {
    var all := rows + block;
    forall i, j | 0 <= i < j < |all| ensures id(all[i]) < id(all[j]) {
      if j >= |rows| {
        assert all[j] == block[j - |rows|];
        if i >= |rows| {
          assert all[i] == block[i - |rows|];
        }
      }
    }
  }

  /** In a table with fresh ids, the id determines the row. */
  lemma IdsFreshUnique<T>(rows: seq<T>, id: T -> int, next: int, i: int, j: int)
    requires IdsFresh(rows, id, next)
    requires 0 <= i < |rows| && 0 <= j < |rows| && id(rows[i]) == id(rows[j])
    ensures i == j
  {
  }

  /** The unique constraint on `user_settings.user_id`. */
  ghost function OneRowPerUser(rows: seq<UserSettings>): (b: bool)
    ensures b <==> forall i, j :: 0 <= i < |rows| && 0 <= j < |rows| && rows[i].userId == rows[j].userId ==> i == j
  {
    forall i, j :: 0 <= i < j < |rows| ==> rows[i].userId != rows[j].userId
  }
}
