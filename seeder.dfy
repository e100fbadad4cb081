/** `initializeTrainingData`: seeds the catalogue with eight training
    sessions, three exercises for each, and one series row per set slot of
    every exercise, with targets chosen from the exercise's name. */
module Seeder {

  import opened Wrappers
  import opened Text
  import opened Tables
  import opened Rows
  import opened Validation
  import opened Database

  /** The eight sessions, two of each training type, in literal order. */
  const SessionSeeds: seq<NewSession> := [
    NewSession("Pull Day A", Pull, Some("Back and biceps focused workout")),
    NewSession("Pull Day B", Pull, Some("Lat and rear delt focused workout")),
    NewSession("Push Day A", Push, Some("Chest and triceps focused workout")),
    NewSession("Push Day B", Push, Some("Shoulders and triceps focused workout")),
    NewSession("Leg Day A", TrainingType.Legs, Some("Quad and glute focused workout")),
    NewSession("Leg Day B", TrainingType.Legs, Some("Hamstring and calf focused workout")),
    NewSession("Full Body A", Other, Some("Complete body compound movements")),
    NewSession("Core & Cardio", Other, Some("Core strengthening and cardio"))
  ]

  /** An exercise of the catalogue, linked to its session by the session's
      position among the inserted sessions. */
  datatype ExerciseSeed = ExerciseSeed(session: nat, name: string, description: string, targetSeries: int)

  const ExerciseSeeds: seq<ExerciseSeed> := [
    ExerciseSeed(0, "Pull-ups", "Bodyweight back exercise", 3),
    ExerciseSeed(0, "Barbell Rows", "Heavy rowing movement", 4),
    ExerciseSeed(0, "Bicep Curls", "Isolation bicep exercise", 3),
    ExerciseSeed(1, "Lat Pulldowns", "Lat focused pulling", 4),
    ExerciseSeed(1, "Face Pulls", "Rear delt and mid trap exercise", 3),
    ExerciseSeed(1, "Hammer Curls", "Neutral grip bicep exercise", 3),
    ExerciseSeed(2, "Bench Press", "Primary chest exercise", 4),
    ExerciseSeed(2, "Overhead Press", "Shoulder pressing movement", 3),
    ExerciseSeed(2, "Tricep Dips", "Bodyweight tricep exercise", 3),
    ExerciseSeed(3, "Incline Dumbbell Press", "Upper chest focused press", 4),
    ExerciseSeed(3, "Lateral Raises", "Side delt isolation", 3),
    ExerciseSeed(3, "Tricep Extensions", "Overhead tricep exercise", 3),
    ExerciseSeed(4, "Squats", "Primary leg compound movement", 4),
    ExerciseSeed(4, "Bulgarian Split Squats", "Single leg quad exercise", 3),
    ExerciseSeed(4, "Hip Thrusts", "Glute focused exercise", 3),
    ExerciseSeed(5, "Romanian Deadlifts", "Hamstring focused movement", 4),
    ExerciseSeed(5, "Walking Lunges", "Dynamic leg exercise", 3),
    ExerciseSeed(5, "Calf Raises", "Calf isolation exercise", 4),
    ExerciseSeed(6, "Deadlifts", "Full body compound movement", 3),
    ExerciseSeed(6, "Push-ups", "Bodyweight chest exercise", 3),
    ExerciseSeed(6, "Bodyweight Squats", "Bodyweight leg exercise", 3),
    ExerciseSeed(7, "Plank", "Core stability exercise", 3),
    ExerciseSeed(7, "Mountain Climbers", "Cardio and core exercise", 4),
    ExerciseSeed(7, "Russian Twists", "Oblique focused exercise", 3)
  ]

  /** The exercise rows to insert once the sessions have their ids. */
  function ExerciseDrafts(seeds: seq<ExerciseSeed>, sessions: seq<TrainingSession>): (r: seq<NewExercise>)
    requires forall i :: 0 <= i < |seeds| ==> seeds[i].session < |sessions|
    ensures |r| == |seeds|
  {
    seq(|seeds|, i requires 0 <= i < |seeds| =>
      NewExercise(sessions[seeds[i].session].id, seeds[i].name, Some(seeds[i].description), seeds[i].targetSeries))
  }

  /** Target repetitions and target weight of a set. */
  datatype Scheme = Scheme(reps: int, weight: int)

  const Schemes: set<Scheme> := {Scheme(60, 0), Scheme(8, 0), Scheme(6, 80), Scheme(12, 15), Scheme(10, 50)}

  predicate Bodyweight(name: string) {
    Contains(name, "Plank") || Contains(name, "Pull-ups") || Contains(name, "Push-ups")
  }

  /** The first-match chain on the exercise name. Every scheme asks for a
      positive number of repetitions and a non-negative weight, and the
      weight is zero exactly for the bodyweight names. */
  function RepScheme(name: string): (s: Scheme)
    ensures s in Schemes && s.reps > 0 && s.weight >= 0
    ensures s.weight == 0 <==> Bodyweight(name)
    ensures Contains(name, "Plank") ==> s == Scheme(60, 0)
  {
    if Contains(name, "Plank") then Scheme(60, 0)
    else if Contains(name, "Pull-ups") || Contains(name, "Push-ups") then Scheme(8, 0)
    else if Contains(name, "Deadlifts") || Contains(name, "Squats") then Scheme(6, 80)
    else if Contains(name, "Curls") || Contains(name, "Raises") then Scheme(12, 15)
    else Scheme(10, 50)
  }

  /** The first `n` set slots of exercise `e`, numbered from 1. */
  function SeriesUpTo(e: Exercise, n: int): (r: seq<NewSeries>)
    ensures |r| == if n < 0 then 0 else n
    ensures forall k :: 0 <= k < |r| ==>
      r[k] == NewSeries(e.id, k + 1, RepScheme(e.name).reps, RepScheme(e.name).weight)
    decreases n
  {
    if n <= 0 then [] else SeriesUpTo(e, n - 1) + [NewSeries(e.id, n, RepScheme(e.name).reps, RepScheme(e.name).weight)]
  }

  /** Every set slot of one exercise. */
  function SeriesFor(e: Exercise): seq<NewSeries> {
    SeriesUpTo(e, e.targetSeries)
  }

  /** The number of set slots of the first `k` exercises. */
  function SlotCount(es: seq<Exercise>, k: nat): nat
    requires k <= |es|
    decreases k
  {
    if k == 0 then 0
    else SlotCount(es, k - 1) + (if es[k - 1].targetSeries < 0 then 0 else es[k - 1].targetSeries)
  }

  /** The series rows the nested loop has collected after the first `k`
      exercises: the slots of each exercise, in exercise order. */
  function SeriesPlan(es: seq<Exercise>, k: nat): (r: seq<NewSeries>)
    requires k <= |es|
    ensures |r| == SlotCount(es, k)
    decreases k
  {
    if k == 0 then [] else SeriesPlan(es, k - 1) + SeriesFor(es[k - 1])
  }

  /** Set slots belonging to exercise `x`. */
  function OfExercise(x: int): NewSeries -> bool {
    (s: NewSeries) => s.exerciseId == x
  }

  /** With distinct exercise ids, the series rows of exercise `j` among
      those collected for the first `k` exercises are none while `j` has not
      been reached, and then exactly its slots 1..target_series, in
      ascending order. */
  lemma {:induction false} SeriesOfExercise(es: seq<Exercise>, k: nat, j: int)
    requires 0 <= j < |es| && k <= |es|
    requires forall a, b :: 0 <= a < b < |es| ==> es[a].id != es[b].id
    ensures Filter(SeriesPlan(es, k), OfExercise(es[j].id)) == if k <= j then [] else SeriesFor(es[j])
    decreases k
  {
    if k > 0 {
      var p := OfExercise(es[j].id);
      var prev, last := SeriesPlan(es, k - 1), SeriesFor(es[k - 1]);
      assert SeriesPlan(es, k) == prev + last;
      SeriesOfExercise(es, k - 1, j);
      if k - 1 == j {
        FilterOwnBlock(prev, last, p);
      } else {
        assert es[k - 1].id != es[j].id;
        assert forall i :: 0 <= i < |last| ==> last[i].exerciseId == es[k - 1].id;
        FilterOtherBlock(prev, last, p);
      }
    }
  }

  /** The literal sessions: eight of them, two of each type in the order
      pull, push, legs, other. */
  lemma SeedSessions()
    ensures |SessionSeeds| == 8
    ensures forall i :: 0 <= i < |SessionSeeds| ==> SessionSeeds[i].kind == TrainingTypes[i / 2]
  {
  }

  /** The literal exercises: twenty-four of them, three per session in
      session order, each with 2 to 4 sets. */
  lemma SeedExercises()
    ensures |ExerciseSeeds| == 24
    ensures forall i :: 0 <= i < |ExerciseSeeds| ==>
      ExerciseSeeds[i].session == i / 3 && ValidTargetSeries(ExerciseSeeds[i].targetSeries)
  {
  }

  /** Every exercise seed names one of `n` inserted sessions. */
  predicate LinksInRange(seeds: seq<ExerciseSeed>, n: int) {
    forall i :: 0 <= i < |seeds| ==> seeds[i].session < n
  }

  /** Every exercise seed names one of the eight sessions. */
  lemma SeedLinksInRange()
    ensures LinksInRange(ExerciseSeeds, |SessionSeeds|)
  {
    SeedExercises();
  }

  /** Each inserted exercise points at the session inserted at its seed's
      position and asks for 2 to 4 sets. */
  lemma {:induction false} SeededExerciseLinks(sessions: seq<TrainingSession>, first: int, now: int)
    requires |sessions| == 8
    ensures var es := ExerciseRows(ExerciseDrafts(ExerciseSeeds, sessions), first, now);
      |es| == 24 && forall i :: 0 <= i < 24 ==> es[i].sessionId == sessions[i / 3].id && ExerciseRecordValid(es[i])
  {
    SeedExercises();
    var drafts := ExerciseDrafts(ExerciseSeeds, sessions);
    var es := ExerciseRows(drafts, first, now);
    forall i | 0 <= i < 24 ensures es[i].sessionId == sessions[i / 3].id && ExerciseRecordValid(es[i]) {
      assert es[i].sessionId == drafts[i].sessionId && es[i].targetSeries == drafts[i].targetSeries;
      assert drafts[i].sessionId == sessions[ExerciseSeeds[i].session].id;
    }
  }

  /** Seeded exercises have distinct ids, so the series rows of each are
      exactly its own set slots. */
  lemma SeededSeriesPerExercise(es: seq<Exercise>, first: int, j: int)
    requires forall i :: 0 <= i < |es| ==> es[i].id == first + i
    requires 0 <= j < |es|
    ensures Filter(SeriesPlan(es, |es|), OfExercise(es[j].id)) == SeriesFor(es[j])
  {
    SeriesOfExercise(es, |es|, j);
  }

  /** The target series of the seeded exercise at position `i`: four sets
      at the eight positions listed, three everywhere else. */
  function SeedTarget(i: int): int {
    if i == 1 || i == 3 || i == 6 || i == 9 || i == 12 || i == 15 || i == 17 || i == 22 then 4 else 3
  }

  /** The number of set slots of the first `k` seeded exercises. */
  function SeedSlots(k: nat): int
    decreases k
  {
    if k == 0 then 0 else SeedSlots(k - 1) + SeedTarget(k - 1)
  }

  lemma SeedTargetsOfSeeds()
    ensures forall i :: 0 <= i < |ExerciseSeeds| ==> ExerciseSeeds[i].targetSeries == SeedTarget(i)
  {
  }

  /** The slot count of exercises with the seeded targets. */
  lemma {:induction false} SlotCountOfTargets(es: seq<Exercise>, k: nat)
    requires k <= |es| && forall i :: 0 <= i < |es| ==> es[i].targetSeries == SeedTarget(i)
    ensures SlotCount(es, k) == SeedSlots(k)
    decreases k
  {
    if k > 0 {
      SlotCountOfTargets(es, k - 1);
    }
  }

  /** The seeded target series add up to eighty. */
  lemma SeedSlotsTotal()
    ensures SeedSlots(24) == 80
  {
    assert SeedSlots(2) == 7;
    assert SeedSlots(4) == 14;
    assert SeedSlots(6) == 20;
    assert SeedSlots(8) == 27;
    assert SeedSlots(10) == 34;
    assert SeedSlots(12) == 40;
    assert SeedSlots(14) == 47;
    assert SeedSlots(16) == 54;
    assert SeedSlots(18) == 61;
    assert SeedSlots(20) == 67;
    assert SeedSlots(22) == 73;
  }

  /** The exercises the seeder inserts, whose target series are those of
      the seeds, have eighty set slots in all. */
  lemma {:induction false} SeedSlotCount(es: seq<Exercise>)
    requires |es| == 24
    requires forall i :: 0 <= i < |es| ==> es[i].targetSeries == ExerciseSeeds[i].targetSeries
    ensures SlotCount(es, |es|) == 80
  {
    SeedTargetsOfSeeds();
    SlotCountOfTargets(es, 24);
    SeedSlotsTotal();
  }

  /** The record schema asks for a positive target weight, but the slots of
      a bodyweight exercise are seeded with weight 0; "Pull-ups" is the
      first seeded exercise and is one. */
  lemma BodyweightSeriesFailRecordSchema(e: Exercise, first: int, now: int)
    requires Bodyweight(e.name) && e.targetSeries >= 1
    ensures forall r :: r in SeriesRows(SeriesFor(e), first, now) ==> !SeriesRecordValid(r)
    ensures Bodyweight(ExerciseSeeds[0].name)
  {
    var rows := SeriesRows(SeriesFor(e), first, now);
    forall r | r in rows ensures !SeriesRecordValid(r) {
      var k :| 0 <= k < |rows| && rows[k] == r;
      assert r.targetWeight == SeriesFor(e)[k].targetWeight;
    }
    assert Contains(ExerciseSeeds[0].name, "Pull-ups");
  }

  /** The nested loop of the seeder: for every exercise, one draft per set
      slot numbered 1..target_series, with the targets of the name rule. */
  method CollectSeries(exercises: seq<Exercise>) returns (seriesData: seq<NewSeries>)
    ensures seriesData == SeriesPlan(exercises, |exercises|)
  {
    seriesData := [];
    var i := 0;
    while i < |exercises|
      invariant 0 <= i <= |exercises|
      invariant seriesData == SeriesPlan(exercises, i)
    {
      var exercise := exercises[i];
      var seriesNum := 1;
      while seriesNum <= exercise.targetSeries
        invariant 1 <= seriesNum && (seriesNum == 1 || seriesNum <= exercise.targetSeries + 1)
        invariant seriesData == SeriesPlan(exercises, i) + SeriesUpTo(exercise, seriesNum - 1)
      {
        var targetReps := 10;
        var targetWeight := 50;
        if Contains(exercise.name, "Plank") {
          targetReps, targetWeight := 60, 0;
        } else if Contains(exercise.name, "Pull-ups") || Contains(exercise.name, "Push-ups") {
          targetReps, targetWeight := 8, 0;
        } else if Contains(exercise.name, "Deadlifts") || Contains(exercise.name, "Squats") {
          targetReps, targetWeight := 6, 80;
        } else if Contains(exercise.name, "Curls") || Contains(exercise.name, "Raises") {
          targetReps, targetWeight := 12, 15;
        }
        assert Scheme(targetReps, targetWeight) == RepScheme(exercise.name);
        ghost var done := SeriesUpTo(exercise, seriesNum - 1);
        var slot := NewSeries(exercise.id, seriesNum, targetReps, targetWeight);
        assert SeriesUpTo(exercise, seriesNum) == done + [slot];
        assert (SeriesPlan(exercises, i) + done) + [slot] == SeriesPlan(exercises, i) + (done + [slot]);
        seriesData := seriesData + [slot];
        seriesNum := seriesNum + 1;
      }
      assert SeriesUpTo(exercise, seriesNum - 1) == SeriesFor(exercise);
      i := i + 1;
    }
  }

  /** The first two inserts of the seeder, for any session and exercise
      literals whose links name an inserted session. */
  method SeedCatalogue(db: Store, sessionSeeds: seq<NewSession>, exerciseSeeds: seq<ExerciseSeed>, now: int)
    returns (sessions: seq<TrainingSession>, exercises: seq<Exercise>)
    requires db.Valid()
    requires LinksInRange(exerciseSeeds, |sessionSeeds|)
    modifies db`sessions, db`exercises, db`nextId
    ensures db.Valid()
    ensures sessions == SessionRows(sessionSeeds, old(db.nextId), now)
    ensures exercises == ExerciseRows(ExerciseDrafts(exerciseSeeds, sessions), old(db.nextId) + |sessionSeeds|, now)
    ensures db.sessions == old(db.sessions) + sessions
    ensures db.exercises == old(db.exercises) + exercises
    ensures db.nextId == old(db.nextId) + |sessionSeeds| + |exerciseSeeds|
  {
    sessions := db.InsertSessions(sessionSeeds, now);
    exercises := db.InsertExercises(ExerciseDrafts(exerciseSeeds, sessions), now);
  }

  /** The last insert of the seeder: the series rows of the inserted
      exercises. */
  method SeedSeries(db: Store, exercises: seq<Exercise>, first: int, now: int) returns (series: seq<Series>)
    requires db.Valid() && db.nextId == first
    modifies db`series, db`nextId
    ensures db.Valid()
    ensures series == SeriesRows(SeriesPlan(exercises, |exercises|), first, now)
    ensures db.series == old(db.series) + series
    ensures db.nextId == old(db.nextId) + |series|
  {
    var seriesData := CollectSeries(exercises);
    series := db.InsertSeries(seriesData, now);
  }

  /** The three inserts of the seeder, for any session and exercise
      literals whose links name an inserted session. */
  method Seed(db: Store, sessionSeeds: seq<NewSession>, exerciseSeeds: seq<ExerciseSeed>, now: int)
    returns (sessions: seq<TrainingSession>, exercises: seq<Exercise>, series: seq<Series>)
    requires db.Valid()
    requires LinksInRange(exerciseSeeds, |sessionSeeds|)
    modifies db`sessions, db`exercises, db`series, db`nextId
    ensures db.Valid()
    ensures sessions == SessionRows(sessionSeeds, old(db.nextId), now)
    ensures exercises == ExerciseRows(ExerciseDrafts(exerciseSeeds, sessions), old(db.nextId) + |sessionSeeds|, now)
    ensures series == SeriesRows(SeriesPlan(exercises, |exercises|), old(db.nextId) + |sessionSeeds| + |exerciseSeeds|, now)
    ensures db.sessions == old(db.sessions) + sessions
    ensures db.exercises == old(db.exercises) + exercises
    ensures db.series == old(db.series) + series
    ensures db.nextId == old(db.nextId) + |sessionSeeds| + |exerciseSeeds| + |series|
  {
    var first := db.nextId;
    sessions, exercises := SeedCatalogue(db, sessionSeeds, exerciseSeeds, now);
    series := SeedSeries(db, exercises, first + |sessionSeeds| + |exerciseSeeds|, now);
  }

  /** Seeds the catalogue. Nothing already stored is consulted: every call
      appends a further eight sessions, twenty-four exercises and their
      series rows. */
  method InitializeTrainingData(db: Store, now: int)
    returns (sessions: seq<TrainingSession>, exercises: seq<Exercise>, series: seq<Series>)
    requires db.Valid()
    modifies db`sessions, db`exercises, db`series, db`nextId
    ensures db.Valid()
    ensures sessions == SessionRows(SessionSeeds, old(db.nextId), now)
    ensures exercises == ExerciseRows(ExerciseDrafts(ExerciseSeeds, sessions), old(db.nextId) + |SessionSeeds|, now)
    ensures series == SeriesRows(SeriesPlan(exercises, |exercises|), old(db.nextId) + |SessionSeeds| + |ExerciseSeeds|, now)
    ensures db.sessions == old(db.sessions) + sessions
    ensures db.exercises == old(db.exercises) + exercises
    ensures db.series == old(db.series) + series
    ensures db.nextId == old(db.nextId) + |SessionSeeds| + |ExerciseSeeds| + |series|
  {
    SeedLinksInRange();
    sessions, exercises, series := Seed(db, SessionSeeds, ExerciseSeeds, now);
  }
}
