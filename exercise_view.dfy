/** The exercise screen of the client (`ExerciseView`): one performance
    entry per prescribed set, prefilled from the latest workout or from the
    targets, edited field by field, and completed set after set, each
    completion logging the set through `createUserExerciseLog`. */
module ExerciseScreen {

  import opened Wrappers
  import opened Tables
  import opened Validation
  import opened Queries

  /** What the user did (or is about to do) in one set. */
  datatype Performance = Performance(seriesNumber: int, repetitions: int, weight: int, completed: bool)

  /** The two editable fields of an entry. */
  datatype Field = Repetitions | Weight

  /** `find` on the set number: the first log of set `n`. */
  function FindLog(logs: seq<ExerciseLog>, n: int): (r: Option<ExerciseLog>)
    ensures r.None? <==> forall i :: 0 <= i < |logs| ==> logs[i].seriesNumber != n
    ensures r.Some? ==> r.value in logs && r.value.seriesNumber == n
    ensures r.Some? ==> exists k :: 0 <= k < |logs| && logs[k] == r.value && forall j :: 0 <= j < k ==> logs[j].seriesNumber != n
    decreases |logs|
  {
    if logs == [] then None
    else if logs[0].seriesNumber == n then Some(logs[0])
    else
      var r := FindLog(logs[1..], n);
      assert forall i :: 1 <= i < |logs| ==> logs[i] == logs[1..][i - 1];
      assert r.Some? ==> exists k :: 0 <= k < |logs| && logs[k] == r.value && forall j :: 0 <= j < k ==> logs[j].seriesNumber != n by {
        if r.Some? {
          var k :| 0 <= k < |logs[1..]| && logs[1..][k] == r.value && forall j :: 0 <= j < k ==> logs[1..][j].seriesNumber != n;
          assert logs[k + 1] == r.value;
        }
      }
      r
  }

  /** JavaScript's `a || b` on a number that may be missing: a missing value
      and 0 both give `b`. */
  function OrElse(a: Option<int>, b: int): int {
    if a.Some? && a.value != 0 then a.value else b
  }

  function InitialEntry(s: Series, last: seq<ExerciseLog>): Performance {
    var prior := FindLog(last, s.seriesNumber);
    Performance(s.seriesNumber,
                OrElse(if prior.Some? then Some(prior.value.repetitions) else None, s.targetRepetitions),
                OrElse(if prior.Some? then Some(prior.value.weight) else None, s.targetWeight),
                false)
  }

  /** The list built when the exercise loads: one open entry per series, in
      the series' order, carrying the last workout's non-zero value for the
      same set number and the target otherwise. */
  function InitialPerformance(series: seq<Series>, last: seq<ExerciseLog>): (r: seq<Performance>)
    ensures |r| == |series|
    ensures forall i :: 0 <= i < |r| ==> r[i].seriesNumber == series[i].seriesNumber && !r[i].completed
    ensures forall i :: 0 <= i < |r| ==>
      || r[i].repetitions == series[i].targetRepetitions
      || (exists l :: l in last && l.seriesNumber == series[i].seriesNumber && l.repetitions == r[i].repetitions != 0)
    ensures forall i :: 0 <= i < |r| ==>
      || r[i].weight == series[i].targetWeight
      || (exists l :: l in last && l.seriesNumber == series[i].seriesNumber && l.weight == r[i].weight != 0)
    ensures forall i :: 0 <= i < |r| && FindLog(last, series[i].seriesNumber).None? ==>
      r[i].repetitions == series[i].targetRepetitions && r[i].weight == series[i].targetWeight
    ensures forall i :: 0 <= i < |r| ==> var f := FindLog(last, series[i].seriesNumber);
      f.Some? && f.value.repetitions != 0 ==> r[i].repetitions == f.value.repetitions
    ensures forall i :: 0 <= i < |r| ==> var f := FindLog(last, series[i].seriesNumber);
      f.Some? && f.value.weight != 0 ==> r[i].weight == f.value.weight
    ensures forall i :: 0 <= i < |r| ==> var f := FindLog(last, series[i].seriesNumber);
      f.Some? && f.value.repetitions == 0 ==> r[i].repetitions == series[i].targetRepetitions
    ensures forall i :: 0 <= i < |r| ==> var f := FindLog(last, series[i].seriesNumber);
      f.Some? && f.value.weight == 0 ==> r[i].weight == series[i].targetWeight
  {
    seq(|series|, i requires 0 <= i < |series| => InitialEntry(series[i], last))
  }

  /** The number of completed entries (`getCompletedSetsCount`). */
  function CompletedCount(p: seq<Performance>): (c: nat)
    ensures c <= |p|
    decreases |p|
  {
    if p == [] then 0 else (if p[0].completed then 1 else 0) + CompletedCount(p[1..])
  }

  /** A freshly loaded exercise has no set done. */
  lemma {:induction false} NothingDoneInitially(series: seq<Series>, last: seq<ExerciseLog>)
    ensures CompletedCount(InitialPerformance(series, last)) == 0
  {
    NoneCompleted(InitialPerformance(series, last));
  }

  lemma {:induction false} NoneCompleted(p: seq<Performance>)
    requires forall i :: 0 <= i < |p| ==> !p[i].completed
    ensures CompletedCount(p) == 0
    decreases |p|
  {
    if p != [] {
      NoneCompleted(p[1..]);
    }
  }

  /** The prefilled values come from the latest workout of the exercise as
      `getLastExercisePerformance` returns it: the first of its logs of the
      same set decides, its non-zero values are used and the targets fill in
      for a zero value or a set the latest workout did not log. */
  lemma PrefillFromLatestWorkout(series: seq<Series>, logs: seq<ExerciseLog>, userId: string, exerciseId: int, i: int)
    requires 0 <= i < |series|
    ensures var latest := LatestCompletedAt(logs, userId, exerciseId);
      var f := FindLog(LastExercisePerformance(logs, userId, exerciseId), series[i].seriesNumber);
      && (f.Some? ==>
            && f.value in logs && f.value.userId == userId && f.value.exerciseId == exerciseId
            && f.value.completedAt == latest.value && f.value.seriesNumber == series[i].seriesNumber)
      && (f.None? <==> (latest.None? ||
            forall j :: 0 <= j < |logs| && LogAt(userId, exerciseId, latest.value)(logs[j]) ==> logs[j].seriesNumber != series[i].seriesNumber))
    ensures var last := LastExercisePerformance(logs, userId, exerciseId);
      var f := FindLog(last, series[i].seriesNumber);
      var e := InitialPerformance(series, last)[i];
      && e.repetitions == (if f.Some? && f.value.repetitions != 0 then f.value.repetitions else series[i].targetRepetitions)
      && e.weight == (if f.Some? && f.value.weight != 0 then f.value.weight else series[i].targetWeight)
  {
    var latest := LatestCompletedAt(logs, userId, exerciseId);
    var last := LastExercisePerformance(logs, userId, exerciseId);
    var n := series[i].seriesNumber;
    var f := FindLog(last, n);
    if latest.Some? && f.None? {
      forall j | 0 <= j < |logs| && LogAt(userId, exerciseId, latest.value)(logs[j]) ensures logs[j].seriesNumber != n {
        assert logs[j] in last;
      }
    }
  }

  /** `handleSeriesUpdate`: only `field` of the entries of set `n` changes. */
  function UpdateSeries(p: seq<Performance>, n: int, field: Field, value: int): (r: seq<Performance>)
    ensures |r| == |p|
    ensures forall i :: 0 <= i < |p| && p[i].seriesNumber != n ==> r[i] == p[i]
    ensures forall i :: 0 <= i < |p| && p[i].seriesNumber == n ==>
      && r[i].seriesNumber == n && r[i].completed == p[i].completed
      && (if field == Repetitions then r[i].repetitions == value && r[i].weight == p[i].weight
          else r[i].weight == value && r[i].repetitions == p[i].repetitions)
  {
    seq(|p|, i requires 0 <= i < |p| =>
      if p[i].seriesNumber != n then p[i]
      else if field == Repetitions then p[i].(repetitions := value)
      else p[i].(weight := value))
  }

  /** The last edit of a field wins. */
  lemma UpdateLastWins(p: seq<Performance>, n: int, field: Field, v: int, w: int)
    ensures UpdateSeries(UpdateSeries(p, n, field, v), n, field, w) == UpdateSeries(p, n, field, w)
  {
  }

  /** Editing never changes which sets are done. */
  lemma {:induction false} UpdateKeepsProgress(p: seq<Performance>, n: int, field: Field, v: int)
    ensures CompletedCount(UpdateSeries(p, n, field, v)) == CompletedCount(p)
    decreases |p|
  {
    if p != [] {
      var r := UpdateSeries(p, n, field, v);
      UpdateKeepsProgress(p[1..], n, field, v);
      assert r[1..] == UpdateSeries(p[1..], n, field, v);
    }
  }

  /** The entries of set `n` marked completed, the others untouched. */
  function MarkCompleted(p: seq<Performance>, n: int): (r: seq<Performance>)
    ensures |r| == |p|
    ensures forall i :: 0 <= i < |p| && p[i].seriesNumber != n ==> r[i] == p[i]
    ensures forall i :: 0 <= i < |p| && p[i].seriesNumber == n ==> r[i] == p[i].(completed := true)
    ensures CompletedCount(p) <= CompletedCount(r)
  {
    var r := seq(|p|, i requires 0 <= i < |p| => if p[i].seriesNumber == n then p[i].(completed := true) else p[i]);
    MarkCompletedCount(p, n, r);
    r
  }

  lemma {:induction false} MarkCompletedCount(p: seq<Performance>, n: int, r: seq<Performance>)
    requires |r| == |p|
    requires forall i :: 0 <= i < |p| ==> r[i] == if p[i].seriesNumber == n then p[i].(completed := true) else p[i]
    ensures CompletedCount(p) <= CompletedCount(r)
    decreases |p|
  {
    if p != [] {
      MarkCompletedCount(p[1..], n, r[1..]);
    }
  }

  /** Set numbers are distinct, as the series of one exercise are. */
  ghost predicate DistinctSets(p: seq<Performance>) {
    forall i, j :: 0 <= i < j < |p| ==> p[i].seriesNumber != p[j].seriesNumber
  }

  /** Completing an open set adds exactly one to the completed count. */
  lemma {:induction false} CompleteAddsOne(p: seq<Performance>, n: int, k: int)
    requires DistinctSets(p) && 0 <= k < |p| && p[k].seriesNumber == n && !p[k].completed
    ensures CompletedCount(MarkCompleted(p, n)) == CompletedCount(p) + 1
    decreases |p|
  {
    var r := MarkCompleted(p, n);
    assert r[1..] == MarkCompleted(p[1..], n);
    if k == 0 {
      forall i | 0 <= i < |p[1..]| ensures p[1..][i].seriesNumber != n {
        assert p[1..][i] == p[i + 1];
      }
      assert MarkCompleted(p[1..], n) == p[1..];
    } else {
      CompleteAddsOne(p[1..], n, k - 1);
    }
  }

  /** The screen's state besides the loaded data: the entries, the current
      set, the success banner, and how often the rest timer was started. */
  datatype View = View(performance: seq<Performance>, currentSeries: int, showSuccess: bool, timerStarts: nat)

  /** The first entry of set `n`. */
  function FindEntry(p: seq<Performance>, n: int): (r: Option<Performance>)
    ensures r.None? <==> forall i :: 0 <= i < |p| ==> p[i].seriesNumber != n
    ensures r.Some? ==> exists i ::
      0 <= i < |p| && p[i] == r.value && r.value.seriesNumber == n && forall j :: 0 <= j < i ==> p[j].seriesNumber != n
    decreases |p|
  {
    if p == [] then None
    else if p[0].seriesNumber == n then Some(p[0])
    else
      var r := FindEntry(p[1..], n);
      assert forall i :: 1 <= i < |p| ==> p[i] == p[1..][i - 1];
      assert r.Some? ==> exists i ::
        0 <= i < |p| && p[i] == r.value && r.value.seriesNumber == n && forall j :: 0 <= j < i ==> p[j].seriesNumber != n by {
        if r.Some? {
          var i :| 0 <= i < |p[1..]| && p[1..][i] == r.value && r.value.seriesNumber == n
            && forall j :: 0 <= j < i ==> p[1..][j].seriesNumber != n;
          assert p[i + 1] == r.value;
        }
      }
      r
  }

  /** The log `handleCompleteSet` sends for an entry. */
  function LogRequest(userId: string, exercise: Exercise, e: Performance): (l: LogInput)
    ensures l.userId == userId && l.exerciseId == exercise.id && l.seriesNumber == e.seriesNumber
    ensures l.repetitions == e.repetitions && l.weight == e.weight && l.completedAt.None?
  {
    LogInput(userId, exercise.id, e.seriesNumber, e.repetitions, e.weight, None)
  }

  /** `handleCompleteSet(n)` once the log request has been answered (`saved`
      says whether it succeeded): nothing without an entry for `n` or after a
      failure; otherwise set `n` is done and the screen moves to the next set
      and starts the rest timer, or, after the last set, shows success. */
  function CompleteSet(v: View, exercise: Exercise, n: int, saved: bool): (r: View)
    ensures FindEntry(v.performance, n).None? || !saved ==> r == v
    ensures FindEntry(v.performance, n).Some? && saved ==>
      && r.performance == MarkCompleted(v.performance, n)
      && (n < exercise.targetSeries ==> r.currentSeries == n + 1 && r.timerStarts == v.timerStarts + 1 && r.showSuccess == v.showSuccess)
      && (n >= exercise.targetSeries ==> r.currentSeries == v.currentSeries && r.timerStarts == v.timerStarts && r.showSuccess)
  {
    if FindEntry(v.performance, n).None? || !saved then v
    else
      var p := MarkCompleted(v.performance, n);
      if n < exercise.targetSeries then v.(performance := p, currentSeries := n + 1, timerStarts := v.timerStarts + 1)
      else v.(performance := p, showSuccess := true)
  }

  /** The Complete Set button of set `n` is shown and enabled. */
  predicate CanComplete(v: View, n: int, saving: bool) {
    !saving && v.currentSeries == n && FindEntry(v.performance, n).Some? && !FindEntry(v.performance, n).value.completed
  }

  /** The entries of an exercise with sets 1..T, none done yet. */
  ghost predicate FreshSets(p: seq<Performance>, t: int) {
    |p| == t && forall i :: 0 <= i < |p| ==> p[i].seriesNumber == i + 1 && !p[i].completed
  }

  /** Completing sets 1..k in order, each logged successfully. */
  function RunSets(v: View, exercise: Exercise, k: nat): View
    decreases k
  {
    if k == 0 then v else CompleteSet(RunSets(v, exercise, k - 1), exercise, k, true)
  }

  lemma {:induction false} PrefixCompletedCount(p: seq<Performance>, k: nat)
    requires k <= |p| && forall i :: 0 <= i < |p| ==> (p[i].completed <==> i < k)
    ensures CompletedCount(p) == k
    decreases |p|
  {
    if p != [] {
      if k == 0 {
        NoneCompleted(p);
      } else {
        PrefixCompletedCount(p[1..], k - 1);
      }
    }
  }

  /** Sets 1..t in order, exactly the first k of them done. */
  ghost predicate DoneUpTo(p: seq<Performance>, t: int, k: int) {
    |p| == t && forall i :: 0 <= i < |p| ==> p[i].seriesNumber == i + 1 && (p[i].completed <==> i < k)
  }

  lemma FreshSetsNoneDone(p: seq<Performance>, t: int)
    requires FreshSets(p, t)
    ensures DoneUpTo(p, t, 0)
  {
  }

  lemma DoneUpToCount(p: seq<Performance>, t: int, k: nat)
    requires DoneUpTo(p, t, k) && k <= t
    ensures CompletedCount(p) == k
  {
    PrefixCompletedCount(p, k);
  }

  /** One more set done, in order. */
  lemma CompleteNextSet(v: View, exercise: Exercise, k: int)
    requires 1 <= k <= exercise.targetSeries && DoneUpTo(v.performance, exercise.targetSeries, k - 1)
    ensures var r := CompleteSet(v, exercise, k, true);
      && DoneUpTo(r.performance, exercise.targetSeries, k)
      && (k < exercise.targetSeries ==> r.currentSeries == k + 1 && r.timerStarts == v.timerStarts + 1)
      && (k == exercise.targetSeries ==> r.showSuccess && r.timerStarts == v.timerStarts)
  {
    assert v.performance[k - 1].seriesNumber == k;
    assert FindEntry(v.performance, k).Some?;
  }

  /** After k sets the entry of set k + 1 is found and still open. */
  lemma NextSetOpen(p: seq<Performance>, t: int, k: int)
    requires 0 <= k < t && DoneUpTo(p, t, k)
    ensures FindEntry(p, k + 1).Some? && !FindEntry(p, k + 1).value.completed
  {
    assert p[k].seriesNumber == k + 1;
    var e := FindEntry(p, k + 1);
    var j :| 0 <= j < |p| && p[j] == e.value && e.value.seriesNumber == k + 1;
    assert j == k;
  }

  /** Working through an exercise of T sets in order: after k sets exactly
      the first k are done; before the last the screen points at set k + 1,
      whose button is enabled, and has started the rest timer k times; after
      the last it shows success, having started the timer T - 1 times. */
  lemma {:induction false} WorkThroughSets(v: View, exercise: Exercise, k: nat)
    requires FreshSets(v.performance, exercise.targetSeries) && 1 <= k <= exercise.targetSeries
    ensures var r := RunSets(v, exercise, k);
      && DoneUpTo(r.performance, exercise.targetSeries, k)
      && CompletedCount(r.performance) == k
      && (k < exercise.targetSeries ==> r.currentSeries == k + 1 && r.timerStarts == v.timerStarts + k && CanComplete(r, k + 1, false))
      && (k == exercise.targetSeries ==> r.showSuccess && r.timerStarts == v.timerStarts + k - 1)
    decreases k
  {
    var prev := RunSets(v, exercise, k - 1);
    if k > 1 {
      WorkThroughSets(v, exercise, k - 1);
    } else {
      FreshSetsNoneDone(v.performance, exercise.targetSeries);
    }
    CompleteNextSet(prev, exercise, k);
    var r := RunSets(v, exercise, k);
    assert r == CompleteSet(prev, exercise, k, true);
    DoneUpToCount(r.performance, exercise.targetSeries, k);
    if k < exercise.targetSeries {
      NextSetOpen(r.performance, exercise.targetSeries, k);
    }
  }

  /** The screen's state cell; the request each handler sends is returned. */
  class ExerciseViewState {
    var performance: seq<Performance>
    var currentSeries: int
    var showSuccess: bool
    var timerStarts: nat

    function State(): View
      reads this
    {
      View(performance, currentSeries, showSuccess, timerStarts)
    }

    /** Mounting: no entries yet, and set 1 current. */
    constructor ()
      ensures State() == View([], 1, false, 0)
    {
      performance, currentSeries, showSuccess, timerStarts := [], 1, false, 0;
    }

    /** The load handler once both requests have answered; a missing
        exercise leaves the entries as they were. */
    method Loaded(exercise: Option<ExerciseWithSeries>, last: seq<ExerciseLog>)
      modifies this`performance
      ensures exercise.Some? ==> performance == InitialPerformance(exercise.value.series, last)
      ensures exercise.None? ==> performance == old(performance)
    {
      if exercise.Some? {
        performance := InitialPerformance(exercise.value.series, last);
      }
    }

    method HandleSeriesUpdate(n: int, field: Field, value: int)
      modifies this`performance
      ensures performance == UpdateSeries(old(performance), n, field, value)
    {
      performance := UpdateSeries(performance, n, field, value);
    }

    /** `handleCompleteSet(n)`: the log it sends (none when set `n` has no
        entry) and the new state, given whether the log was saved. */
    method HandleCompleteSet(userId: string, exercise: Exercise, n: int, saved: bool) returns (request: Option<LogInput>)
      modifies this
      ensures FindEntry(old(performance), n).None? ==> request.None?
      ensures FindEntry(old(performance), n).Some? ==> request == Some(LogRequest(userId, exercise, FindEntry(old(performance), n).value))
      ensures State() == CompleteSet(old(State()), exercise, n, saved)
    {
      var entry := FindEntry(performance, n);
      if entry.None? {
        return None;
      }
      request := Some(LogInput(userId, exercise.id, n, entry.value.repetitions, entry.value.weight, None));
      if saved {
        performance := MarkCompleted(performance, n);
        if n < exercise.targetSeries {
          currentSeries := n + 1;
          timerStarts := timerStarts + 1;
        } else {
          showSuccess := true;
        }
      }
    }
  }
}
