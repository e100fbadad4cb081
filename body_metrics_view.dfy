/** The body-metrics screen of the client (`BodyMetricsTracker`): the table
    of measurement types with their default units, the latest measurement
    of a type, the submit guard, the prepending of a recorded measurement
    and the ten-entry history. */
module MetricsScreen {

  import opened Wrappers
  import opened Text
  import opened Tables
  import opened Rows
  import opened Validation

  /** One row of the type selector. */
  datatype MetricOption = MetricOption(value: MetricType, name: string, defaultUnit: string)

  /** `METRIC_TYPES`, in the selector's order (icons left out). */
  const MetricOptions: seq<MetricOption> := [
    MetricOption(Arms, "Arms", "cm"),
    MetricOption(MetricType.Legs, "Legs", "cm"),
    MetricOption(Core, "Core", "cm"),
    MetricOption(Chest, "Chest", "cm"),
    MetricOption(Shoulders, "Shoulders", "cm"),
    MetricOption(Waist, "Waist", "cm"),
    MetricOption(MetricType.Weight, "Weight", "kg")
  ]

  /** `METRIC_TYPES.find` on the type: the first option of the type. */
  function FindOption(t: MetricType): (r: Option<MetricOption>)
    ensures r.Some? ==> r.value in MetricOptions && r.value.value == t
  {
    FindOptionFrom(MetricOptions, t)
  }

  function FindOptionFrom(options: seq<MetricOption>, t: MetricType): (r: Option<MetricOption>)
    ensures r.None? <==> forall i :: 0 <= i < |options| ==> options[i].value != t
    ensures r.Some? ==> r.value in options && r.value.value == t
    ensures r.Some? ==> exists k :: 0 <= k < |options| && options[k] == r.value && forall j :: 0 <= j < k ==> options[j].value != t
    decreases |options|
  {
    if options == [] then None
    else if options[0].value == t then Some(options[0])
    else
      var r := FindOptionFrom(options[1..], t);
      assert forall i :: 1 <= i < |options| ==> options[i] == options[1..][i - 1];
      assert r.Some? ==> exists k :: 0 <= k < |options| && options[k] == r.value && forall j :: 0 <= j < k ==> options[j].value != t by {
        if r.Some? {
          var k :| 0 <= k < |options[1..]| && options[1..][k] == r.value && forall j :: 0 <= j < k ==> options[1..][j].value != t;
          assert options[k + 1] == r.value;
        }
      }
      r
  }

  /** The selector lists exactly the seven measurement types of the schema,
      each once, so the lookup of a type never fails. */
  lemma MetricOptionsCoverTypes()
    ensures |MetricOptions| == |MetricTypes|
    ensures forall i :: 0 <= i < |MetricOptions| ==> MetricOptions[i].value == MetricTypes[i]
    ensures forall t :: FindOption(t).Some?
  {
    forall t: MetricType ensures FindOption(t).Some? {
      assert MetricOptions[0].value == Arms && MetricOptions[6].value == MetricType.Weight;
      assert exists i :: 0 <= i < |MetricOptions| && MetricOptions[i].value == t by {
        match t
        case Arms => assert MetricOptions[0].value == t;
        case Legs => assert MetricOptions[1].value == t;
        case Core => assert MetricOptions[2].value == t;
        case Chest => assert MetricOptions[3].value == t;
        case Shoulders => assert MetricOptions[4].value == t;
        case Waist => assert MetricOptions[5].value == t;
        case Weight => assert MetricOptions[6].value == t;
      }
    }
  }

  /** Weight is measured in kilograms, every circumference in centimetres. */
  lemma OptionUnits()
    ensures forall o :: o in MetricOptions ==> o.defaultUnit == if o.value == MetricType.Weight then "kg" else "cm"
  {
  }

  /** The unit the form switches to when a type is selected: kilograms for
      body weight, centimetres for every circumference. */
  function DefaultUnit(t: MetricType): (u: string)
    ensures u == if t == MetricType.Weight then "kg" else "cm"
  {
    MetricOptionsCoverTypes();
    OptionUnits();
    FindOption(t).value.defaultUnit
  }

  /** No measurement of type `t` listed before position `k` is as recent as
      the one at `k`. */
  ghost predicate NoTieBefore(metrics: seq<BodyMetric>, t: MetricType, k: int)
    requires 0 <= k < |metrics|
  {
    forall i :: 0 <= i < k && metrics[i].metricType == t ==> metrics[i].recordedAt < metrics[k].recordedAt
  }

  /** `getLatestMetricForType`: the measurements of the type, newest first,
      and the first of them. The sort is stable, so among equally recent
      measurements the one listed first wins. */
  function LatestOfType(metrics: seq<BodyMetric>, t: MetricType): (r: Option<BodyMetric>)
    ensures r.None? <==> forall i :: 0 <= i < |metrics| ==> metrics[i].metricType != t
    ensures r.Some? ==> r.value.metricType == t
    ensures r.Some? ==> forall i :: 0 <= i < |metrics| && metrics[i].metricType == t ==> metrics[i].recordedAt <= r.value.recordedAt
    ensures r.Some? ==> exists k :: 0 <= k < |metrics| && metrics[k] == r.value && NoTieBefore(metrics, t, k)
    decreases |metrics|
  {
    if metrics == [] then None
    else
      var rest := LatestOfType(metrics[1..], t);
      assert forall i :: 1 <= i < |metrics| ==> metrics[i] == metrics[1..][i - 1];
      if metrics[0].metricType == t && (rest.None? || metrics[0].recordedAt >= rest.value.recordedAt) then
        assert NoTieBefore(metrics, t, 0);
        Some(metrics[0])
      else
        assert rest.Some? ==> exists k :: 0 <= k < |metrics| && metrics[k] == rest.value && NoTieBefore(metrics, t, k) by {
          if rest.Some? {
            var k :| 0 <= k < |metrics[1..]| && metrics[1..][k] == rest.value && NoTieBefore(metrics[1..], t, k);
            assert metrics[k + 1] == rest.value;
            assert NoTieBefore(metrics, t, k + 1) by {
              forall i | 0 <= i < k + 1 && metrics[i].metricType == t
                ensures metrics[i].recordedAt < metrics[k + 1].recordedAt
              {
                if i > 0 {
                  assert metrics[i] == metrics[1..][i - 1];
                }
              }
            }
          }
        }
        rest
  }

  function OfType(t: MetricType): BodyMetric -> bool {
    (m: BodyMetric) => m.metricType == t
  }

  function RecordedAt(m: BodyMetric): int { m.recordedAt }

  /** However ties are ordered, the head of the type's measurements sorted
      newest first is as recent as the selected one. */
  lemma LatestIsHeadOfNewestFirst(metrics: seq<BodyMetric>, t: MetricType, v: seq<BodyMetric>)
    requires SortedPermutation(v, Filter(metrics, OfType(t)), RecordedAt, true)
    ensures v == [] <==> LatestOfType(metrics, t).None?
    ensures v != [] ==> v[0].recordedAt == LatestOfType(metrics, t).value.recordedAt
  {
    var f := Filter(metrics, OfType(t));
    var latest := LatestOfType(metrics, t);
    if v != [] {
      assert v[0] in multiset(f);
      assert v[0] in f;
      var k :| 0 <= k < |metrics| && metrics[k] == latest.value;
      assert metrics[k] in f;
      assert metrics[k] in multiset(v);
      var m :| 0 <= m < |v| && v[m] == metrics[k];
      if m > 0 {
        assert Precedes(RecordedAt, true, v[0], v[m]);
      }
    }
  }

  /** A measurement recorded after every other of its type becomes the
      latest of its type once prepended. */
  lemma NewestPrependedIsLatest(m: BodyMetric, metrics: seq<BodyMetric>)
    requires forall i :: 0 <= i < |metrics| && metrics[i].metricType == m.metricType ==> metrics[i].recordedAt <= m.recordedAt
    ensures LatestOfType([m] + metrics, m.metricType) == Some(m)
  {
    assert ([m] + metrics)[1..] == metrics;
  }

  /** The submit guard: an empty value, or one that reads as a number not
      above zero, sends nothing. A value that is not a number at all
      passes (`NaN <= 0` is false). */
  predicate SubmitBlocked(value: string) {
    value == "" || (JsParseInt(value).Some? && JsParseInt(value).value <= 0)
  }

  /** A typed number gets through exactly when it is positive. */
  lemma SubmitGuardOnNumbers(n: int)
    ensures SubmitBlocked(IntToString(n)) <==> n <= 0
    ensures SubmitBlocked("")
  {
    JsParseIntOfIntToString(n);
  }

  /** The request a passing submit sends. */
  function MetricRequest(userId: string, t: MetricType, value: string, unit: string): (r: Option<MetricInput>)
    ensures r.Some? <==> !SubmitBlocked(value) && JsParseInt(value).Some?
    ensures r.Some? ==>
      && r.value.userId == userId && r.value.metricType == t && r.value.unit == unit
      && r.value.recordedAt.None? && MetricInputValid(r.value)
  {
    if SubmitBlocked(value) then None
    else match JsParseInt(value)
      case None => None
      case Some(x) => Some(MetricInput(userId, t, x, unit, None))
  }

  /** The recent-history list: the first ten measurements. */
  function History(metrics: seq<BodyMetric>): (r: seq<BodyMetric>)
    ensures |r| == if |metrics| < 10 then |metrics| else 10
    ensures r <= metrics
  {
    if |metrics| < 10 then metrics else metrics[..10]
  }

  /** After a measurement is recorded the history opens with it, followed by
      what it showed before, less its tenth entry when it was full. */
  lemma HistoryAfterPrepend(m: BodyMetric, metrics: seq<BodyMetric>)
    ensures History([m] + metrics) == [m] + (if |metrics| < 9 then metrics else metrics[..9])
    ensures |metrics| >= 9 ==> History([m] + metrics)[1..] == History(metrics)[..9]
  {
  }

  /** The screen's state. */
  class MetricsForm {
    var metrics: seq<BodyMetric>
    var selected: MetricType
    var value: string
    var unit: string

    constructor ()
      ensures metrics == [] && selected == MetricType.Weight && value == "" && unit == "kg"
    {
      metrics, selected, value, unit := [], MetricType.Weight, "", "kg";
    }

    /** The response of `getBodyMetrics` replaces the list. */
    method Loaded(result: seq<BodyMetric>)
      modifies this`metrics
      ensures metrics == result
    {
      metrics := result;
    }

    /** Selecting a type, and the effect that follows it: the effect runs
        only when the selected type changes, and then resets the unit to the
        type's default; picking the type already selected keeps the unit,
        typed or not. */
    method SelectType(t: MetricType)
      modifies this`selected, this`unit
      ensures selected == t
      ensures t != old(selected) ==> unit == DefaultUnit(t)
      ensures t == old(selected) ==> unit == old(unit)
    {
      if t != selected {
        selected := t;
        MetricOptionsCoverTypes();
        var o := FindOption(t);
        if o.Some? {
          unit := o.value.defaultUnit;
        }
      }
    }

    /** The value input's change handler: the typed text, kept as text. */
    method EditValue(text: string)
      modifies this`value
      ensures value == text
    {
      value := text;
    }

    /** The unit input's change handler: any text replaces the unit. */
    method EditUnit(text: string)
      modifies this`unit
      ensures unit == text
    {
      unit := text;
    }

    /** `handleSubmit`: the request it sends (none when the guard stops it)
        and, when the server answers with the created measurement, that
        measurement in front of the list and the value cleared. */
    method Submit(userId: string, created: Option<BodyMetric>) returns (request: Option<MetricInput>)
      modifies this`metrics, this`value
      ensures request == MetricRequest(userId, selected, old(value), unit)
      ensures request.Some? && created.Some? ==> metrics == [created.value] + old(metrics) && value == ""
      ensures request.None? || created.None? ==> metrics == old(metrics) && value == old(value)
    {
      request := MetricRequest(userId, selected, value, unit);
      if request.Some? && created.Some? {
        metrics := [created.value] + metrics;
        value := "";
      }
    }
  }
}
