/**
 * The weekly chart: the seven dates of the chart week, the date by workout
 * type table of distance sums, the chart series built from it, and the
 * week shift of the previous / next arrows.
 */
module WeekChart {
  import opened Js
  import opened Calendar
  import opened Trainings
  import opened WorkoutTypes
  import TrainingStore

  /** `WEEK_INTERVAL`: the number of days the chart shows. */
  const WeekInterval: nat := 7

  /** The distance sums of one date, keyed by workout type. */
  type Row = map<string, Number>

  /** `IDateToChartSeriesMap`: a row per date. */
  type Frame = map<int, Row>

  /** One chart series: a workout type's label and its value per week date. */
  datatype Series = Series(name: string, data: seq<Number>)

  // ---------------------------------------------------------------------
  // Reference definitions

  /** The chart week's dates, Monday first. */
  function WeekDates(chartWeek: Monday): seq<int>
  {
    seq(WeekInterval, i requires 0 <= i < WeekInterval => chartWeek + i)
  }

  /** The total distance of the trainings on `date` of workout type `workoutType`. */
  function DistanceSum(trainings: seq<Training>, date: int, workoutType: string): real
  {
    if |trainings| == 0 then 0.0
    else
      var last := trainings[|trainings| - 1];
      DistanceSum(trainings[..|trainings| - 1], date, workoutType)
      + (if last.date == date && last.workoutType == workoutType then last.distanceInKM else 0.0)
  }

  /** The workout types of the trainings on `date`. */
  function TypesOn(trainings: seq<Training>, date: int): set<string>
  {
    if |trainings| == 0 then {}
    else
      var last := trainings[|trainings| - 1];
      TypesOn(trainings[..|trainings| - 1], date) + (if last.date == date then {last.workoutType} else {})
  }

  /** The series the chart should show: per workout type, its distance sum on each week date. */
  function ExpectedSeries(trainings: seq<Training>, chartWeek: Monday): seq<Series>
  {
    seq(|WorkoutTuple|, i requires 0 <= i < |WorkoutTuple| =>
      Series(Label(WorkoutTuple[i]),
             seq(WeekInterval, j requires 0 <= j < WeekInterval =>
               Finite(DistanceSum(trainings, chartWeek + j, WorkoutTuple[i])))))
  }

  // ---------------------------------------------------------------------
  // The week's dates

  /**
   * `generateChartWeekDates`: starts the day before the week's Monday and
   * steps one day forward per date.
   */
  method GenerateChartWeekDates(chartWeek: Monday) returns (dates: seq<int>)
    ensures dates == WeekDates(chartWeek)
  {
    var dateMoment := chartWeek - 1;
    dates := [];
    while |dates| < WeekInterval
      invariant |dates| <= WeekInterval
      invariant dateMoment == chartWeek + |dates| - 1
      invariant forall i :: 0 <= i < |dates| ==> dates[i] == chartWeek + i
    {
      dateMoment := dateMoment + 1;
      dates := dates + [dateMoment];
    }
  }

  /**
   * The week is seven consecutive days from its Monday to its Sunday; a date
   * is one of them exactly when it lies between the first and the last.
   */
  lemma WeekDatesSpan(chartWeek: Monday)
    ensures var dates := WeekDates(chartWeek);
      && |dates| == 7 && dates[0] == chartWeek && dates[|dates| - 1] == chartWeek + 6
      && (forall i :: 0 < i < |dates| ==> dates[i] == dates[i - 1] + 1)
      && (forall i, j :: 0 <= i < j < |dates| ==> dates[i] < dates[j])
      && (forall i :: 0 <= i < |dates| ==> Weekday(dates[i]) == i)
      && (forall d :: d in dates <==> dates[0] <= d <= dates[|dates| - 1])
  {
    var dates := WeekDates(chartWeek);
    forall i | 0 <= i < |dates| ensures Weekday(dates[i]) == i {
      WeekdayAfterMonday(chartWeek, i);
    }
    forall d | dates[0] <= d <= dates[|dates| - 1] ensures d in dates {
      assert dates[d - chartWeek] == d;
    }
  }

  /** `convertDatesToDayNames`: each date shown as the short name of its weekday. */
  function ConvertDatesToDayNames(dates: seq<int>): (names: seq<string>)
    ensures |names| == |dates|
    ensures forall i {:trigger names[i]} :: 0 <= i < |dates| ==> names[i] == ShortDayNames[Weekday(dates[i])]
  {
    seq(|dates|, i requires 0 <= i < |dates| => DayName(dates[i]))
  }

  /** The chart's categories are the day names Monday to Sunday, whatever the week. */
  lemma WeekDayNames(chartWeek: Monday)
    ensures ConvertDatesToDayNames(WeekDates(chartWeek)) == ShortDayNames
  {
    WeekDatesSpan(chartWeek);
  }

  // ---------------------------------------------------------------------
  // The table of distance sums

  /**
   * `generateDateToDistanceSumMapFrame`: every date of the week mapped to its
   * own row with every workout type at 0.
   */
  method GenerateDateToDistanceSumMapFrame(dates: seq<int>) returns (frame: Frame)
    ensures forall d :: d in frame <==> d in dates
    ensures forall d, w :: d in frame ==> (w in frame[d] <==> w in WorkoutTuple)
    ensures forall d, w :: d in frame && w in frame[d] ==> frame[d][w] == Finite(0.0)
  {
    var row: Row := map[];
    for i := 0 to |WorkoutTuple|
      invariant forall w :: w in row <==> w in WorkoutTuple[..i]
      invariant forall w :: w in row ==> row[w] == Finite(0.0)
    {
      row := row[WorkoutTuple[i] := Finite(0.0)];
    }
    assert WorkoutTuple[..|WorkoutTuple|] == WorkoutTuple;
    frame := map d | d in dates :: row;
  }

  /** The frame row after one training's `+=` on it. */
  function AddTo(row: Row, workoutType: string, distance: real): Row
  {
    row[workoutType := if workoutType in row then Plus(row[workoutType], distance) else NaN]
  }

  /**
   * The sums table holds the trainings `trainings` added into `frame` over
   * [weekStart, weekEnd]: rows outside the range are untouched; inside it each
   * workout type of the frame row holds its initial value plus the matching
   * distances, and each new key, a workout type not in the row, holds NaN.
   */
  ghost predicate SummedUp(frame: Frame, sums: Frame, trainings: seq<Training>, weekStart: int, weekEnd: int)
  {
    && sums.Keys == frame.Keys
    && (forall d :: d in frame && !(weekStart <= d <= weekEnd) ==> sums[d] == frame[d])
    && (forall d :: d in frame && weekStart <= d <= weekEnd ==>
          sums[d].Keys == frame[d].Keys + TypesOn(trainings, d))
    && (forall d, w :: d in frame && weekStart <= d <= weekEnd && w in frame[d] ==>
          sums[d][w] == Plus(frame[d][w], DistanceSum(trainings, d, w)))
    && (forall d, w :: d in frame && weekStart <= d <= weekEnd && w in sums[d] && w !in frame[d] ==>
          sums[d][w] == NaN)
  }

  /** The sums table after the loop body of the source has seen `training`. */
  function AddTraining(sums: Frame, training: Training, weekStart: int, weekEnd: int): Frame
    requires weekStart <= training.date <= weekEnd ==> training.date in sums
  {
    if weekStart <= training.date <= weekEnd
    then sums[training.date := AddTo(sums[training.date], training.workoutType, training.distanceInKM)]
    else sums
  }

  /** The sums table after the loop body has seen each of `trainings`, in order. */
  function SumUpFrom(frame: Frame, trainings: seq<Training>, weekStart: int, weekEnd: int): (sums: Frame)
    requires forall d :: weekStart <= d <= weekEnd ==> d in frame
    ensures sums.Keys == frame.Keys
  {
    if |trainings| == 0 then frame
    else AddTraining(SumUpFrom(frame, trainings[..|trainings| - 1], weekStart, weekEnd), trainings[|trainings| - 1], weekStart, weekEnd)
  }

  /** Seeing one more training keeps `SummedUp`. */
  lemma SummedUpStep(frame: Frame, sums: Frame, trainings: seq<Training>, training: Training, weekStart: int, weekEnd: int)
    requires SummedUp(frame, sums, trainings, weekStart, weekEnd)
    requires weekStart <= training.date <= weekEnd ==> training.date in sums
    ensures SummedUp(frame, AddTraining(sums, training, weekStart, weekEnd), trainings + [training], weekStart, weekEnd)
  {
    var ts := trainings + [training];
    assert ts[..|ts| - 1] == trainings;
    var next := AddTraining(sums, training, weekStart, weekEnd);
    forall d, w | d in frame && weekStart <= d <= weekEnd && w in frame[d]
      ensures next[d][w] == Plus(frame[d][w], DistanceSum(ts, d, w))
    {
      PlusAssociates(frame[d][w], DistanceSum(trainings, d, w),
                     if training.date == d && training.workoutType == w then training.distanceInKM else 0.0);
    }
  }

  /** The table the loop builds holds the sums `SummedUp` describes. */
  lemma {:induction false} SumUpFromSummedUp(frame: Frame, trainings: seq<Training>, weekStart: int, weekEnd: int)
    requires forall d :: weekStart <= d <= weekEnd ==> d in frame
    ensures SummedUp(frame, SumUpFrom(frame, trainings, weekStart, weekEnd), trainings, weekStart, weekEnd)
    decreases |trainings|
  {
    if |trainings| > 0 {
      var init := trainings[..|trainings| - 1];
      SumUpFromSummedUp(frame, init, weekStart, weekEnd);
      SummedUpStep(frame, SumUpFrom(frame, init, weekStart, weekEnd), init, trainings[|trainings| - 1], weekStart, weekEnd);
      assert init + [trainings[|trainings| - 1]] == trainings;
    }
  }

  /**
   * `sumUpChartWeekTrainingDistancesByDates`: adds each training dated
   * within [weekStart, weekEnd] into its (date, workout type) cell. A workout
   * type missing from the row reads as `undefined`, so its cell becomes NaN.
   */
  method SumUpChartWeekTrainingDistancesByDates(frame: Frame, trainings: seq<Training>, weekStart: int, weekEnd: int)
    returns (sums: Frame)
    requires forall d :: weekStart <= d <= weekEnd ==> d in frame
    ensures sums.Keys == frame.Keys
    ensures forall d :: d in frame && !(weekStart <= d <= weekEnd) ==> sums[d] == frame[d]
    ensures forall d :: d in frame && weekStart <= d <= weekEnd ==>
      sums[d].Keys == frame[d].Keys + TypesOn(trainings, d)
    ensures forall d, w :: d in frame && weekStart <= d <= weekEnd && w in frame[d] ==>
      sums[d][w] == Plus(frame[d][w], DistanceSum(trainings, d, w))
    ensures forall d, w :: d in frame && weekStart <= d <= weekEnd && w in sums[d] && w !in frame[d] ==>
      sums[d][w] == NaN
  {
    sums := frame;
    var k := 0;
    while k < |trainings|
      invariant 0 <= k <= |trainings|
      invariant sums == SumUpFrom(frame, trainings[..k], weekStart, weekEnd)
    {
      var training := trainings[k];
      assert trainings[..k + 1][..k] == trainings[..k];
      if weekStart <= training.date <= weekEnd {
        sums := sums[training.date := AddTo(sums[training.date], training.workoutType, training.distanceInKM)];
      }
      k := k + 1;
    }
    assert trainings[..|trainings|] == trainings;
    SumUpFromSummedUp(frame, trainings, weekStart, weekEnd);
  }

  /**
   * `mapChartWeekDatesToTrainingDistancesSum`: the frame of the chart week
   * with the trainings summed into it. Every cell of a workout type of the
   * tuple holds the total distance of that type on that date.
   */
  method MapChartWeekDatesToTrainingDistancesSum(trainings: seq<Training>, chartWeek: Monday)
    returns (sums: Frame)
    ensures forall d :: d in sums <==> d in WeekDates(chartWeek)
    ensures forall d, w :: d in sums && w in WorkoutTuple ==>
      w in sums[d] && sums[d][w] == Finite(DistanceSum(trainings, d, w))
  {
    var dates := GenerateChartWeekDates(chartWeek);
    WeekDatesSpan(chartWeek);
    var weekStart := dates[0];
    var weekEnd := dates[|dates| - 1];
    var frame := GenerateDateToDistanceSumMapFrame(dates);
    sums := SumUpChartWeekTrainingDistancesByDates(frame, trainings, weekStart, weekEnd);
  }

  // ---------------------------------------------------------------------
  // Series and chart options

  /** `generateChartSeries`: one series per workout type, in tuple order. */
  function GenerateChartSeries(dates: seq<int>, sums: Frame): (series: seq<Series>)
    requires forall j, w :: 0 <= j < |dates| && w in WorkoutTuple ==> dates[j] in sums && w in sums[dates[j]]
    ensures |series| == |WorkoutTuple|
    ensures forall i :: 0 <= i < |series| ==>
      && series[i].name == Label(WorkoutTuple[i])
      && |series[i].data| == |dates|
  {
    seq(|WorkoutTuple|, i requires 0 <= i < |WorkoutTuple| =>
      Series(Label(WorkoutTuple[i]),
             seq(|dates|, j requires 0 <= j < |dates| => sums[dates[j]][WorkoutTuple[i]])))
  }

  /** The options object a chart structure carries: its x-axis categories and its series. */
  class ChartStructure {
    var categories: seq<string>
    var series: seq<Series>

    constructor (categories: seq<string>, series: seq<Series>)
      ensures this.categories == categories && this.series == series
    {
      this.categories := categories;
      this.series := series;
    }

    /** `populateChartStructure`: overwrites the categories and the series. */
    method PopulateChartStructure(columnNames: seq<string>, series: seq<Series>)
      modifies this
      ensures this.categories == columnNames && this.series == series
    {
      this.categories := columnNames;
      this.series := series;
    }
  }

  /**
   * What `createChartOptions` puts into the chart: the day names Monday to
   * Sunday, and per workout type, labelled, the total distance on each day.
   */
  method ComputeChartOptions(trainings: seq<Training>, chartWeek: Monday)
    returns (categories: seq<string>, series: seq<Series>)
    ensures categories == ShortDayNames
    ensures series == ExpectedSeries(trainings, chartWeek)
  {
    var dates := GenerateChartWeekDates(chartWeek);
    var sums := MapChartWeekDatesToTrainingDistancesSum(trainings, chartWeek);
    categories := ConvertDatesToDayNames(dates);
    WeekDayNames(chartWeek);
    series := GenerateChartSeries(dates, sums);
    forall i | 0 <= i < |WorkoutTuple|
      ensures series[i] == ExpectedSeries(trainings, chartWeek)[i]
    {
      var expected := ExpectedSeries(trainings, chartWeek)[i];
      forall j | 0 <= j < WeekInterval ensures series[i].data[j] == expected.data[j] {
        assert dates[j] == chartWeek + j;
      }
      assert series[i].data == expected.data;
    }
  }

  /** `createChartOptions`: the computed categories and series written into the structure. */
  method CreateChartOptions(structure: ChartStructure, trainings: seq<Training>, chartWeek: Monday)
    modifies structure
    ensures structure.categories == ShortDayNames
    ensures structure.series == ExpectedSeries(trainings, chartWeek)
  {
    var categories, series := ComputeChartOptions(trainings, chartWeek);
    structure.PopulateChartStructure(categories, series);
  }

  // ---------------------------------------------------------------------
  // Properties of the aggregation

  lemma {:induction false} DistanceSumAppend(a: seq<Training>, b: seq<Training>, date: int, workoutType: string)
    ensures DistanceSum(a + b, date, workoutType) == DistanceSum(a, date, workoutType) + DistanceSum(b, date, workoutType)
    decreases |b|
  {
    if |b| > 0 {
      assert (a + b)[..|a + b| - 1] == a + b[..|b| - 1];
      DistanceSumAppend(a, b[..|b| - 1], date, workoutType);
    } else {
      assert a + b == a;
    }
  }

  /** The series have the shape the chart expects: one per workout type, named by its label, seven values each. */
  lemma ExpectedSeriesShape(trainings: seq<Training>, chartWeek: Monday)
    ensures var series := ExpectedSeries(trainings, chartWeek);
      && |series| == |WorkoutTuple| == 4
      && (forall i :: 0 <= i < |series| ==>
            Some(series[i].name) == Get(GetLabels(), WorkoutTuple[i]) && |series[i].data| == WeekInterval)
  {
  }

  /**
   * A training dated outside the chart week, or of a workout type outside the
   * tuple, changes no series value.
   */
  lemma IgnoredTrainingChangesNothing(trainings: seq<Training>, training: Training, chartWeek: Monday)
    requires training.date < chartWeek || training.date > chartWeek + 6 || training.workoutType !in WorkoutTuple
    ensures ExpectedSeries(trainings + [training], chartWeek) == ExpectedSeries(trainings, chartWeek)
  {
    var ts := trainings + [training];
    var before, after := ExpectedSeries(trainings, chartWeek), ExpectedSeries(ts, chartWeek);
    assert ts[..|ts| - 1] == trainings;
    forall i | 0 <= i < |WorkoutTuple| ensures after[i] == before[i] {
      forall j | 0 <= j < WeekInterval ensures after[i].data[j] == before[i].data[j] {
        assert DistanceSum(ts, chartWeek + j, WorkoutTuple[i]) == DistanceSum(trainings, chartWeek + j, WorkoutTuple[i]);
      }
      assert after[i].data == before[i].data;
    }
  }

  /** A training on a day of the week, its Sunday included, adds its distance to its own cell only. */
  lemma InWeekTrainingAddsToItsCell(trainings: seq<Training>, training: Training, chartWeek: Monday, i: int, j: int)
    requires chartWeek <= training.date <= chartWeek + 6
    requires 0 <= i < |WorkoutTuple| && 0 <= j < WeekInterval
    ensures ExpectedSeries(trainings + [training], chartWeek)[i].data[j]
      == Plus(ExpectedSeries(trainings, chartWeek)[i].data[j],
              if training.date == chartWeek + j && training.workoutType == WorkoutTuple[i]
              then training.distanceInKM else 0.0)
  {
    var ts := trainings + [training];
    assert ts[..|ts| - 1] == trainings;
    var d, w := chartWeek + j, WorkoutTuple[i];
    assert DistanceSum(ts, d, w) == DistanceSum(trainings, d, w)
      + (if training.date == d && training.workoutType == w then training.distanceInKM else 0.0);
  }

  /**
   * The week of 2021-02-01 (day 18659) with a 15.5 km ride on Tuesday
   * 2021-02-02 and a swim, not a workout type of the tuple, on the Thursday:
   * the cycling series shows 15.5 on Tuesday and every other value is 0.
   */
  lemma ExampleWeek()
    ensures var trainings := [Training(NumberId(1.0), 15.5, 18660, CYCLING, ""),
                              Training(NumberId(2.0), 10.0, 18662, "swimming", "")];
      var series := ExpectedSeries(trainings, 18659);
      && series[2].name == "Cycling" && series[2].data[1] == Finite(15.5)
      && forall i, j :: 0 <= i < |series| && 0 <= j < WeekInterval && !(i == 2 && j == 1) ==>
           series[i].data[j] == Finite(0.0)
  {
    var trainings := [Training(NumberId(1.0), 15.5, 18660, CYCLING, ""),
                      Training(NumberId(2.0), 10.0, 18662, "swimming", "")];
    assert trainings[..1] == [trainings[0]] && trainings[..1][..0] == [];
    forall d, w | w in WorkoutTuple ensures DistanceSum(trainings, d, w) == if d == 18660 && w == CYCLING then 15.5 else 0.0 {
      assert DistanceSum(trainings[..1], d, w) == if d == 18660 && w == CYCLING then 15.5 else 0.0;
    }
    assert Get(GetLabels(), CYCLING) == Some("Cycling");
  }

  // ---------------------------------------------------------------------
  // Week shift

  /** `chartWeekChangeHandler`'s week arithmetic: the week `weekShift` weeks later. */
  function ShiftChartWeek(chartWeek: Monday, weekShift: int): (shifted: Monday)
    ensures shifted - chartWeek == 7 * weekShift
  {
    ShiftByWeeksKeepsMonday(chartWeek, weekShift);
    chartWeek + 7 * weekShift
  }

  /** `chartWeekChangeHandler`: the action it dispatches. */
  function ChartWeekChangeAction(chartWeek: Monday, weekShift: int): TrainingStore.Action
  {
    TrainingStore.SetChartWeek(ShiftChartWeek(chartWeek, weekShift))
  }

  /**
   * Shifting by `weekShift` moves every date of the chart week by
   * 7 × `weekShift` days, and shifts compose.
   */
  lemma ShiftMovesWeekDates(chartWeek: Monday, weekShift: int, more: int)
    ensures forall i :: 0 <= i < WeekInterval ==>
      WeekDates(ShiftChartWeek(chartWeek, weekShift))[i] == WeekDates(chartWeek)[i] + 7 * weekShift
    ensures ShiftChartWeek(ShiftChartWeek(chartWeek, weekShift), more) == ShiftChartWeek(chartWeek, weekShift + more)
    ensures ShiftChartWeek(chartWeek, 0) == chartWeek
  {
  }

  /** Dispatching the handler's action moves the stored week and nothing else. */
  lemma ChartWeekChangeMovesStoredWeek(state: TrainingStore.State, weekShift: int)
    ensures var r := TrainingStore.Reduce(state, ChartWeekChangeAction(state.chartWeek, weekShift));
      && r.chartWeek - state.chartWeek == 7 * weekShift
      && r.items == state.items && r.workoutTypeFilter == state.workoutTypeFilter
  {
  }
}
