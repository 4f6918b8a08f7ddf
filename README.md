# Best Runner: a verified model of the workout log's core

Best Runner is a single-page application for logging workouts: each training
has a date, a workout type (walking, running, cycling or skiing), a distance in
kilometres and a comment. This project models, in Dafny, the parts of the
application that compute rather than render:

- **The trainings store** (`TrainingStore`, store.dfy). This is the Redux
  reducer over `{items, workoutTypeFilter, chartWeek}` with one case per
  action type, plus the four getters over the root state. The reducer is a
  pure function on a datatype. Lemmas state what each action does to each
  field. They also state when pairwise-distinct item ids stay distinct.
- **The weekly chart** (`WeekChart`, week_chart.dfy). It covers:
  - the seven dates of the chart week;
  - the date × workout-type table of distance sums, built by a loop that
    adds each training into its cell as the source's `forEach` does;
  - the series and day-name categories, written into a chart structure
    object;
  - the arithmetic for shifting the chart to the previous or next week.
  Each method is proved against a reference definition (`ExpectedSeries`,
  built from `DistanceSum`).
- **The table sort** (`SmartTable`, smart_table.dfy). It covers:
  - the three-state sort-order cycle `asc → desc → '' → asc`;
  - the rule a header click applies to the sorting state;
  - `sortItems`, which returns the items themselves when sorting is off,
    and otherwise a sorted copy. The copy is sorted in place by an array
    method with the source's comparator.
- **The validation class** (`TrainingValidation`, validation.dfy). This is
  the four decorated fields with their `class-validator` constraints, the
  constructor, and the errors reported with `stopAtFirstError: false`.
- **The workout-type enumeration** (`WorkoutTypes`, workout_type.dfy). This
  is the ordered tuple, the static constants, the label table and the two
  views derived from it.

Supporting modules:

- `Js` (js.dfy) holds the JavaScript semantics the core relies on:
  - numbers with NaN and infinities, because `undefined + x` is NaN;
  - the string `<` operator, which compares UTF-16 code units, proved a
    strict total order;
  - `Array.prototype.findIndex`. The array `find` calls of the core are
    expressed through it, in `TrainingStore.GetTraining` and
    `SmartTable.ColumnIndex`.
- `Calendar` (calendar.dfy) holds dates as day numbers counted from
  1970-01-01. It covers weekdays, ISO weeks given by their Monday, and strict
  `YYYY-MM-DD` strings. Lemma `IsoDateOrderIsChronological` proves that
  comparing two such strings with `<` orders them exactly as their day
  numbers. That is what lets the chart's string range test
  `weekStart <= date <= weekEnd` be modelled on day numbers.
- `Trainings` (training.dfy) holds the record type `ITraining` and its id,
  which is a number or a string.

Ids compare with `===`. The number 1 and the string "1" are different ids.
The clock (`moment()` for the current week) is a parameter of
`InitialState`.

## Model

| member | source | states |
|---|---|---|
| `TrainingStore.Reduce` | src/reducers/trainings.ts:20-85 | every action changes at most one field of the state: the filter and the week only through their own setters, the items through the list cases; the case-by-case lemmas below give each case's new value |
| `TrainingStore.InitialState` | src/reducers/trainings.ts:14-18 | the store starts with no items, the filter `"all"` and the given current week |
| `TrainingStore.ReplaceSetsItems` | src/reducers/trainings.ts:22-26 | FETCH_TRAININGS and SET_TRAININGS replace the items with exactly the action's items and keep the filter and the week |
| `TrainingStore.CreateAppends` | src/reducers/trainings.ts:28-35 | CREATE_TRAINING grows the list by one, puts the item last and keeps every prior item at its position |
| `TrainingStore.RemoveByIdCounts` | src/reducers/trainings.ts:40 | each item with another id occurs in the filtered list as often as in the input, and an item with the id not at all |
| `TrainingStore.RemoveByIdSpec` | src/reducers/trainings.ts:40 | the filtered list holds exactly the items whose id differs from the given one, each as often as before, as a subsequence of the input; without a match the list is unchanged |
| `TrainingStore.DeleteRemovesMatching` | src/reducers/trainings.ts:37-41 | DELETE_TRAINING keeps exactly the items with another id, with their multiplicities and in their order; an absent id changes nothing; the filter and week are kept |
| `TrainingStore.UpdateByIdSpec` | src/reducers/trainings.ts:46-55 | the mapped list has the same length and ids; matching items take date, type, distance and comment from the action's item; other items are identical |
| `TrainingStore.UpdateRewritesMatching` | src/reducers/trainings.ts:43-56 | UPDATE_TRAINING rewrites the matching items' four fields, keeps their ids, leaves other items and the other state fields alone |
| `TrainingStore.ReassignIdSpec` | src/reducers/trainings.ts:61-67 | the mapped list has the same length; items with the old id get the new id and nothing else changes |
| `TrainingStore.SetTrainingIdRenames` | src/reducers/trainings.ts:58-68 | SET_TRAINING_ID renames every item with the old id, leaving all other fields, items and state fields unchanged |
| `TrainingStore.SettersReplaceOneField` | src/reducers/trainings.ts:70-84 | SET_WORKOUT_TYPE_FILTER and SET_CHART_WEEK replace only their own field; any other action returns the state unchanged |
| `TrainingStore.RemoveByIdKeepsUnique` | src/reducers/trainings.ts:40 | filtering a list with distinct ids leaves distinct ids |
| `TrainingStore.UniqueIdsPreserved` | src/reducers/trainings.ts:37-74 | DELETE, UPDATE and the filter and week setters keep item ids pairwise distinct |
| `TrainingStore.UniqueAfterCreate` | src/reducers/trainings.ts:28-35 | after CREATE the ids are distinct if and only if the new item's id was not present |
| `TrainingStore.UniqueAfterSetTrainingId` | src/reducers/trainings.ts:58-68 | after SET_TRAINING_ID the ids are distinct if and only if the old id is absent, the new id equals it, or the new id is not present |
| `TrainingStore.ReconciledAfterSetTrainingId` | src/reducers/trainings.ts:58-68 | replacing a present id by a fresh one leaves exactly one item with the new id and none with the old |
| `TrainingStore.GetTraining` | src/reducers/trainings.ts:91 | `getTraining` is null exactly when no item has the id, and otherwise returns the first item that has it |
| `TrainingStore.GettersReadBack` | src/reducers/trainings.ts:90-93 | each getter reads back what the matching action stored, and the week setter leaves the items as they were |
| `WeekChart.GenerateChartWeekDates` | src/components/Trainings/views/TrainingWeekChart.tsx:112-117 | stepping one day at a time from the day before the Monday yields exactly the seven dates of the week |
| `WeekChart.WeekDatesSpan` | src/components/Trainings/views/TrainingWeekChart.tsx:40-48 | the week is 7 consecutive, strictly increasing dates from its Monday (`weekStart`) to its Sunday (`weekEnd`), weekday i at position i, and a date is in it exactly when it lies between the two |
| `WeekChart.ConvertDatesToDayNames` | src/components/Trainings/views/TrainingWeekChart.tsx:92-94 | one name per date, the short English name of the date's weekday |
| `WeekChart.WeekDayNames` | src/components/Trainings/views/TrainingWeekChart.tsx:92-94 | the categories are `Mon` … `Sun` in that order, for every week |
| `WeekChart.GenerateDateToDistanceSumMapFrame` | src/components/Trainings/views/TrainingWeekChart.tsx:72-83 | the frame's keys are exactly the week's dates and each row has exactly the four workout types, all at 0 |
| `WeekChart.SumUpFromSummedUp` | src/components/Trainings/views/TrainingWeekChart.tsx:61-70 | the table the loop builds has the frame's keys; rows outside the range are untouched; each in-range cell holds its initial value plus the matching distances; a type missing from a row becomes NaN |
| `WeekChart.SummedUpStep` | src/components/Trainings/views/TrainingWeekChart.tsx:62-68 | adding one more training into its cell keeps the summed-up description true for the longer list |
| `WeekChart.SumUpChartWeekTrainingDistancesByDates` | src/components/Trainings/views/TrainingWeekChart.tsx:61-70 | the in-place loop yields the table described above: only trainings with `weekStart <= date <= weekEnd` count, each added into its own date and type |
| `WeekChart.MapChartWeekDatesToTrainingDistancesSum` | src/components/Trainings/views/TrainingWeekChart.tsx:55-58 | the table's keys are the week's dates and each workout-type cell is the total distance of that type on that date |
| `WeekChart.GenerateChartSeries` | src/components/Trainings/views/TrainingWeekChart.tsx:96-104 | one series per workout type in tuple order, named by its label, with one value per date; `ComputeChartOptions` gives the values |
| `WeekChart.ChartStructure.PopulateChartStructure` | src/components/Trainings/views/TrainingWeekChart.tsx:106-110 | overwrites the structure's categories and series with the given ones |
| `WeekChart.ComputeChartOptions` | src/components/Trainings/views/TrainingWeekChart.tsx:85-104 | the categories are the day names and the series are, per workout type in tuple order and named by its label, the week's daily totals |
| `WeekChart.CreateChartOptions` | src/components/Trainings/views/TrainingWeekChart.tsx:85-90 | the chart structure ends up holding those categories and series |
| `WeekChart.DistanceSumAppend` | src/components/Trainings/views/TrainingWeekChart.tsx:61-70 | the total distance over two lists of trainings is the sum of the totals over each |
| `WeekChart.ExpectedSeriesShape` | src/components/Trainings/views/TrainingWeekChart.tsx:96-104 | four series, named by the label table, seven values each |
| `WeekChart.IgnoredTrainingChangesNothing` | src/components/Trainings/views/TrainingWeekChart.tsx:64-66 | a training dated outside the week, or of a type outside the tuple, changes no series value |
| `WeekChart.InWeekTrainingAddsToItsCell` | src/components/Trainings/views/TrainingWeekChart.tsx:64-66 | a training inside the week, its Sunday included, adds its distance to its own cell and to no other |
| `WeekChart.ExampleWeek` | src/components/Trainings/views/TrainingWeekChart.tsx:61-104 | for a 15.5 km ride on Tuesday 2021-02-02 and a swim on the Thursday, the cycling series shows 15.5 on Tuesday and every other value is 0 |
| `WeekChart.ShiftChartWeek` | src/components/Trainings/views/TrainingWeekChart.tsx:119-123 | shifting by `weekShift` weeks moves the Monday by exactly 7 × `weekShift` days and yields a Monday |
| `WeekChart.ShiftMovesWeekDates` | src/components/Trainings/views/TrainingWeekChart.tsx:119-120 | every date of the week moves by 7 × `weekShift` days, shifts compose, and a shift by 0 is the identity |
| `WeekChart.ChartWeekChangeMovesStoredWeek` | src/components/Trainings/views/TrainingWeekChart.tsx:119-123 | dispatching the handler's action moves the stored week by 7 × `weekShift` days and keeps the items and the filter |
| `SmartTable.IsActive` | src/shared/SmartTable/SmartTable.tsx:65 | the table sorts exactly when a column key is selected and its order is `asc` or `desc`, the first two of `sortOrders` |
| `SmartTable.FindNextSortOrder` | src/shared/SmartTable/SmartTable.tsx:48-53 | the next order after `asc` is `desc`, after `desc` it is `''`, and after `''` it is `asc` |
| `SmartTable.SortOrderCycle` | src/shared/SmartTable/SmartTable.tsx:18 | the cycle has period three: one or two steps never return to the start, three always do |
| `SmartTable.SortableColumnClick` | src/shared/SmartTable/SmartTable.tsx:55-62 | a click selects the clicked column; another column starts at `asc`; the selected column advances one step of the cycle |
| `SmartTable.ClickActivates` | src/shared/SmartTable/SmartTable.tsx:55-67 | after a click the table sorts if and only if the key is non-empty and the click was not on the column already sorted descending |
| `SmartTable.RepeatedClicks` | src/shared/SmartTable/SmartTable.tsx:44-62 | from the initial unsorted state, clicking one column gives ascending, descending, unsorted, then ascending again |
| `SmartTable.Compare` | src/shared/SmartTable/SmartTable.tsx:73-81 | the comparator is positive exactly when the first value is greater (ascending) or less (descending), negative in the opposite case, and 0 otherwise; strings compare by UTF-16 code units |
| `SmartTable.CompareAntisymmetric` | src/shared/SmartTable/SmartTable.tsx:73-81 | swapping the arguments turns a positive comparison into a negative one and back |
| `SmartTable.ColumnIndex` | src/shared/SmartTable/SmartTable.tsx:70 | the position of the first column with the key, or -1 exactly when no column has it |
| `SmartTable.Insert` | src/shared/SmartTable/SmartTable.tsx:73 | one insertion pass permutes the array and extends the ordered prefix by one element |
| `SmartTable.Sort` | src/shared/SmartTable/SmartTable.tsx:73-81 | the array ends up a permutation of itself with every neighbouring pair in the comparator's order |
| `SmartTable.SortItems` | src/shared/SmartTable/SmartTable.tsx:64-82 | inactive: the very same items; active with a missing column: the lookup's failure; otherwise a fresh copy that is a permutation of the items, ordered by the first matching column's field |
| `SmartTable.OrderedMeansMonotone` | src/shared/SmartTable/SmartTable.tsx:73-81 | on a column of numbers only or of strings only, an ascending result never has a later value below an earlier one, and a descending result never has one above |
| `TrainingValidation.NewTraining` | src/utils/Validation/training.ts:39-44 | the constructor stores its four arguments unchanged, `distance` as `distanceInKM` |
| `TrainingValidation.Holds` | src/utils/Validation/training.ts:12-37 | only numbers pass `IsNumber` and `Min`, and only strings pass the other checks |
| `TrainingValidation.Decorators` | src/utils/Validation/training.ts:12-37 | the date carries one constraint and every other field two, none of them twice; `FailingIffInvalid` shows what they amount to |
| `TrainingValidation.Validate` | src/utils/Validation/training.ts:47-51 | with `stopAtFirstError: false`, a constraint of a field is reported exactly when the field's value fails it, and a field is reported only with failures of its own decorators |
| `TrainingValidation.DistanceReport` | src/utils/Validation/training.ts:23-29 | the distance is reported exactly when it fails a number check, with exactly the checks it fails |
| `TrainingValidation.DistanceErrors` | src/utils/Validation/training.ts:23-51 | 0.05 km is reported with both number checks, 0.15 km with the decimal-places check only, and 7.5 km not at all |
| `TrainingValidation.FailingIffInvalid` | src/utils/Validation/training.ts:12-37 | a field fails one of its decorators exactly when it is not valid: not a strict ISO date, not in the tuple, not a finite number ≥ 0.1 with one decimal at most, or longer than 1000 |
| `TrainingValidation.ValidateReportsInvalidFields` | src/utils/Validation/training.ts:47-51 | with every error reported, the reported fields are exactly the invalid ones, so the report is empty if and only if all four fields are valid |
| `TrainingValidation.NewTrainingValidity` | src/utils/Validation/training.ts:11-44 | a constructed training validates cleanly if and only if its four arguments meet the four rules |
| `TrainingValidation.CommentLengthBoundary` | src/utils/Validation/training.ts:31-37 | a comment of 1000 characters passes `MaxLength(1000)`; one of 1001 characters fails it |
| `TrainingValidation.DistanceBoundary` | src/utils/Validation/training.ts:5-29 | 0.05 fails both `Min(0.1)` and the one-decimal `IsNumber`; 0.1 passes both; infinity and NaN fail `IsNumber` |
| `TrainingValidation.IsInImpliesIsString` | src/utils/Validation/training.ts:17-21 | a value that passes `IsIn` also passes `IsString` |
| `TrainingValidation.WorkoutTypeCheck` | src/utils/Validation/training.ts:20 | `IsIn(workoutTuple)` passes for exactly the four workout-type strings |
| `WorkoutTypes.GetLabels` | src/enums/WorkoutType.ts:15-22 | the label table has one entry per workout type, in tuple order; `LabelsAreCapitalised` gives the labels |
| `WorkoutTypes.GetKeys` | src/enums/WorkoutType.ts:24-26 | the label table's keys are the tuple, in order |
| `WorkoutTypes.GetSelectionItems` | src/enums/WorkoutType.ts:28-34 | one item per workout type in tuple order, each labelled as the label table says |
| `WorkoutTypes.ConstantsAreTheTuple` | src/enums/WorkoutType.ts:2-13 | the tuple is walking, running, cycling, skiing, in that order, equal to the four constants and without repeats |
| `WorkoutTypes.LabelsAreCapitalised` | src/enums/WorkoutType.ts:15-22 | each workout type's label is its name capitalised, and no other key has a label |
| `Calendar.IsoDateOrderIsChronological` | src/components/Trainings/views/TrainingWeekChart.tsx:64 | for two strict `YYYY-MM-DD` dates, string `<` holds if and only if the first day comes earlier |
| `Calendar.DayNumberMonotone` | src/components/Trainings/views/TrainingWeekChart.tsx:64 | a date that is earlier by year, month and day has a smaller day number |
| `Calendar.WeekdayAfterMonday` | src/components/Trainings/views/TrainingWeekChart.tsx:112-117 | the i-th day after a Monday is weekday i |
| `Calendar.ExampleDate` | src/utils/Validation/training.ts:12-15 | "2021-02-02" is a strict ISO date, day 18660, a Tuesday, whose week's Monday is day 18659 |
| `Js.FindIndex` | src/shared/SmartTable/SmartTable.tsx:49 | the first index whose element satisfies the predicate, or -1 exactly when none does |
| `Js.CodeUnits` | src/shared/SmartTable/SmartTable.tsx:74-77 | a character is one code unit when it is in the Basic Multilingual Plane, otherwise a high and a low surrogate from which it can be recovered |
| `Js.Utf16Injective` | src/shared/SmartTable/SmartTable.tsx:74-77 | two strings with the same UTF-16 code units are equal |
| `Js.AstralSortsBelowHighBmp` | src/shared/SmartTable/SmartTable.tsx:74-77 | U+1F600 sorts before U+FF01 under `<`, although its code point is larger |
| `Js.BmpOrderAgrees` | src/components/Trainings/views/TrainingWeekChart.tsx:64 | on strings of the Basic Multilingual Plane, `<` is the lexicographic order of code points |
| `Js.StrLessTotal` | src/components/Trainings/views/TrainingWeekChart.tsx:64 | two strings are equal or one is below the other by `<` |
| `Js.StrLessTransitive` | src/shared/SmartTable/SmartTable.tsx:74-77 | string `<` is transitive |

## Left out

- Date parsing and formatting with `moment` are not modelled. This covers ISO week strings such as `2021-W05`, the `'ddd'` day names (the English locale is assumed) and the clock read for the initial week. Weeks are given by their Monday's day number, and the current week is a parameter.
- Training dates are day numbers; the source keeps them as strings. The string range test is proved to agree with day-number order for strict `YYYY-MM-DD` dates. A stored date in any other form can sort inside the week without being one of its seven keys. The source then indexes `undefined` and throws; the model cannot express that case.
- Floating point is not modelled. Distances are exact reals, so binary rounding in `+=` and `toString`-based decimal-place counting are left out.
- `TrainingValidation.Holds` checks `IsDateString({strict: true})` as the `YYYY-MM-DD` calendar-date form only. The library also accepts ISO 8601 date-times, week dates and ordinal dates, which the model rejects.
- `TrainingValidation.Validate` returns the set of failing constraints per field, as `stopAtFirstError: false` has it. The `validatorOptions` object itself is not modelled: its other two options only shape the error objects. Message texts and their `$property`/`$constraint1` interpolation are not modelled, nor is the order of the messages. Other option values, such as `stopAtFirstError: true`, are not modelled either.
- `SmartTable.Less` treats a number and a string as incomparable, so the comparator returns 0 for them. JavaScript would convert the string to a number; the shown columns never mix kinds.
- `SmartTable.Sort` is an insertion sort with the source's comparator. The contract gives what `Array.prototype.sort` guarantees for a consistent comparator: a permutation in comparator order. The engine's actual algorithm and stability are not modelled.
- `SmartTable.SortableColumnClick` reads the current order and key from one state. The source reads the key from the state updater's argument and the order from the render-time closure of `findNextSortOrder`. The two agree whenever a click is processed after the previous one re-rendered.
- Column keys are strings in the model. The `Key`, `IWithKey` and `ID` type files are not part of this model, so a numeric key `0`, which is also falsy, is not modelled.
- Trainings ids are a number or a string, and a NaN id (never `===` to itself) is not modelled.
- The chart structure from `createTrainingWeekChartStructure` (src/utils/trainings.tsx) carries many other Highcharts options. `ChartStructure` keeps only the two fields the core writes. Highcharts rendering and `useMemo` memoisation are not modelled.
- The form's per-field error mapping iterates the keys of a freshly declared empty object, so its loop never runs (src/components/Trainings/views/TrainingFormModal.tsx:54-56). It is left out with the rest of the form component.
- React components and rendering are left out: the table head and rows, the chart week picker, the modal and toasts. The HTTP client, the action creators and thunks, and the store wiring are left out as well. Filtering the list by `workoutTypeFilter` happens in a component; the model only stores the filter.
