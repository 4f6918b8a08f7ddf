/**
 * The trainings store: its state, the actions its reducer handles, the
 * reducer itself, and the getters over the root state.
 */
module TrainingStore {
  import opened Js
  import opened Trainings
  import opened Calendar

  /**
   * The store's state. `workoutTypeFilter` is a workout type or `"all"`;
   * `chartWeek` is the ISO week shown in the chart, given by its Monday.
   */
  datatype State = State(items: seq<Training>, workoutTypeFilter: string, chartWeek: Monday)

  /** `initialState`; the current week is read from the clock in the source, so it is a parameter here. */
  function InitialState(currentWeek: Monday): (s: State)
    ensures s.items == [] && s.workoutTypeFilter == "all" && s.chartWeek == currentWeek
  {
    State([], "all", currentWeek)
  }

  /** One variant per `case` of the reducer, and every other action type. */
  datatype Action =
    | FetchTrainings(items: seq<Training>)
    | SetTrainings(items: seq<Training>)
    | CreateTraining(item: Training)
    | DeleteTraining(id: Id)
    | UpdateTraining(item: Training)
    | SetTrainingId(oldId: Id, newId: Id)
    | SetWorkoutTypeFilter(workoutTypeFilter: string)
    | SetChartWeek(chartWeek: Monday)
    | OtherAction

  /**
   * The `trainings` reducer. Every action changes at most one field of the
   * state: the filter and the week only through their own setters, the items
   * through every other reducer case.
   */
  function Reduce(state: State, action: Action): (r: State)
    ensures !action.SetWorkoutTypeFilter? ==> r.workoutTypeFilter == state.workoutTypeFilter
    ensures !action.SetChartWeek? ==> r.chartWeek == state.chartWeek
    ensures action.SetWorkoutTypeFilter? || action.SetChartWeek? || action.OtherAction? ==> r.items == state.items
  {
    match action
    case FetchTrainings(items) => state.(items := items)
    case SetTrainings(items) => state.(items := items)
    case CreateTraining(item) => state.(items := state.items + [item])
    case DeleteTraining(id) => state.(items := RemoveById(state.items, id))
    case UpdateTraining(item) => state.(items := UpdateById(state.items, item))
    case SetTrainingId(oldId, newId) => state.(items := ReassignId(state.items, oldId, newId))
    case SetWorkoutTypeFilter(filter) => state.(workoutTypeFilter := filter)
    case SetChartWeek(week) => state.(chartWeek := week)
    case OtherAction => state
  }

  /** `items.filter(training => training.id !== id)`. */
  function RemoveById(items: seq<Training>, id: Id): seq<Training>
  {
    if |items| == 0 then []
    else if items[0].id != id then [items[0]] + RemoveById(items[1..], id)
    else RemoveById(items[1..], id)
  }

  /** A training keeping its own id and taking the other four fields from `item`. */
  function WithFieldsOf(training: Training, item: Training): Training
  {
    training.(distanceInKM := item.distanceInKM, date := item.date,
              workoutType := item.workoutType, comment := item.comment)
  }

  /** The `items.map` of UPDATE_TRAINING. */
  function UpdateById(items: seq<Training>, item: Training): seq<Training>
  {
    if |items| == 0 then []
    else [if items[0].id == item.id then WithFieldsOf(items[0], item) else items[0]]
         + UpdateById(items[1..], item)
  }

  /** The `items.map` of SET_TRAINING_ID. */
  function ReassignId(items: seq<Training>, oldId: Id, newId: Id): seq<Training>
  {
    if |items| == 0 then []
    else [if items[0].id == oldId then items[0].(id := newId) else items[0]]
         + ReassignId(items[1..], oldId, newId)
  }

  // ---------------------------------------------------------------------
  // Getters

  /** The application's root state, of which the trainings store is one part. */
  datatype RootState = RootState(trainings: State)

  function GetTrainings(root: RootState): seq<Training>
  {
    root.trainings.items
  }

  /**
   * `items.find(item => item.id === id) || null`: null exactly when no item
   * has the id, otherwise the first item that has it.
   */
  function GetTraining(root: RootState, id: Id): (found: Option<Training>)
    ensures var items := root.trainings.items;
      && (found.None? <==> forall i :: 0 <= i < |items| ==> items[i].id != id)
      && (found.Some? ==>
            exists i :: 0 <= i < |items| && items[i] == found.value && items[i].id == id
                        && forall j :: 0 <= j < i ==> items[j].id != id)
  {
    var i := FindIndex(root.trainings.items, (t: Training) => t.id == id);
    if i == -1 then None else Some(root.trainings.items[i])
  }

  function GetWorkoutTypeFilter(root: RootState): string
  {
    root.trainings.workoutTypeFilter
  }

  function GetChartWeek(root: RootState): Monday
  {
    root.trainings.chartWeek
  }

  // ---------------------------------------------------------------------
  // Reference notions

  function Ids(items: seq<Training>): (ids: seq<Id>)
    ensures |ids| == |items| && forall i :: 0 <= i < |items| ==> ids[i] == items[i].id
  {
    seq(|items|, i requires 0 <= i < |items| => items[i].id)
  }

  /** No two items share an id. */
  predicate UniqueIds(items: seq<Training>)
  {
    forall i, j :: 0 <= i < j < |items| ==> items[i].id != items[j].id
  }

  /** `a` is `b` with some elements left out, the rest in their original order. */
  predicate Subsequence<T(==)>(a: seq<T>, b: seq<T>)
  {
    |a| == 0 || (|b| > 0 && ((a[0] == b[0] && Subsequence(a[1..], b[1..])) || Subsequence(a, b[1..])))
  }

  // ---------------------------------------------------------------------
  // The list operations

  /** Each item with another id survives as many times as it occurs; items with the id do not. */
  lemma {:induction false} RemoveByIdCounts(items: seq<Training>, id: Id)
    ensures forall t :: multiset(RemoveById(items, id))[t] == if t.id != id then multiset(items)[t] else 0
  {
    if |items| > 0 {
      RemoveByIdCounts(items[1..], id);
      assert items == [items[0]] + items[1..];
      assert multiset(items) == multiset{items[0]} + multiset(items[1..]);
      if items[0].id != id {
        assert multiset(RemoveById(items, id)) == multiset{items[0]} + multiset(RemoveById(items[1..], id));
      }
    }
  }

  /** The items that survive are exactly those with another id. */
  lemma RemoveByIdMembers(items: seq<Training>, id: Id)
    ensures forall t :: t in RemoveById(items, id) <==> t in items && t.id != id
  {
    RemoveByIdCounts(items, id);
    var r := RemoveById(items, id);
    forall t ensures t in r <==> t in items && t.id != id {
      assert t in r <==> t in multiset(r);
      assert t in items <==> t in multiset(items);
    }
  }

  /** The survivors keep their relative order. */
  lemma {:induction false} RemoveByIdSubsequence(items: seq<Training>, id: Id)
    ensures Subsequence(RemoveById(items, id), items)
  {
    if |items| > 0 {
      RemoveByIdSubsequence(items[1..], id);
      var rest := RemoveById(items[1..], id);
      if items[0].id != id {
        assert ([items[0]] + rest)[1..] == rest;
      }
    }
  }

  /** Filtering by an id no item has changes nothing. */
  lemma {:induction false} RemoveByIdAbsent(items: seq<Training>, id: Id)
    requires id !in Ids(items)
    ensures RemoveById(items, id) == items
  {
    if |items| > 0 {
      assert id !in Ids(items[1..]) by {
        forall i | 0 <= i < |items[1..]| ensures items[1..][i].id != id {
          assert items[1..][i] == items[i + 1];
        }
      }
      RemoveByIdAbsent(items[1..], id);
      assert items == [items[0]] + items[1..];
    }
  }

  lemma RemoveByIdSpec(items: seq<Training>, id: Id)
    ensures forall t :: t in RemoveById(items, id) <==> t in items && t.id != id
    ensures Subsequence(RemoveById(items, id), items)
    ensures forall t :: multiset(RemoveById(items, id))[t] == if t.id != id then multiset(items)[t] else 0
    ensures id !in Ids(items) ==> RemoveById(items, id) == items
  {
    RemoveByIdCounts(items, id);
    RemoveByIdMembers(items, id);
    RemoveByIdSubsequence(items, id);
    if id !in Ids(items) {
      RemoveByIdAbsent(items, id);
    }
  }

  lemma {:induction false} UpdateByIdSpec(items: seq<Training>, item: Training)
    ensures |UpdateById(items, item)| == |items|
    ensures forall i :: 0 <= i < |items| ==>
      var r := UpdateById(items, item)[i];
      && r.id == items[i].id
      && (items[i].id == item.id ==>
            r.date == item.date && r.workoutType == item.workoutType
            && r.distanceInKM == item.distanceInKM && r.comment == item.comment)
      && (items[i].id != item.id ==> r == items[i])
  {
    if |items| > 0 {
      UpdateByIdSpec(items[1..], item);
      var r := UpdateById(items, item);
      forall i | 1 <= i < |items|
        ensures r[i] == UpdateById(items[1..], item)[i - 1] && items[i] == items[1..][i - 1]
      {
      }
    }
  }

  lemma {:induction false} ReassignIdSpec(items: seq<Training>, oldId: Id, newId: Id)
    ensures |ReassignId(items, oldId, newId)| == |items|
    ensures forall i :: 0 <= i < |items| ==>
      ReassignId(items, oldId, newId)[i] == if items[i].id == oldId then items[i].(id := newId) else items[i]
  {
    if |items| > 0 {
      ReassignIdSpec(items[1..], oldId, newId);
      var r := ReassignId(items, oldId, newId);
      forall i | 1 <= i < |items|
        ensures r[i] == ReassignId(items[1..], oldId, newId)[i - 1] && items[i] == items[1..][i - 1]
      {
      }
    }
  }

  // ---------------------------------------------------------------------
  // The reducer, case by case

  /** FETCH_TRAININGS and SET_TRAININGS replace the items and nothing else. */
  lemma ReplaceSetsItems(state: State, action: Action)
    requires action.FetchTrainings? || action.SetTrainings?
    ensures Reduce(state, action).items == action.items
    ensures Reduce(state, action).workoutTypeFilter == state.workoutTypeFilter
    ensures Reduce(state, action).chartWeek == state.chartWeek
  {
  }

  /** CREATE_TRAINING appends the item after the unchanged prior items. */
  lemma CreateAppends(state: State, item: Training)
    ensures var r := Reduce(state, CreateTraining(item));
      && |r.items| == |state.items| + 1
      && r.items[|state.items|] == item
      && (forall i :: 0 <= i < |state.items| ==> r.items[i] == state.items[i])
      && r.workoutTypeFilter == state.workoutTypeFilter && r.chartWeek == state.chartWeek
  {
  }

  /**
   * DELETE_TRAINING keeps exactly the items with another id, each as often as
   * before and in their order; with an absent id the items are unchanged.
   */
  lemma DeleteRemovesMatching(state: State, id: Id)
    ensures var r := Reduce(state, DeleteTraining(id));
      && (forall t :: t in r.items <==> t in state.items && t.id != id)
      && Subsequence(r.items, state.items)
      && (forall t :: multiset(r.items)[t] == if t.id != id then multiset(state.items)[t] else 0)
      && (id !in Ids(state.items) ==> r.items == state.items)
      && r.workoutTypeFilter == state.workoutTypeFilter && r.chartWeek == state.chartWeek
  {
    RemoveByIdSpec(state.items, id);
  }

  /**
   * UPDATE_TRAINING keeps length, order and ids; each item with the given id
   * takes the four other fields from it, every other item is unchanged.
   */
  lemma UpdateRewritesMatching(state: State, item: Training)
    ensures var r := Reduce(state, UpdateTraining(item));
      && |r.items| == |state.items|
      && (forall i :: 0 <= i < |state.items| ==>
            && r.items[i].id == state.items[i].id
            && (state.items[i].id == item.id ==>
                  r.items[i].date == item.date && r.items[i].workoutType == item.workoutType
                  && r.items[i].distanceInKM == item.distanceInKM && r.items[i].comment == item.comment)
            && (state.items[i].id != item.id ==> r.items[i] == state.items[i]))
      && r.workoutTypeFilter == state.workoutTypeFilter && r.chartWeek == state.chartWeek
  {
    UpdateByIdSpec(state.items, item);
  }

  /** SET_TRAINING_ID renames every item with `oldId` and changes nothing else. */
  lemma SetTrainingIdRenames(state: State, oldId: Id, newId: Id)
    ensures var r := Reduce(state, SetTrainingId(oldId, newId));
      && |r.items| == |state.items|
      && (forall i :: 0 <= i < |state.items| ==>
            && (state.items[i].id == oldId ==> r.items[i] == state.items[i].(id := newId))
            && (state.items[i].id != oldId ==> r.items[i] == state.items[i]))
      && r.workoutTypeFilter == state.workoutTypeFilter && r.chartWeek == state.chartWeek
  {
    ReassignIdSpec(state.items, oldId, newId);
  }

  /**
   * SET_WORKOUT_TYPE_FILTER and SET_CHART_WEEK replace only their own field;
   * any other action leaves the state as it is.
   */
  lemma SettersReplaceOneField(state: State, action: Action)
    requires action.SetWorkoutTypeFilter? || action.SetChartWeek? || action.OtherAction?
    ensures var r := Reduce(state, action);
      && r.items == state.items
      && r.workoutTypeFilter == (if action.SetWorkoutTypeFilter? then action.workoutTypeFilter else state.workoutTypeFilter)
      && r.chartWeek == (if action.SetChartWeek? then action.chartWeek else state.chartWeek)
  {
  }

  // ---------------------------------------------------------------------
  // Id uniqueness

  lemma {:induction false} RemoveByIdKeepsUnique(items: seq<Training>, id: Id)
    requires UniqueIds(items)
    ensures UniqueIds(RemoveById(items, id))
  {
    if |items| > 0 {
      assert UniqueIds(items[1..]) by {
        forall i, j | 0 <= i < j < |items[1..]| ensures items[1..][i].id != items[1..][j].id {
          assert items[1..][i] == items[i + 1] && items[1..][j] == items[j + 1];
        }
      }
      RemoveByIdKeepsUnique(items[1..], id);
      RemoveByIdMembers(items[1..], id);
      var rest := RemoveById(items[1..], id);
      if items[0].id != id {
        forall j | 0 <= j < |rest| ensures items[0].id != rest[j].id {
          assert rest[j] in items[1..];
        }
        assert forall j :: 1 <= j < |[items[0]] + rest| ==> ([items[0]] + rest)[j] == rest[j - 1];
      }
    }
  }

  /** DELETE, UPDATE, the filter and the chart week keep ids pairwise distinct. */
  lemma UniqueIdsPreserved(state: State, action: Action)
    requires UniqueIds(state.items)
    requires action.DeleteTraining? || action.UpdateTraining? || action.SetWorkoutTypeFilter?
             || action.SetChartWeek? || action.OtherAction?
    ensures UniqueIds(Reduce(state, action).items)
  {
    match action
    case DeleteTraining(id) => RemoveByIdKeepsUnique(state.items, id);
    case UpdateTraining(item) => UpdateByIdSpec(state.items, item);
    case _ =>
  }

  /** After CREATE_TRAINING ids stay distinct exactly when the new id is not present. */
  lemma UniqueAfterCreate(state: State, item: Training)
    requires UniqueIds(state.items)
    ensures UniqueIds(Reduce(state, CreateTraining(item)).items) <==> item.id !in Ids(state.items)
  {
    var r := Reduce(state, CreateTraining(item)).items;
    if item.id in Ids(state.items) {
      var i :| 0 <= i < |state.items| && state.items[i].id == item.id;
      assert r[i].id == r[|state.items|].id;
    }
  }

  /**
   * After SET_TRAINING_ID ids stay distinct exactly when nothing is renamed,
   * or the new id is the old one, or the new id is not present.
   */
  lemma UniqueAfterSetTrainingId(state: State, oldId: Id, newId: Id)
    requires UniqueIds(state.items)
    ensures UniqueIds(Reduce(state, SetTrainingId(oldId, newId)).items)
        <==> (oldId !in Ids(state.items) || newId == oldId || newId !in Ids(state.items))
  {
    var items := state.items;
    var r := Reduce(state, SetTrainingId(oldId, newId)).items;
    ReassignIdSpec(items, oldId, newId);
    if oldId in Ids(items) && newId != oldId && newId in Ids(items) {
      var i :| 0 <= i < |items| && items[i].id == oldId;
      var j :| 0 <= j < |items| && items[j].id == newId;
      assert r[i].id == newId == r[j].id;
      assert i < j || j < i;
    }
  }

  /**
   * Reconciliation: once a created item's temporary id is replaced by a fresh
   * server id, exactly one item has the server id and none the temporary one.
   */
  lemma ReconciledAfterSetTrainingId(state: State, oldId: Id, newId: Id)
    requires UniqueIds(state.items)
    requires oldId in Ids(state.items) && newId !in Ids(state.items)
    ensures var r := Reduce(state, SetTrainingId(oldId, newId)).items;
      && oldId !in Ids(r)
      && (exists i :: 0 <= i < |r| && r[i].id == newId)
      && (forall i, j :: 0 <= i < |r| && 0 <= j < |r| && r[i].id == newId && r[j].id == newId ==> i == j)
  {
    var items := state.items;
    var r := Reduce(state, SetTrainingId(oldId, newId)).items;
    ReassignIdSpec(items, oldId, newId);
    UniqueAfterSetTrainingId(state, oldId, newId);
    var k :| 0 <= k < |items| && items[k].id == oldId;
    assert r[k].id == newId;
  }

  // ---------------------------------------------------------------------
  // Getters

  /** Each getter reads back what the corresponding action stored. */
  lemma GettersReadBack(state: State, items: seq<Training>, filter: string, week: Monday)
    ensures GetTrainings(RootState(Reduce(state, SetTrainings(items)))) == items
    ensures GetWorkoutTypeFilter(RootState(Reduce(state, SetWorkoutTypeFilter(filter)))) == filter
    ensures GetChartWeek(RootState(Reduce(state, SetChartWeek(week)))) == week
    ensures GetTrainings(RootState(Reduce(state, SetChartWeek(week)))) == state.items
  {
  }
}
