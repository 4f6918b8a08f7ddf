/**
 * The closed enumeration of workout types: the ordered tuple, the static
 * constants, and the label table with its keys and selection items.
 */
module WorkoutTypes {
  import opened Js

  /** `workoutTuple`, in declaration order. */
  const WorkoutTuple: seq<string> := ["walking", "running", "cycling", "skiing"]

  const WALKING: string := "walking"
  const RUNNING: string := "running"
  const CYCLING: string := "cycling"
  const SKIING: string := "skiing"

  /** One property of an object literal. */
  datatype Entry = Entry(key: string, value: string)

  /**
   * An object literal with string keys, as the list of its properties in
   * insertion order (the order `Object.keys` and `Object.entries` report).
   */
  type Record = seq<Entry>

  /** `record[key]`, `None` standing for `undefined`. */
  function Get(record: Record, key: string): Option<string>
  {
    if |record| == 0 then None
    else if record[0].key == key then Some(record[0].value)
    else Get(record[1..], key)
  }

  /** `Object.keys(record)`. */
  function Keys(record: Record): seq<string>
  {
    if |record| == 0 then [] else [record[0].key] + Keys(record[1..])
  }

  /** A `{value, label}` pair of a select or dropdown field (`label` is a Dafny keyword). */
  datatype SelectItem = SelectItem(value: string, labelText: string)

  /** `Object.entries(record).map(([value, label]) => ({value, label}))`. */
  function EntriesToSelectItems(record: Record): seq<SelectItem>
  {
    if |record| == 0 then []
    else [SelectItem(record[0].key, record[0].value)] + EntriesToSelectItems(record[1..])
  }

  /**
   * `WorkoutType.getLabels()`: each workout type mapped to its display label,
   * one entry per member of the tuple, in tuple order.
   */
  function GetLabels(): (labels: Record)
    ensures |labels| == |WorkoutTuple|
    ensures forall i :: 0 <= i < |labels| ==> labels[i].key == WorkoutTuple[i]
  {
    [Entry(WALKING, "Walking"), Entry(RUNNING, "Running"),
     Entry(CYCLING, "Cycling"), Entry(SKIING, "Skiing")]
  }

  /** `WorkoutType.getKeys()`: the label table's keys, which are the tuple. */
  function GetKeys(): (keys: seq<string>)
    ensures keys == WorkoutTuple
  {
    Keys(GetLabels())
  }

  /**
   * `WorkoutType.getSelectionItems()`: one item per workout type, in tuple
   * order, each labelled as the label table says.
   */
  function GetSelectionItems(): (items: seq<SelectItem>)
    ensures |items| == |WorkoutTuple|
    ensures forall i :: 0 <= i < |items| ==>
      items[i].value == WorkoutTuple[i] && Get(GetLabels(), items[i].value) == Some(items[i].labelText)
  {
    EntriesToSelectItems(GetLabels())
  }

  /** The label of a workout type of the tuple. */
  function Label(workoutType: string): string
    requires workoutType in WorkoutTuple
  {
    Get(GetLabels(), workoutType).value
  }

  /** Upper-casing of an ASCII lower-case letter; other characters stay. */
  function ToUpper(c: char): char
  {
    if 'a' <= c <= 'z' then (c as int - 32) as char else c
  }

  /** The word with its first letter in upper case. */
  function Capitalize(s: string): string
  {
    if |s| == 0 then s else [ToUpper(s[0])] + s[1..]
  }

  /** The four static constants are the tuple's entries, and these are distinct. */
  lemma ConstantsAreTheTuple()
    ensures WorkoutTuple == [WALKING, RUNNING, CYCLING, SKIING]
    ensures forall i, j :: 0 <= i < j < |WorkoutTuple| ==> WorkoutTuple[i] != WorkoutTuple[j]
  {
  }

  /** Every workout type is labelled by its own name, capitalised. */
  lemma LabelsAreCapitalised()
    ensures forall w :: w in WorkoutTuple ==> Get(GetLabels(), w) == Some(Capitalize(w))
    ensures forall w :: w !in WorkoutTuple ==> Get(GetLabels(), w) == None
  {
    var labels := GetLabels();
    assert labels[1..] == [Entry(RUNNING, "Running"), Entry(CYCLING, "Cycling"), Entry(SKIING, "Skiing")];
    assert labels[2..] == [Entry(CYCLING, "Cycling"), Entry(SKIING, "Skiing")];
    assert labels[3..] == [Entry(SKIING, "Skiing")];
    assert labels[4..] == [];
    forall w | w in WorkoutTuple
      ensures Get(labels, w) == Some(Capitalize(w))
    {
      if w == WALKING {
        assert Capitalize(WALKING) == "Walking";
      } else if w == RUNNING {
        assert Get(labels, w) == Get(labels[1..], w);
        assert Capitalize(RUNNING) == "Running";
      } else if w == CYCLING {
        assert Get(labels, w) == Get(labels[1..], w) == Get(labels[2..], w);
        assert Capitalize(CYCLING) == "Cycling";
      } else {
        assert w == SKIING;
        assert Get(labels, w) == Get(labels[1..], w) == Get(labels[2..], w) == Get(labels[3..], w);
        assert Capitalize(SKIING) == "Skiing";
      }
    }
    forall w | w !in WorkoutTuple
      ensures Get(labels, w) == None
    {
      assert w != WALKING && w != RUNNING && w != CYCLING && w != SKIING;
      assert Get(labels, w) == Get(labels[1..], w) == Get(labels[2..], w) == Get(labels[3..], w) == Get(labels[4..], w);
    }
  }
}
