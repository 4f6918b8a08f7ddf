/**
 * The table's sorting: the three sort orders and their cycle, the rule a
 * click on a sortable column header applies to the sorting state, and the
 * sort of the items by the selected column.
 */
module SmartTable {
  import opened Js

  /** A member of `sortOrders`; `Unsorted` is the empty order `''`. */
  datatype SortOrder = Asc | Desc | Unsorted

  /** `sortOrders`, in cycle order. */
  const SortOrders: seq<SortOrder> := [Asc, Desc, Unsorted]

  /** `ISortingColumn`: the selected column key (`""` for none) and its order. */
  datatype SortingColumn = SortingColumn(key: string, order: SortOrder)

  /** The state the table starts in: no column, no order. */
  const InitialSortingColumn: SortingColumn := SortingColumn("", Unsorted)

  /**
   * Whether `sortItems` sorts: both the key and the order are non-empty
   * (truthy), so a column is selected and its order is one of the first two of
   * `sortOrders`.
   */
  predicate IsActive(sortingColumn: SortingColumn): (active: bool)
    ensures active <==> |sortingColumn.key| > 0 && sortingColumn.order in SortOrders[..2]
  {
    assert SortOrders[..2] == [Asc, Desc];
    sortingColumn.key != "" && sortingColumn.order != Unsorted
  }

  // ---------------------------------------------------------------------
  // The sort-order cycle and the click rule

  /**
   * `findNextSortOrder`: the order after `current` in `sortOrders`, wrapping
   * around from the last to the first.
   */
  function FindNextSortOrder(current: SortOrder): (next: SortOrder)
    ensures current == Asc ==> next == Desc
    ensures current == Desc ==> next == Unsorted
    ensures current == Unsorted ==> next == Asc
  {
    var orderIndex := FindIndex(SortOrders, (order: SortOrder) => order == current);
    SortOrders[(orderIndex + 1) % |SortOrders|]
  }

  /** The cycle has period three: no order is its own successor, and three steps return to the start. */
  lemma SortOrderCycle(order: SortOrder)
    ensures FindNextSortOrder(order) != order
    ensures FindNextSortOrder(FindNextSortOrder(order)) != order
    ensures FindNextSortOrder(FindNextSortOrder(FindNextSortOrder(order))) == order
  {
  }

  /**
   * `sortableColumnClickHandler`'s state update: a click on another column
   * selects it in the first order, a click on the selected one advances its
   * order.
   */
  function SortableColumnClick(sortingColumn: SortingColumn, columnKey: string): (next: SortingColumn)
    ensures next.key == columnKey
    ensures columnKey != sortingColumn.key ==> next.order == Asc
    ensures columnKey == sortingColumn.key ==> next.order == FindNextSortOrder(sortingColumn.order)
  {
    SortingColumn(columnKey, if columnKey == sortingColumn.key then FindNextSortOrder(sortingColumn.order) else SortOrders[0])
  }

  /**
   * After a click the table sorts, unless the click was on the column already
   * sorted in descending order (that click switches sorting off) or the
   * column key is empty.
   */
  lemma ClickActivates(sortingColumn: SortingColumn, columnKey: string)
    ensures IsActive(SortableColumnClick(sortingColumn, columnKey))
      <==> columnKey != "" && !(columnKey == sortingColumn.key && sortingColumn.order == Desc)
  {
  }

  /**
   * Clicking one column repeatedly, from the initial state, sorts ascending,
   * then descending, then not at all, then ascending again.
   */
  lemma RepeatedClicks(columnKey: string)
    requires columnKey != ""
    ensures var first := SortableColumnClick(InitialSortingColumn, columnKey);
      var second := SortableColumnClick(first, columnKey);
      var third := SortableColumnClick(second, columnKey);
      var fourth := SortableColumnClick(third, columnKey);
      && first == SortingColumn(columnKey, Asc) && second == SortingColumn(columnKey, Desc)
      && third == SortingColumn(columnKey, Unsorted) && !IsActive(third)
      && fourth == first
  {
  }

  // ---------------------------------------------------------------------
  // Field values and the comparator

  /**
   * The value of an item's field as the comparator sees it. The shown
   * columns hold strings (date, workout type, comment) or numbers (distance).
   */
  datatype FieldValue = Text(s: string) | Num(n: real)

  /**
   * JavaScript's `<` on two field values: numeric order on numbers, UTF-16
   * code unit order on strings; a number and a string are taken as
   * incomparable.
   */
  predicate Less(x: FieldValue, y: FieldValue)
  {
    match (x, y)
    case (Num(a), Num(b)) => a < b
    case (Text(a), Text(b)) => StrLess(a, b)
    case _ => false
  }

  /** `x > y` is `y < x`. */
  predicate Greater(x: FieldValue, y: FieldValue)
  {
    Less(y, x)
  }

  lemma LessAsymmetric(x: FieldValue, y: FieldValue)
    ensures Less(x, y) ==> !Less(y, x)
  {
    if x.Text? && y.Text? {
      StrLessAsymmetric(x.s, y.s);
    }
  }

  /**
   * The comparator passed to `sort`: positive when `x` must come after `y`,
   * negative when before, zero when neither is above the other. Ascending
   * puts greater values after, any other order puts them before.
   */
  function Compare(order: SortOrder, x: FieldValue, y: FieldValue): (c: int)
    ensures -1 <= c <= 1
    ensures order == Asc ==> (c > 0 <==> Greater(x, y)) && (c < 0 <==> Less(x, y))
    ensures order != Asc ==> (c > 0 <==> Less(x, y)) && (c < 0 <==> Greater(x, y))
  {
    LessAsymmetric(x, y);
    if Greater(x, y) then (if order == Asc then 1 else -1)
    else if Less(x, y) then (if order == Asc then -1 else 1)
    else 0
  }

  /** The comparator is antisymmetric in sign, which is what a sort needs of it. */
  lemma CompareAntisymmetric(order: SortOrder, x: FieldValue, y: FieldValue)
    ensures Compare(order, x, y) > 0 <==> Compare(order, y, x) < 0
  {
    LessAsymmetric(x, y);
    LessAsymmetric(y, x);
  }

  // ---------------------------------------------------------------------
  // Columns and the sort

  /** `IColumn`: `dataIndex` is given as the field it reads. */
  datatype Column<!T> = Column(title: string, dataIndex: T -> FieldValue, key: string, sortable: bool)

  /** The position of the first column with the given key, or -1. */
  function ColumnIndex<T>(columns: seq<Column<T>>, key: string): (i: int)
    ensures -1 <= i < |columns|
    ensures i == -1 <==> forall j :: 0 <= j < |columns| ==> columns[j].key != key
    ensures 0 <= i ==> columns[i].key == key && forall j :: 0 <= j < i ==> columns[j].key != key
  {
    FindIndex(columns, (column: Column<T>) => column.key == key)
  }

  /** The comparator does not ask to swap `x` before `y`. */
  predicate InOrder(order: SortOrder, x: FieldValue, y: FieldValue)
  {
    Compare(order, x, y) <= 0
  }

  /** Every neighbouring pair of the first `n` elements is in the comparator's order. */
  ghost predicate OrderedPrefix<T>(order: SortOrder, s: seq<T>, field: T -> FieldValue, n: int)
  {
    forall k :: 0 < k < n && k < |s| ==> InOrder(order, field(s[k - 1]), field(s[k]))
  }

  /** Every neighbouring pair is in the comparator's order (it never asks to swap them). */
  ghost predicate Ordered<T>(order: SortOrder, s: seq<T>, field: T -> FieldValue)
  {
    OrderedPrefix(order, s, field, |s|)
  }

  /** Exchanging two elements keeps the multiset of elements. */
  lemma SwapPermutes<T>(s: seq<T>, i: int, j: int)
    requires 0 <= i < j < |s|
    ensures multiset(s[i := s[j]][j := s[i]]) == multiset(s)
  {
    var u := s[i := s[j]];
    assert multiset(u) == multiset(s) - multiset{s[i]} + multiset{s[j]};
    assert u[j] == s[j];
    assert multiset(u[j := s[i]]) == multiset(u) - multiset{s[j]} + multiset{s[i]};
  }

  /**
   * The state of an insertion pass that is moving the element now at `j`
   * leftwards into the ordered prefix `s[..i]`: the pairs left of `j` and
   * right of it up to `i` are in order, and so is the pair around `j`.
   */
  ghost predicate Inserting<T>(order: SortOrder, s: seq<T>, field: T -> FieldValue, i: int, j: int)
    requires 0 <= j <= i < |s|
  {
    && (forall k :: 0 < k < j ==> InOrder(order, field(s[k - 1]), field(s[k])))
    && (forall k :: j < k <= i ==> InOrder(order, field(s[k - 1]), field(s[k])))
    && (0 < j < i ==> InOrder(order, field(s[j - 1]), field(s[j + 1])))
  }

  /** Swapping the moving element with its left neighbour, when those two are out of order, keeps `Inserting` one place further left. */
  lemma InsertingStep<T>(order: SortOrder, s: seq<T>, field: T -> FieldValue, i: int, j: int)
    requires 0 < j <= i < |s|
    requires Inserting(order, s, field, i, j)
    requires !InOrder(order, field(s[j - 1]), field(s[j]))
    ensures Inserting(order, s[j - 1 := s[j]][j := s[j - 1]], field, i, j - 1)
  {
    CompareAntisymmetric(order, field(s[j - 1]), field(s[j]));
  }

  /** A pass starts with the element to insert just right of the ordered prefix. */
  lemma InsertingStart<T>(order: SortOrder, s: seq<T>, field: T -> FieldValue, i: int)
    requires 0 < i < |s|
    requires OrderedPrefix(order, s, field, i)
    ensures Inserting(order, s, field, i, i)
  {
  }

  /** A pass ends once the moving element is first or in order with its left neighbour. */
  lemma InsertingDone<T>(order: SortOrder, s: seq<T>, field: T -> FieldValue, i: int, j: int)
    requires 0 <= j <= i < |s|
    requires Inserting(order, s, field, i, j)
    requires j == 0 || InOrder(order, field(s[j - 1]), field(s[j]))
    ensures OrderedPrefix(order, s, field, i + 1)
  {
  }

  /**
   * One pass of the insertion sort: moves `a[i]` left past every element the
   * comparator puts after it, so that the prefix `a[..i + 1]` is in order.
   */
  method Insert<T>(a: array<T>, i: int, order: SortOrder, field: T -> FieldValue)
    requires 0 < i < a.Length
    requires OrderedPrefix(order, a[..], field, i)
    modifies a
    ensures multiset(a[..]) == old(multiset(a[..]))
    ensures OrderedPrefix(order, a[..], field, i + 1)
  {
    ghost var start := a[..];
    InsertingStart(order, start, field, i);
    var j := i;
    while j > 0 && !InOrder(order, field(a[j - 1]), field(a[j]))
      invariant 0 <= j <= i
      invariant multiset(a[..]) == multiset(start)
      invariant Inserting(order, a[..], field, i, j)
    {
      ghost var before := a[..];
      a[j - 1], a[j] := a[j], a[j - 1];
      assert a[..] == before[j - 1 := before[j]][j := before[j - 1]];
      SwapPermutes(before, j - 1, j);
      InsertingStep(order, before, field, i, j);
      j := j - 1;
    }
    InsertingDone(order, a[..], field, i, j);
  }

  /**
   * `Array.prototype.sort` with the comparator of `sortItems`, as an
   * insertion sort: the array ends up a permutation of itself in the
   * comparator's order.
   */
  method Sort<T>(a: array<T>, order: SortOrder, field: T -> FieldValue)
    modifies a
    ensures multiset(a[..]) == old(multiset(a[..]))
    ensures Ordered(order, a[..], field)
  {
    if a.Length <= 1 {
      return;
    }
    for i := 1 to a.Length
      invariant multiset(a[..]) == old(multiset(a[..]))
      invariant OrderedPrefix(order, a[..], field, i)
    {
      Insert(a, i, order, field);
    }
  }

  /** What `sortItems` yields: the items to show, or the `TypeError` of a missing column. */
  datatype SortResult<T> = Items(items: array<T>) | ColumnNotFound

  /**
   * `sortItems`: the items themselves while sorting is off; otherwise a
   * sorted copy, ordered by the field of the first column with the selected
   * key. When no column has that key, destructuring the `undefined` found
   * throws.
   */
  method SortItems<T>(sortingColumn: SortingColumn, columns: seq<Column<T>>, items: array<T>)
    returns (r: SortResult<T>)
    ensures !IsActive(sortingColumn) ==> r == Items(items)
    ensures IsActive(sortingColumn) && ColumnIndex(columns, sortingColumn.key) == -1 ==> r == ColumnNotFound
    ensures IsActive(sortingColumn) && ColumnIndex(columns, sortingColumn.key) >= 0 ==>
      && r.Items? && fresh(r.items)
      && multiset(r.items[..]) == multiset(items[..])
      && Ordered(sortingColumn.order, r.items[..], columns[ColumnIndex(columns, sortingColumn.key)].dataIndex)
  {
    if !IsActive(sortingColumn) {
      return Items(items);
    }
    var index := ColumnIndex(columns, sortingColumn.key);
    if index == -1 {
      return ColumnNotFound;
    }
    var dataIndex := columns[index].dataIndex;
    var copy := new T[items.Length](i requires 0 <= i < items.Length reads items => items[i]);
    assert copy[..] == items[..];
    Sort(copy, sortingColumn.order, dataIndex);
    return Items(copy);
  }

  // ---------------------------------------------------------------------
  // What the order means

  /** All values are numbers, or all are strings. */
  predicate SameKind(values: seq<FieldValue>)
  {
    (forall i :: 0 <= i < |values| ==> values[i].Num?) || (forall i :: 0 <= i < |values| ==> values[i].Text?)
  }

  /** The field values of a sequence of items. */
  function FieldValues<T>(s: seq<T>, field: T -> FieldValue): (values: seq<FieldValue>)
    ensures |values| == |s| && forall i :: 0 <= i < |s| ==> values[i] == field(s[i])
  {
    seq(|s|, i requires 0 <= i < |s| => field(s[i]))
  }

  /** Not below, on values of one kind, is a transitive relation. */
  lemma NotLessTransitive(x: FieldValue, y: FieldValue, z: FieldValue)
    requires (x.Num? && y.Num? && z.Num?) || (x.Text? && y.Text? && z.Text?)
    requires !Less(y, x) && !Less(z, y)
    ensures !Less(z, x)
  {
    if x.Text? {
      StrLessTotal(x.s, y.s);
      StrLessTotal(y.s, z.s);
      if x.s != y.s && y.s != z.s {
        StrLessTransitive(x.s, y.s, z.s);
        StrLessAsymmetric(x.s, z.s);
      }
    }
  }

  /**
   * Sorted ascending by a column that holds values of one kind, every item's
   * value is at most every later item's value; sorted descending, at least.
   */
  lemma {:induction false} OrderedMeansMonotone<T>(order: SortOrder, s: seq<T>, field: T -> FieldValue)
    requires Ordered(order, s, field)
    requires SameKind(FieldValues(s, field))
    ensures order == Asc ==> forall i, j :: 0 <= i < j < |s| ==> !Less(field(s[j]), field(s[i]))
    ensures order != Asc ==> forall i, j :: 0 <= i < j < |s| ==> !Less(field(s[i]), field(s[j]))
    decreases |s|
  {
    if |s| > 1 {
      var init := s[..|s| - 1];
      assert Ordered(order, init, field) by {
        forall k | 0 < k < |init| ensures Compare(order, field(init[k - 1]), field(init[k])) <= 0 {
          assert init[k - 1] == s[k - 1] && init[k] == s[k];
        }
      }
      var values, initValues := FieldValues(s, field), FieldValues(init, field);
      assert forall i :: 0 <= i < |initValues| ==> initValues[i] == values[i];
      OrderedMeansMonotone(order, init, field);
      var n := |s| - 1;
      forall i, j | 0 <= i < j < |s|
        ensures order == Asc ==> !Less(field(s[j]), field(s[i]))
        ensures order != Asc ==> !Less(field(s[i]), field(s[j]))
      {
        assert field(s[i]) == values[i] && field(s[j]) == values[j];
        if j == n && i < n - 1 {
          assert field(s[n - 1]) == values[n - 1] && init[i] == s[i] && init[n - 1] == s[n - 1];
          if order == Asc {
            NotLessTransitive(values[i], values[n - 1], values[n]);
          } else {
            NotLessTransitive(values[n], values[n - 1], values[i]);
          }
        } else if j < n {
          assert init[i] == s[i] && init[j] == s[j];
        }
      }
    }
  }
}
