/** The sample page (app/page.tsx): its sort-click handler, which keeps the
    sort state and the sorted rows, and `sortData`, a stable sort of a copy
    of the rows by one column. String comparison (`localeCompare`) is the
    parameter `collate`. */
module Page {
  import opened Common
  import opened ArraySort
  import Aggregation
  import DataTable

  // ---------------------------------------------------------------------------
  // The sort-click transition
  // ---------------------------------------------------------------------------

  /** The order the handler computes before coercion: on the sorted column
      "asc" goes to "desc", "desc" to undefined, undefined to "asc"; any other
      column starts at "asc". */
  function ClickedOrder(prev: SortState, columnId: string): Order
  {
    if prev.columnId == Some(columnId) then
      match prev.order
      case Asc => Desc
      case Desc => Unset
      case Unset => Asc
    else Asc
  }

  /** `{ columnId, order: newOrder ?? "asc" }`. */
  function NextSort(prev: SortState, columnId: string): (next: SortState)
    ensures next.columnId == Some(columnId) && next.order != Unset
    ensures prev.columnId != Some(columnId) ==> next.order == Asc
    ensures prev.columnId == Some(columnId) ==> (next.order == Asc <==> prev.order != Asc)
  {
    var order := ClickedOrder(prev, columnId);
    SortState(Some(columnId), if order == Unset then Asc else order)
  }

  /** On one column the page only alternates between ascending and
      descending: two clicks come back to the same state, and the unsorted
      state is never reached again. */
  lemma NextSortTwoCycle(columnId: string, order: Order)
    requires order != Unset
    ensures NextSort(NextSort(SortState(Some(columnId), order), columnId), columnId)
            == SortState(Some(columnId), order)
  {
  }

  // ---------------------------------------------------------------------------
  // The comparator and sortData
  // ---------------------------------------------------------------------------

  /** The comparator: numbers by difference, strings by `collate`, both
      reversed unless the order is "asc"; any other pair compares equal. */
  function CompareValues(a: CellValue, b: CellValue, order: Order,
                         collate: (string, string) -> real): real
  {
    if a.NumberValue? && b.NumberValue? then
      (if order == Asc then a.n - b.n else b.n - a.n)
    else if a.StringValue? && b.StringValue? then
      (if order == Asc then collate(a.s, b.s) else collate(b.s, a.s))
    else 0.0
  }

  /** `(a, b) => …` over the rows, reading both at `columnId`. */
  function RowComparator(columnId: string, order: Order, collate: (string, string) -> real): (Row, Row) -> real
  {
    (a: Row, b: Row) => CompareValues(ValueAt(a, columnId), ValueAt(b, columnId), order, collate)
  }

  /** `sortData`: the rows unchanged when there is no column (or the empty
      one) or no order, otherwise a stable sort of a copy. */
  function SortData(columnId: Option<string>, order: Order, rows: seq<Row>,
                    collate: (string, string) -> real): (sorted: seq<Row>)
    ensures columnId.None? || columnId == Some("") || order == Unset ==> sorted == rows
  {
    if columnId.None? || columnId == Some("") || order == Unset then rows
    else StableSort(rows, RowComparator(columnId.value, order, collate))
  }

  /** Every result of `sortData` holds the same rows. */
  lemma SortDataPermutes(columnId: Option<string>, order: Order, rows: seq<Row>,
                         collate: (string, string) -> real)
    ensures multiset(SortData(columnId, order, rows, collate)) == multiset(rows)
  {
    if !(columnId.None? || columnId == Some("") || order == Unset) {
      SortPermutes(rows, RowComparator(columnId.value, order, collate));
    }
  }

  /** The rows as a set of values, the domain the comparator must order. */
  function RowSet(rows: seq<Row>): set<Row>
  {
    set r | r in rows
  }

  lemma RowsWithin(rows: seq<Row>)
    ensures Within(rows, RowSet(rows))
  {
  }

  /** Every row holds a number in the column. */
  predicate NumericColumn(rows: seq<Row>, columnId: string)
  {
    forall r :: r in rows ==> ValueAt(r, columnId).NumberValue?
  }

  /** Every row holds a string in the column. */
  predicate StringColumn(rows: seq<Row>, columnId: string)
  {
    forall r :: r in rows ==> ValueAt(r, columnId).StringValue?
  }

  /** The strings of a string column. */
  function ColumnStrings(rows: seq<Row>, columnId: string): set<string>
  {
    set r | r in rows && ValueAt(r, columnId).StringValue? :: ValueAt(r, columnId).s
  }

  /** On a column of numbers the comparator is a total preorder. */
  lemma NumericComparatorConsistent(rows: seq<Row>, columnId: string, order: Order,
                                    collate: (string, string) -> real)
    requires NumericColumn(rows, columnId)
    ensures Consistent(RowComparator(columnId, order, collate), RowSet(rows))
  {
    var cmp := RowComparator(columnId, order, collate);
    var dom := RowSet(rows);
    forall x, y | x in dom && y in dom ensures Before(cmp, x, y) <==> After(cmp, y, x) {
    }
    forall x, y, z | x in dom && y in dom && z in dom && NotAfter(cmp, x, y) && NotAfter(cmp, y, z)
      ensures NotAfter(cmp, x, z)
    {
    }
  }

  /** On a column of strings the comparator is a total preorder whenever
      `collate` is one on the column's strings. */
  lemma StringComparatorConsistent(rows: seq<Row>, columnId: string, order: Order,
                                   collate: (string, string) -> real)
    requires StringColumn(rows, columnId)
    requires Consistent(collate, ColumnStrings(rows, columnId))
    ensures Consistent(RowComparator(columnId, order, collate), RowSet(rows))
  {
    var cmp := RowComparator(columnId, order, collate);
    var dom := RowSet(rows);
    var strings := ColumnStrings(rows, columnId);
    forall x, y | x in dom && y in dom ensures Before(cmp, x, y) <==> After(cmp, y, x) {
      var a, b := ValueAt(x, columnId).s, ValueAt(y, columnId).s;
      assert a in strings && b in strings;
      Flip(collate, strings, a, b);
    }
    forall x, y, z | x in dom && y in dom && z in dom && NotAfter(cmp, x, y) && NotAfter(cmp, y, z)
      ensures NotAfter(cmp, x, z)
    {
      var a, b, c := ValueAt(x, columnId).s, ValueAt(y, columnId).s, ValueAt(z, columnId).s;
      assert a in strings && b in strings && c in strings;
      if order == Asc {
        Trans(collate, strings, a, b, c);
      } else {
        Trans(collate, strings, c, b, a);
      }
    }
  }

  /** Sorting a numeric column orders the rows by value, ascending for
      "asc" and descending for "desc", keeps every row, and keeps rows with
      equal values in their previous order. */
  lemma SortNumericColumn(columnId: string, order: Order, rows: seq<Row>,
                          collate: (string, string) -> real)
    requires columnId != "" && order != Unset && NumericColumn(rows, columnId)
    ensures var sorted := SortData(Some(columnId), order, rows, collate);
            && multiset(sorted) == multiset(rows)
            && NumericColumn(sorted, columnId)
            && (forall i, j :: 0 <= i < j < |sorted| ==>
                  if order == Asc then ValueAt(sorted[i], columnId).n <= ValueAt(sorted[j], columnId).n
                  else ValueAt(sorted[i], columnId).n >= ValueAt(sorted[j], columnId).n)
            && Stable(rows, sorted, RowComparator(columnId, order, collate))
  {
    var cmp := RowComparator(columnId, order, collate);
    var sorted := StableSort(rows, cmp);
    assert SortData(Some(columnId), order, rows, collate) == sorted;
    assert multiset(sorted) == multiset(rows) && Sorted(sorted, cmp) && Stable(rows, sorted, cmp) by {
      NumericComparatorConsistent(rows, columnId, order, collate);
      RowsWithin(rows);
      SortCorrect(rows, cmp, RowSet(rows));
    }
    SameRowsSameColumn(rows, sorted, columnId);
    SortedNumbers(sorted, columnId, order, collate);
  }

  /** Rearranging rows keeps a column numeric or textual. */
  lemma SameRowsSameColumn(rows: seq<Row>, other: seq<Row>, columnId: string)
    requires multiset(other) == multiset(rows)
    ensures NumericColumn(rows, columnId) ==> NumericColumn(other, columnId)
    ensures StringColumn(rows, columnId) ==> StringColumn(other, columnId)
  {
    forall r | r in other ensures r in rows {
      assert r in multiset(other);
    }
  }

  /** In a numeric column, rows in comparator order are in value order. */
  lemma SortedNumbers(sorted: seq<Row>, columnId: string, order: Order,
                      collate: (string, string) -> real)
    requires NumericColumn(sorted, columnId) && Sorted(sorted, RowComparator(columnId, order, collate))
    ensures forall i, j :: 0 <= i < j < |sorted| ==>
              if order == Asc then ValueAt(sorted[i], columnId).n <= ValueAt(sorted[j], columnId).n
              else ValueAt(sorted[i], columnId).n >= ValueAt(sorted[j], columnId).n
  {
    var cmp := RowComparator(columnId, order, collate);
    forall i, j | 0 <= i < j < |sorted|
      ensures if order == Asc then ValueAt(sorted[i], columnId).n <= ValueAt(sorted[j], columnId).n
              else ValueAt(sorted[i], columnId).n >= ValueAt(sorted[j], columnId).n
    {
      assert cmp(sorted[i], sorted[j]) <= 0.0;
    }
  }

  /** In a string column, rows in comparator order are in collation order. */
  lemma SortedStrings(sorted: seq<Row>, columnId: string, order: Order,
                      collate: (string, string) -> real)
    requires StringColumn(sorted, columnId) && Sorted(sorted, RowComparator(columnId, order, collate))
    ensures forall i, j :: 0 <= i < j < |sorted| ==>
              var a, b := ValueAt(sorted[i], columnId).s, ValueAt(sorted[j], columnId).s;
              if order == Asc then collate(a, b) <= 0.0 else collate(b, a) <= 0.0
  {
    var cmp := RowComparator(columnId, order, collate);
    forall i, j | 0 <= i < j < |sorted|
      ensures var a, b := ValueAt(sorted[i], columnId).s, ValueAt(sorted[j], columnId).s;
              if order == Asc then collate(a, b) <= 0.0 else collate(b, a) <= 0.0
    {
      assert cmp(sorted[i], sorted[j]) <= 0.0;
    }
  }

  /** Sorting a string column orders the rows by `collate` (reversed for
      "desc"), keeps every row, and keeps rows that collate equal in their
      previous order. */
  lemma SortStringColumn(columnId: string, order: Order, rows: seq<Row>,
                         collate: (string, string) -> real)
    requires columnId != "" && order != Unset && StringColumn(rows, columnId)
    requires Consistent(collate, ColumnStrings(rows, columnId))
    ensures var sorted := SortData(Some(columnId), order, rows, collate);
            && multiset(sorted) == multiset(rows)
            && StringColumn(sorted, columnId)
            && (forall i, j :: 0 <= i < j < |sorted| ==>
                  var a, b := ValueAt(sorted[i], columnId).s, ValueAt(sorted[j], columnId).s;
                  if order == Asc then collate(a, b) <= 0.0 else collate(b, a) <= 0.0)
            && Stable(rows, sorted, RowComparator(columnId, order, collate))
  {
    var cmp := RowComparator(columnId, order, collate);
    var sorted := StableSort(rows, cmp);
    assert SortData(Some(columnId), order, rows, collate) == sorted;
    assert multiset(sorted) == multiset(rows) && Sorted(sorted, cmp) && Stable(rows, sorted, cmp) by {
      StringComparatorConsistent(rows, columnId, order, collate);
      RowsWithin(rows);
      SortCorrect(rows, cmp, RowSet(rows));
    }
    SameRowsSameColumn(rows, sorted, columnId);
    SortedStrings(sorted, columnId, order, collate);
  }

  /** A column mixing numbers with other values can break the comparator's
      consistency, which ECMA-262 requires for a defined sort order. With
      two different numbers and a string: 2 and "a" compare equal, "a" and
      1 compare equal, yet 2 sorts after 1. */
  lemma MixedColumnInconsistent(collate: (string, string) -> real)
    ensures var one := Row(NumberKey(1), map["v" := NumberValue(1.0)]);
            var text := Row(NumberKey(2), map["v" := StringValue("a")]);
            var two := Row(NumberKey(3), map["v" := NumberValue(2.0)]);
            !Consistent(RowComparator("v", Asc, collate), {one, text, two})
  {
    var one := Row(NumberKey(1), map["v" := NumberValue(1.0)]);
    var text := Row(NumberKey(2), map["v" := StringValue("a")]);
    var two := Row(NumberKey(3), map["v" := NumberValue(2.0)]);
    var cmp := RowComparator("v", Asc, collate);
    assert ValueAt(one, "v") == NumberValue(1.0) && ValueAt(two, "v") == NumberValue(2.0);
    assert ValueAt(text, "v") == StringValue("a");
    assert cmp(two, text) == 0.0 && cmp(text, one) == 0.0 && cmp(two, one) == 1.0;
    assert NotAfter(cmp, two, text) && NotAfter(cmp, text, one);
    assert !NotAfter(cmp, two, one);
  }

  /** Re-sorting never changes a footer: the selected rows are the same rows
      in another order, so their column sum and average are unchanged. */
  lemma SortKeepsFooter(columnId: Option<string>, order: Order, rows: seq<Row>,
                        collate: (string, string) -> real, selection: set<string>, footerColumn: string)
    ensures var sorted := SortData(columnId, order, rows, collate);
            Aggregation.Aggregate(Aggregation.ColumnNumbers(DataTable.SelectedRows(sorted, selection), footerColumn))
            == Aggregation.Aggregate(Aggregation.ColumnNumbers(DataTable.SelectedRows(rows, selection), footerColumn))
  {
    var sorted := SortData(columnId, order, rows, collate);
    SortDataPermutes(columnId, order, rows, collate);
    DataTable.SelectionFollowsRows(rows, sorted, selection);
    Aggregation.ColumnNumbersPermutation(DataTable.SelectedRows(sorted, selection),
                                         DataTable.SelectedRows(rows, selection), footerColumn);
    Aggregation.AggregatePermutation(
      Aggregation.ColumnNumbers(DataTable.SelectedRows(sorted, selection), footerColumn),
      Aggregation.ColumnNumbers(DataTable.SelectedRows(rows, selection), footerColumn));
  }

  // ---------------------------------------------------------------------------
  // The page's sort state
  // ---------------------------------------------------------------------------

  /** The page's `sort` and `sortedData` state. */
  class SortedTable {
    var sort: SortState
    var sortedData: seq<Row>
    const collate: (string, string) -> real

    /** Unsorted, ascending, with a copy of the data. */
    constructor(data: seq<Row>, collate: (string, string) -> real)
      ensures sort == SortState(None, Asc) && sortedData == data && this.collate == collate
    {
      sort := SortState(None, Asc);
      sortedData := data;
      this.collate := collate;
    }

    /** `handleSortChange`: the next sort state, and the current rows
        re-sorted by it. */
    method HandleSortChange(columnId: string)
      modifies this
      ensures sort == NextSort(old(sort), columnId)
      ensures sortedData == SortData(Some(columnId), sort.order, old(sortedData), collate)
      ensures multiset(sortedData) == multiset(old(sortedData))
    {
      var updated := NextSort(sort, columnId);
      SortDataPermutes(Some(columnId), updated.order, sortedData, collate);
      sortedData := SortData(Some(columnId), updated.order, sortedData, collate);
      sort := updated;
    }
  }
}
