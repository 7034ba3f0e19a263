/** The demo table (components/data-table/demo.tsx): its own sort-click
    handler, a true three-state cycle, the footer of the
    `average_sales_value` column, and `createCheckboxColumn`. */
module Demo {
  import opened Common
  import Aggregation
  import ColumnUtils
  import DataTable
  import Page

  // ---------------------------------------------------------------------------
  // Sort state
  // ---------------------------------------------------------------------------

  /** The demo's `handleSortChange` update: on the sorted column "asc" goes
      to "desc", "desc" to undefined and undefined back to "asc"; another
      column starts at "asc". */
  function NextSort(prev: SortState, columnId: string): (next: SortState)
    ensures next.columnId == Some(columnId)
    ensures prev.columnId != Some(columnId) ==> next.order == Asc
    ensures prev == SortState(Some(columnId), Asc) ==> next.order == Desc
    ensures prev == SortState(Some(columnId), Desc) ==> next.order == Unset
    ensures prev == SortState(Some(columnId), Unset) ==> next.order == Asc
  {
    if prev.columnId == Some(columnId) then
      SortState(Some(columnId), match prev.order
                                case Asc => Desc
                                case Desc => Unset
                                case Unset => Asc)
    else SortState(Some(columnId), Asc)
  }

  /** Clicking one column walks through all three states and the third click
      returns to the start. */
  lemma NextSortThreeCycle(columnId: string, order: Order)
    ensures var s0 := SortState(Some(columnId), order);
            var s1 := NextSort(s0, columnId);
            var s2 := NextSort(s1, columnId);
            && NextSort(s2, columnId) == s0
            && s0 != s1 && s1 != s2 && s0 != s2
  {
  }

  /** The page's handler is this one with undefined coerced to "asc". */
  lemma PageCoercesUnset(prev: SortState, columnId: string)
    ensures var demo := NextSort(prev, columnId);
            Page.NextSort(prev, columnId)
            == SortState(demo.columnId, if demo.order == Unset then Asc else demo.order)
  {
  }

  /** The demo's `sort` state. */
  class SortHolder {
    var sort: SortState

    /** `{ columnId: undefined, order: "asc" }`. */
    constructor()
      ensures sort == SortState(None, Asc)
    {
      sort := SortState(None, Asc);
    }

    /** `handleSortChange`. */
    method HandleSortChange(columnId: string)
      modifies this
      ensures sort == NextSort(old(sort), columnId)
    {
      sort := NextSort(sort, columnId);
    }
  }

  // ---------------------------------------------------------------------------
  // The average_sales_value footer
  // ---------------------------------------------------------------------------

  const SALES_COLUMN: string := "average_sales_value"

  /** The footer's (sum, average) over the selected rows; a value that is not
      a number counts as 0. */
  function SalesFooter(selected: seq<Row>): (r: (real, real))
    ensures selected == [] ==> r == (0.0, 0.0)
    ensures |selected| > 0 ==> r.1 * (|selected| as real) == r.0
  {
    Aggregation.Aggregate(Aggregation.ColumnNumbers(selected, SALES_COLUMN))
  }

  /** Two selected rows worth 40 and 20 give the sum 60 and the average 30. */
  lemma SalesFooterExample(a: Row, b: Row)
    requires ValueAt(a, SALES_COLUMN) == NumberValue(40.0) && ValueAt(b, SALES_COLUMN) == NumberValue(20.0)
    ensures SalesFooter([a, b]) == (60.0, 30.0)
  {
    var values := Aggregation.ColumnNumbers([a, b], SALES_COLUMN);
    assert values == [40.0, 20.0];
    assert values[..1] == [40.0];
    assert values[..1][..0] == [];
    assert Aggregation.Sum(values[..1]) == 40.0;
    assert Aggregation.Sum(values) == 60.0;
  }

  /** A selected row without a number in the column adds nothing to the sum
      but still counts towards the average's divisor. */
  lemma NonNumberCountsAsZero(selected: seq<Row>, extra: Row)
    requires !ValueAt(extra, SALES_COLUMN).NumberValue?
    ensures SalesFooter(selected + [extra]).0 == SalesFooter(selected).0
    ensures SalesFooter(selected + [extra]).1 * ((|selected| + 1) as real) == SalesFooter(selected).0
  {
    var values := Aggregation.ColumnNumbers(selected + [extra], SALES_COLUMN);
    assert values[..|values| - 1] == Aggregation.ColumnNumbers(selected, SALES_COLUMN);
  }

  // ---------------------------------------------------------------------------
  // createCheckboxColumn
  // ---------------------------------------------------------------------------

  /** `createCheckboxColumn`: the select column, read from the row's
      `select` key, in front of the given columns. */
  function CreateCheckboxColumn(columns: seq<ColumnDef>): (r: seq<ColumnDef>)
    ensures |r| == |columns| + 1 && r[1..] == columns
    ensures IsSelectColumn(r[0]) && r[0].accessor == Some("select")
    ensures r[0].footer == LabelFooter("SUM", "AVG") && r[0].enablePinning == None
  {
    var select := ColumnDef(
      id := "select",
      accessor := Some("select"),
      header := SelectAllHeader,
      cell := RowCheckboxCell,
      footer := LabelFooter("SUM", "AVG"),
      size := Some(Finite(60.0)),
      minSize := Some(60.0),
      maxSize := Some(60.0),
      enableSorting := Some(false),
      enableResizing := Some(false),
      enablePinning := None,
      meta := ColumnMeta(
        alignment := Some(AlignCenter), justify := Some(Center), justifyHeader := None,
        cellDataType := Some(Checkbox), headerDataType := Some(Checkbox),
        footerDataType := Some(Checkbox), enableDragging := Some(false), name := Some("select")));
    [select] + columns
  }

  /** The demo's factory and the library's `columnsWithCheckbox` without a
      custom footer build the same columns, except that the demo's select
      column reads the row's `select` key. */
  lemma SameSelectColumnAsLibrary(columns: seq<ColumnDef>)
    ensures var library := ColumnUtils.ColumnsWithCheckbox(columns, false);
            CreateCheckboxColumn(columns) == [library[0].(accessor := Some("select"))] + library[1..]
  {
  }
}
