/** The state-and-wiring layer of the grid component
    (components/data-table/data-table.tsx): the column order and its
    drag-to-reorder transition, which order source wins, how the selection
    column is assembled, the row identity used for selection, the footer
    gate and the sort props handed to headers when sorting is off. */
module DataTable {
  import opened Common
  import ColumnUtils

  // ---------------------------------------------------------------------------
  // Reordering: indexOf and arrayMove
  // ---------------------------------------------------------------------------

  /** `Array.prototype.indexOf`: the first index holding `x`, or -1. */
  function IndexOf(s: seq<string>, x: string): (i: int)
    ensures -1 <= i < |s|
    ensures i == -1 <==> x !in s
    ensures 0 <= i ==> s[i] == x && x !in s[..i]
  {
    if |s| == 0 then -1
    else if s[0] == x then 0
    else
      var j := IndexOf(s[1..], x);
      assert s[1..][..(if j < 0 then 0 else j)] == s[1..(if j < 0 then 1 else j + 1)];
      if j < 0 then -1 else j + 1
  }

  /** dnd-kit's `arrayMove(array, from, to)` for indices inside the array:
      the element at `from` is spliced out, then spliced back in at `to`. */
  function ArrayMove(s: seq<string>, from: nat, to: nat): (r: seq<string>)
    requires from < |s| && to < |s|
    ensures |r| == |s| && r[to] == s[from]
  {
    var rest := s[..from] + s[from + 1..];
    rest[..to] + [s[from]] + rest[to..]
  }

  /** The move is a permutation: no id is lost or duplicated. */
  lemma ArrayMovePermutes(s: seq<string>, from: nat, to: nat)
    requires from < |s| && to < |s|
    ensures multiset(ArrayMove(s, from, to)) == multiset(s)
  {
    var rest := s[..from] + s[from + 1..];
    assert s == s[..from] + [s[from]] + s[from + 1..];
    assert rest == rest[..to] + rest[to..];
    calc {
      multiset(ArrayMove(s, from, to));
      multiset(rest[..to]) + multiset{s[from]} + multiset(rest[to..]);
      multiset(rest) + multiset{s[from]};
      multiset(s[..from]) + multiset(s[from + 1..]) + multiset{s[from]};
      multiset(s);
    }
  }

  /** The shape of the move: ids outside the span between `from` and `to`
      stay where they were, ids inside it shift one place towards `from`. */
  lemma ArrayMoveShape(s: seq<string>, from: nat, to: nat, i: nat)
    requires from < |s| && to < |s| && i < |s|
    ensures (i < from && i < to) || (i > from && i > to) ==> ArrayMove(s, from, to)[i] == s[i]
    ensures from <= i < to ==> ArrayMove(s, from, to)[i] == s[i + 1]
    ensures to < i <= from ==> ArrayMove(s, from, to)[i] == s[i - 1]
  {
  }

  /** Dragging the id back to where it came from undoes the move. */
  lemma ArrayMoveInverse(s: seq<string>, from: nat, to: nat)
    requires from < |s| && to < |s|
    ensures ArrayMove(ArrayMove(s, from, to), to, from) == s
  {
    var r := ArrayMove(s, from, to);
    var back := ArrayMove(r, to, from);
    forall i | 0 <= i < |s| ensures back[i] == s[i] {
      ArrayMoveShape(r, to, from, i);
      if i != from {
        var j := if i < from && i < to then i
                 else if i > from && i > to then i
                 else if to <= i < from then i + 1
                 else i - 1;
        ArrayMoveShape(s, from, to, j);
      }
    }
  }

  // ---------------------------------------------------------------------------
  // The column order state and handleDragEnd
  // ---------------------------------------------------------------------------

  /** `columns.map((c) => c.id!)`: the initial internal order. */
  function ColumnIds(columns: seq<ColumnDef>): (ids: seq<string>)
    ensures |ids| == |columns|
    ensures forall i :: 0 <= i < |columns| ==> ids[i] == columns[i].id
  {
    seq(|columns|, i requires 0 <= i < |columns| => columns[i].id)
  }

  /** `columnOrderState?.columnOrder || internalColumnOrder`: an array is
      always truthy, so a supplied external order wins even when empty. */
  function ResolveColumnOrder(external: Option<seq<string>>, internal: seq<string>): (order: seq<string>)
    ensures external.Some? ==> order == external.value
    ensures external.None? ==> order == internal
  {
    match external
    case Some(o) => o
    case None => internal
  }

  /** An empty external order, such as the demo's `[]`, is still the order
      handed to TanStack Table; the internal one is not consulted. */
  lemma EmptyExternalOrderWins(internal: seq<string>)
    ensures ResolveColumnOrder(Some([]), internal) == []
  {
  }

  /** The column order the table renders, with the drag-end transition that
      the `onDragEnd` handler applies to it through the setter. */
  class ColumnOrder {
    var columnOrder: seq<string>

    /** The internal order starts as the ids in definition order. */
    constructor(columns: seq<ColumnDef>)
      ensures columnOrder == ColumnIds(columns)
    {
      columnOrder := ColumnIds(columns);
    }

    /** `handleDragEnd`: nothing happens without a drop target or when the
        column is dropped on itself; otherwise the dragged id moves to the
        index the target had, and every id is kept. */
    method HandleDragEnd(active: string, over: Option<string>)
      modifies this
      requires over.Some? && active != over.value ==> active in columnOrder && over.value in columnOrder
      ensures over.None? || active == over.value ==> columnOrder == old(columnOrder)
      ensures over.Some? && active != over.value ==>
                && IndexOf(old(columnOrder), active) >= 0 && IndexOf(old(columnOrder), over.value) >= 0
                && columnOrder == ArrayMove(old(columnOrder), IndexOf(old(columnOrder), active),
                                            IndexOf(old(columnOrder), over.value))
                && columnOrder[IndexOf(old(columnOrder), over.value)] == active
      ensures multiset(columnOrder) == multiset(old(columnOrder))
    {
      if over.Some? && active != over.value {
        var oldIndex := IndexOf(columnOrder, active);
        var newIndex := IndexOf(columnOrder, over.value);
        ArrayMovePermutes(columnOrder, oldIndex, newIndex);
        columnOrder := ArrayMove(columnOrder, oldIndex, newIndex);
      }
    }
  }

  // ---------------------------------------------------------------------------
  // Column assembly
  // ---------------------------------------------------------------------------

  /** `props.allowRowSelection && props.columnsWithCheckbox ?
      props.columnsWithCheckbox(columns) : columns`. */
  function AssembleColumns(allowRowSelection: Option<bool>,
                           withCheckbox: Option<seq<ColumnDef> -> seq<ColumnDef>>,
                           columns: seq<ColumnDef>): (r: seq<ColumnDef>)
    ensures Enabled(allowRowSelection) && withCheckbox.Some? ==> r == withCheckbox.value(columns)
    ensures !Enabled(allowRowSelection) || withCheckbox.None? ==> r == columns
  {
    if Enabled(allowRowSelection) && withCheckbox.Some? then withCheckbox.value(columns) else columns
  }

  /** With row selection on and the library's `columnsWithCheckbox` as the
      factory, the table gets the select column in front of the caller's
      columns, with the SUM / AVG footer (no custom footer is passed). */
  lemma SelectionColumnPrepended(columns: seq<ColumnDef>)
    ensures var r := AssembleColumns(Some(true), Some(cs => ColumnUtils.ColumnsWithCheckbox(cs, false)), columns);
            && |r| == |columns| + 1 && r[1..] == columns
            && IsSelectColumn(r[0]) && r[0].footer == LabelFooter("SUM", "AVG")
  {
  }

  // ---------------------------------------------------------------------------
  // Row identity: getRowId = String(row.id)
  // ---------------------------------------------------------------------------

  function DigitChar(d: nat): char
    requires d < 10
  {
    "0123456789"[d]
  }

  predicate IsDigit(c: char)
  {
    '0' <= c <= '9'
  }

  /** The decimal digits of a natural number, without leading zeros. */
  function NatToString(n: nat): (s: string)
    ensures |s| > 0 && forall i :: 0 <= i < |s| ==> IsDigit(s[i])
    ensures |s| > 1 ==> s[0] != '0'
  {
    if n < 10 then [DigitChar(n)] else NatToString(n / 10) + [DigitChar(n % 10)]
  }

  /** `String(n)` for a safe integer: an optional minus sign and the digits. */
  function IntToString(n: SafeInteger): string
  {
    if n < 0 then "-" + NatToString(-n) else NatToString(n)
  }

  /** `String(row.id)`. */
  function RowKeyString(key: RowKey): string
  {
    match key
    case TextKey(t) => t
    case NumberKey(n) => IntToString(n)
  }

  /** `getRowId`: the id TanStack keys the row selection by. */
  function RowId(row: Row): string
  {
    RowKeyString(row.id)
  }

  function DigitValue(c: char): nat
    requires IsDigit(c)
  {
    c as int - '0' as int
  }

  /** Reads a string of decimal digits back. */
  function ParseNat(s: string): nat
    requires forall i :: 0 <= i < |s| ==> IsDigit(s[i])
  {
    if |s| == 0 then 0 else 10 * ParseNat(s[..|s| - 1]) + DigitValue(s[|s| - 1])
  }

  lemma {:induction false} ParseNatToString(n: nat)
    ensures ParseNat(NatToString(n)) == n
  {
    if n >= 10 {
      var s := NatToString(n);
      assert s[..|s| - 1] == NatToString(n / 10);
      ParseNatToString(n / 10);
    }
  }

  /** The text starts with a minus sign exactly for a negative number. */
  lemma IntToStringSign(n: SafeInteger)
    ensures |IntToString(n)| > 0
    ensures n < 0 <==> IntToString(n)[0] == '-'
    ensures n < 0 ==> IntToString(n)[1..] == NatToString(-n)
  {
    if n >= 0 {
      assert IsDigit(NatToString(n)[0]);
    }
  }

  lemma NatToStringInjective(x: nat, y: nat)
    requires NatToString(x) == NatToString(y)
    ensures x == y
  {
    ParseNatToString(x);
    ParseNatToString(y);
  }

  /** Distinct integers print as distinct strings. */
  lemma IntToStringInjective(a: SafeInteger, b: SafeInteger)
    requires IntToString(a) == IntToString(b)
    ensures a == b
  {
    IntToStringSign(a);
    IntToStringSign(b);
    if a < 0 {
      assert b < 0;
      assert NatToString(-a) == NatToString(-b);
      NatToStringInjective(-a, -b);
    } else {
      assert b >= 0;
      NatToStringInjective(a, b);
    }
  }

  /** Two row keys select the same row exactly when they are equal or one is
      the number whose decimal text the other is: the numeric id 7 and the
      string id "7" share a selection entry. */
  lemma SameRowIdIff(a: RowKey, b: RowKey)
    ensures RowKeyString(a) == RowKeyString(b) <==>
              || a == b
              || (a.NumberKey? && b == TextKey(IntToString(a.number)))
              || (b.NumberKey? && a == TextKey(IntToString(b.number)))
  {
    if a.NumberKey? && b.NumberKey? && RowKeyString(a) == RowKeyString(b) {
      IntToStringInjective(a.number, b.number);
    }
  }

  // ---------------------------------------------------------------------------
  // Selection and the footer gate
  // ---------------------------------------------------------------------------

  /** The rows whose id the selection state marks, in row order. */
  function SelectedRows(rows: seq<Row>, selection: set<string>): (r: seq<Row>)
    ensures forall x :: multiset(r)[x] == if RowId(x) in selection then multiset(rows)[x] else 0
  {
    if |rows| == 0 then []
    else
      assert rows == [rows[0]] + rows[1..];
      (if RowId(rows[0]) in selection then [rows[0]] else []) + SelectedRows(rows[1..], selection)
  }

  /** Selection is keyed by row identity, not position: reordering the rows
      reorders the selected rows and selects nothing else. */
  lemma SelectionFollowsRows(rows: seq<Row>, reordered: seq<Row>, selection: set<string>)
    requires multiset(reordered) == multiset(rows)
    ensures multiset(SelectedRows(reordered, selection)) == multiset(SelectedRows(rows, selection))
  {
  }

  /** `allowFooter && props.allowRowSelection &&
      table.getSelectedRowModel().flatRows.length >= 2`. */
  predicate FooterVisible(allowFooter: bool, allowRowSelection: Option<bool>, selectedCount: nat)
  {
    allowFooter && Enabled(allowRowSelection) && selectedCount >= 2
  }

  /** The footer never shows for one selected row or none, and once it shows,
      selecting more rows keeps it. */
  lemma FooterNeedsTwoRows(allowFooter: bool, allowRowSelection: Option<bool>, n: nat, m: nat)
    ensures n < 2 ==> !FooterVisible(allowFooter, allowRowSelection, n)
    ensures FooterVisible(allowFooter, allowRowSelection, n) && n <= m ==>
              FooterVisible(allowFooter, allowRowSelection, m)
  {
  }

  // ---------------------------------------------------------------------------
  // Sort props handed to every header
  // ---------------------------------------------------------------------------

  /** The click handler a header receives. */
  datatype SortHandler = CallerHandler | NoOpHandler

  /** With sorting on, the caller's state and handler; with sorting off,
      `{ columnId: "none", order: "asc" }` and `() => {}`. */
  function HeaderSortProps(allowColumnSorting: Option<bool>, callerSort: SortState): (props: (SortState, SortHandler))
    ensures Enabled(allowColumnSorting) ==> props == (callerSort, CallerHandler)
    ensures !Enabled(allowColumnSorting) ==> props == (SortState(Some("none"), Asc), NoOpHandler)
  {
    if Enabled(allowColumnSorting) then (callerSort, CallerHandler)
    else (SortState(Some("none"), Asc), NoOpHandler)
  }
}
