/** `DraggableTableHeader` (components/data-table/draggable-table-header.tsx):
    the header cell's inline style, which controls it shows, what a click on
    its caption does, and how it reports and draws the sort state. */
module TableHeader {
  import opened Common
  import ColumnUtils
  import DataTable
  import Page

  // ---------------------------------------------------------------------------
  // Inline style
  // ---------------------------------------------------------------------------

  /** `CSS.Translate.toString(transform)` while dragging, undefined otherwise. */
  function DragTransform(isDragging: bool, transform: Option<Translation>): CssValue
  {
    if isDragging && transform.Some? then Translate(transform.value) else Undefined
  }

  /** The header's own style keys, before the pinning styles are spread in. */
  function HeaderBaseStyle(view: ColumnView, isDragging: bool, transform: Option<Translation>): (style: Style)
    ensures style.Keys == {Opacity, Position, Transform, Transition, WhiteSpace, Width}
    ensures style[Transform] == DragTransform(isDragging, transform)
    ensures style[Opacity] == Amount(if isDragging then 0.8 else 1.0)
  {
    map[
      Opacity := Amount(if isDragging then 0.8 else 1.0),
      Position := Keyword(if IsPinned(view.pinned) then "sticky" else "relative"),
      Transform := DragTransform(isDragging, transform),
      Transition := Keyword("width transform 0.2s ease-in-out"),
      WhiteSpace := Keyword("nowrap"),
      Width := Amount(view.size)]
  }

  /** `{ ...base, ...getCommonPinningStyles(column), zIndex }`. */
  function HeaderStyle(view: ColumnView, isDragging: bool, transform: Option<Translation>): Style
  {
    HeaderBaseStyle(view, isDragging, transform) + ColumnUtils.PinningStyles(view)
      + map[ZIndex := Amount(if IsPinned(view.pinned) then 7.0 else if isDragging then 6.0 else 1.0)]
  }

  /** The stacking order is 7 for a pinned header, 6 for one being dragged
      and 1 otherwise; the dragged header is never faded, because the
      pinning styles' opacity 1 comes after the 0.8; and it is sticky exactly
      when pinned. */
  lemma HeaderStacking(view: ColumnView, isDragging: bool, transform: Option<Translation>)
    ensures var style := HeaderStyle(view, isDragging, transform);
            && ZIndex in style && Opacity in style && Position in style
            && style[ZIndex] == Amount(if IsPinned(view.pinned) then 7.0 else if isDragging then 6.0 else 1.0)
            && style[Opacity] == Amount(1.0)
            && (style[Position] == Keyword("sticky") <==> IsPinned(view.pinned))
  {
  }

  /** The shadow, the left offset and the width come from the pinning styles;
      the drag transform only while dragging. */
  lemma HeaderPinningKeys(view: ColumnView, isDragging: bool, transform: Option<Translation>)
    ensures var style := HeaderStyle(view, isDragging, transform);
            var pinning := ColumnUtils.PinningStyles(view);
            && BoxShadow in style && Left in style && Width in style && Transform in style
            && style[BoxShadow] == pinning[BoxShadow] && style[Left] == pinning[Left]
            && (style[BoxShadow] != Undefined <==> view.pinned == PinnedLeft && view.isLastLeft)
            && (style[Left] != Undefined <==> view.pinned == PinnedLeft)
            && style[Width] == Amount(view.size)
            && (style[Transform] != Undefined ==> isDragging)
  {
    assert Transform !in ColumnUtils.PinningStyles(view);
  }

  /** The header's stacking order always replaces the pinning styles' 500/0,
      and dragging changes neither its opacity nor its position. */
  lemma HeaderOverridesPinning(view: ColumnView, isDragging: bool, transform: Option<Translation>)
    ensures var style := HeaderStyle(view, isDragging, transform);
            && ZIndex in style && Opacity in style
            && style[ZIndex] != ColumnUtils.PinningStyles(view)[ZIndex]
            && (style[Opacity] != HeaderBaseStyle(view, isDragging, transform)[Opacity] <==> isDragging)
    ensures Position in HeaderStyle(view, true, transform) && Position in HeaderStyle(view, false, transform)
    ensures HeaderStyle(view, true, transform)[Position] == HeaderStyle(view, false, transform)[Position]
  {
    HeaderStacking(view, isDragging, transform);
    HeaderStacking(view, true, transform);
    HeaderStacking(view, false, transform);
  }

  // ---------------------------------------------------------------------------
  // Controls: each needs the table's switch and the column's own flag
  // ---------------------------------------------------------------------------

  /** The drag handle: dragging allowed, the column draggable, and not pinned. */
  predicate DragHandleVisible(allowColumnDragging: bool, column: ColumnDef, pinned: PinSide)
  {
    allowColumnDragging && Enabled(column.meta.enableDragging) && !IsPinned(pinned)
  }

  /** The pin button. */
  predicate PinButtonVisible(allowColumnPinning: bool, column: ColumnDef)
  {
    allowColumnPinning && Enabled(column.enablePinning)
  }

  /** The resize handle. */
  predicate ResizeHandleVisible(allowColumnResizing: bool, column: ColumnDef)
  {
    allowColumnResizing && Enabled(column.enableResizing)
  }

  /** A CHECKBOX header renders only the column's own header, without the
      caption element that carries the click handler and the sort arrow. */
  predicate HasCaption(column: ColumnDef)
  {
    column.meta.headerDataType != Some(Checkbox)
  }

  /** The sort arrow, drawn inside the caption. */
  predicate SortArrowVisible(allowColumnSorting: bool, column: ColumnDef)
  {
    HasCaption(column) && allowColumnSorting && Enabled(column.enableSorting)
  }

  /** A click on the caption: the column id handed to `handleSortChange`, or
      nothing when sorting is off for the table or the column, or when the
      header has no caption to click. */
  function CaptionClick(allowColumnSorting: bool, column: ColumnDef, headerId: string): (call: Option<string>)
    ensures call.Some? <==> HasCaption(column) && allowColumnSorting && Enabled(column.enableSorting)
    ensures call.Some? ==> call.value == headerId
  {
    if HasCaption(column) && allowColumnSorting && Enabled(column.enableSorting) then Some(headerId) else None
  }

  /** Every control is off when the table's switch is off, whatever the
      column says, and on when both are set (the drag handle also needs the
      column unpinned). */
  lemma ControlsNeedBothSwitches(allow: bool, column: ColumnDef, pinned: PinSide, headerId: string)
    ensures !allow ==> !DragHandleVisible(allow, column, pinned) && !PinButtonVisible(allow, column)
                       && !ResizeHandleVisible(allow, column) && CaptionClick(allow, column, headerId).None?
    ensures allow && Enabled(column.meta.enableDragging) && !IsPinned(pinned) ==> DragHandleVisible(allow, column, pinned)
    ensures allow && Enabled(column.enablePinning) ==> PinButtonVisible(allow, column)
    ensures allow && Enabled(column.enableResizing) ==> ResizeHandleVisible(allow, column)
    ensures allow && Enabled(column.enableSorting) && HasCaption(column) ==>
              CaptionClick(allow, column, headerId) == Some(headerId) && SortArrowVisible(allow, column)
  {
  }

  /** A CHECKBOX header, such as one built from a CHECKBOX schema entry with
      sorting on, never sorts on a click and draws no arrow, whatever the
      switches say; its drag handle, pin button and resize handle still
      follow their switches. */
  lemma CheckboxHeaderHasNoSortControls(allow: bool, column: ColumnDef, pinned: PinSide, headerId: string)
    requires column.meta.headerDataType == Some(Checkbox)
    ensures CaptionClick(allow, column, headerId).None? && !SortArrowVisible(allow, column)
    ensures allow && Enabled(column.enablePinning) ==> PinButtonVisible(allow, column)
    ensures allow && Enabled(column.enableResizing) ==> ResizeHandleVisible(allow, column)
  {
  }

  /** A column flag left undefined turns the control off, as `false` does. */
  lemma UndefinedFlagIsOff(allow: bool, column: ColumnDef, pinned: PinSide, headerId: string)
    requires column.enablePinning.None? && column.enableResizing.None?
    requires column.enableSorting.None? && column.meta.enableDragging.None?
    ensures !DragHandleVisible(allow, column, pinned) && !PinButtonVisible(allow, column)
    ensures !ResizeHandleVisible(allow, column) && CaptionClick(allow, column, headerId).None?
  {
  }

  /** The select column, as both checkbox factories build it, shows no drag
      handle, pin button, resize handle or sort arrow, and a click on it does
      nothing, whatever the table allows. */
  lemma SelectColumnHasNoControls(column: ColumnDef, allowDragging: bool, allowPinning: bool,
                                  allowResizing: bool, allowSorting: bool, pinned: PinSide)
    requires IsSelectColumn(column) && column.enablePinning.None?
    ensures !DragHandleVisible(allowDragging, column, pinned) && !PinButtonVisible(allowPinning, column)
    ensures !ResizeHandleVisible(allowResizing, column) && !SortArrowVisible(allowSorting, column)
    ensures CaptionClick(allowSorting, column, column.id).None?
  {
  }

  /** Pinning a column hides its drag handle: a pinned column cannot be
      dragged out of the pinned group. */
  lemma PinnedColumnsCannotBeDragged(allow: bool, column: ColumnDef, side: PinSide)
    requires IsPinned(side)
    ensures !DragHandleVisible(allow, column, side)
  {
  }

  // ---------------------------------------------------------------------------
  // Reporting and drawing the sort state
  // ---------------------------------------------------------------------------

  /** `aria-sort`: read from the order alone, never from which column is
      sorted, so every header of a table sorted ascending reports
      "ascending". */
  function AriaSort(sort: SortState, headerId: string): (aria: string)
    ensures aria == "ascending" <==> sort.order == Asc
    ensures aria == "descending" <==> sort.order == Desc
    ensures aria == "none" <==> sort.order == Unset
  {
    match sort.order
    case Asc => "ascending"
    case Desc => "descending"
    case Unset => "none"
  }

  /** Two headers under the same sort state report the same `aria-sort`, even
      when only one of them is the sorted column. */
  lemma AriaSortIgnoresColumn(sort: SortState, a: string, b: string)
    ensures AriaSort(sort, a) == AriaSort(sort, b)
  {
  }

  /** With sorting switched off, the table hands every header
      `{ columnId: "none", order: "asc" }`, so every header reports
      "ascending". */
  lemma SortingOffReportsAscending(allowColumnSorting: Option<bool>, callerSort: SortState, headerId: string)
    requires !Enabled(allowColumnSorting)
    ensures AriaSort(DataTable.HeaderSortProps(allowColumnSorting, callerSort).0, headerId) == "ascending"
  {
  }

  /** The sort arrow's look: highlighted on the sorted column, and turned
      upside down when that column is also sorted ascending. */
  datatype Arrow = Arrow(highlighted: bool, rotated: bool)

  function SortArrow(sort: SortState, headerId: string): (arrow: Arrow)
    ensures arrow.highlighted <==> sort.columnId == Some(headerId)
    ensures arrow.rotated <==> sort.columnId == Some(headerId) && sort.order == Asc
    ensures arrow.rotated ==> arrow.highlighted
  {
    var sorted := sort.columnId == Some(headerId);
    Arrow(sorted, sorted && sort.order == Asc)
  }

  /** On the page, clicking a sortable header highlights its arrow and flips
      its rotation at every click on the same header, and dims every other
      header's arrow. */
  lemma PageClickDrawsArrow(allowColumnSorting: bool, column: ColumnDef, headerId: string,
                            prev: SortState, other: string)
    requires CaptionClick(allowColumnSorting, column, headerId).Some?
    requires other != headerId
    ensures var next := Page.NextSort(prev, CaptionClick(allowColumnSorting, column, headerId).value);
            && SortArrow(next, headerId).highlighted
            && !SortArrow(next, other).highlighted
            && (prev.columnId == Some(headerId) ==>
                  SortArrow(next, headerId).rotated == !SortArrow(prev, headerId).rotated)
  {
  }
}
