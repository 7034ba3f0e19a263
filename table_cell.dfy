/** `DragAlongCell` (components/data-table/drag-along-cell.tsx): a body
    cell's inline style, what it renders, and what its click reports. */
module TableCell {
  import opened Common
  import ColumnUtils
  import DataTable
  import TableHeader

  // ---------------------------------------------------------------------------
  // Inline style
  // ---------------------------------------------------------------------------

  /** `size || "auto"`: an undefined size and a size of 0 are both falsy. */
  function SizeOrAuto(size: Option<real>): (v: CssValue)
    ensures v == Keyword("auto") <==> size.None? || size.value == 0.0
    ensures v != Keyword("auto") ==> v == Amount(size.value)
  {
    if size.Some? && size.value != 0.0 then Amount(size.value) else Keyword("auto")
  }

  function AlignmentKeyword(a: Alignment): string
  {
    match a
    case AlignLeft => "left"
    case AlignCenter => "center"
    case AlignRight => "right"
  }

  function JustifyKeyword(j: Justify): string
  {
    match j
    case Start => "start"
    case Center => "center"
    case End => "end"
  }

  /** The cell's own keys before the pinning styles are spread in. */
  function CellBaseStyle(isDragging: bool, transform: Option<Translation>): (style: Style)
    ensures style.Keys == {Opacity, Position, Transform, Transition}
    ensures style[Transform] == TableHeader.DragTransform(isDragging, transform)
  {
    map[
      Opacity := Amount(if isDragging then 0.8 else 1.0),
      Position := Keyword("relative"),
      Transform := TableHeader.DragTransform(isDragging, transform),
      Transition := Keyword("width transform 0.2s ease-in-out")]
  }

  /** The keys written after the pinning styles. */
  function CellOverrides(column: ColumnDef, view: ColumnView, isDragging: bool): (style: Style)
    ensures style.Keys == {ZIndex, Width, MinWidth, MaxWidth, FlexShrink, TextAlign, JustifyContent}
    ensures style[ZIndex] == Amount(if IsPinned(view.pinned) then 5.0 else if isDragging then 4.0 else 1.0)
    ensures style[MinWidth] == SizeOrAuto(column.minSize) && style[MaxWidth] == SizeOrAuto(column.maxSize)
    ensures style[TextAlign] == Keyword("left") <==> column.meta.alignment in {None, Some(AlignLeft)}
    ensures style[JustifyContent] == Keyword("start") <==> column.meta.justify in {None, Some(Start)}
  {
    map[
      ZIndex := Amount(if IsPinned(view.pinned) then 5.0 else if isDragging then 4.0 else 1.0),
      Width := Amount(view.size),
      MinWidth := SizeOrAuto(column.minSize),
      MaxWidth := SizeOrAuto(column.maxSize),
      FlexShrink := Amount(0.0),
      TextAlign := Keyword(if column.meta.alignment.Some? then AlignmentKeyword(column.meta.alignment.value) else "left"),
      JustifyContent := Keyword(if column.meta.justify.Some? then JustifyKeyword(column.meta.justify.value) else "start")]
  }

  /** `{ ...base, ...getCommonPinningStyles(column), zIndex, width, minWidth,
      maxWidth, flexShrink, textAlign, justifyContent }`. */
  function CellStyle(column: ColumnDef, view: ColumnView, isDragging: bool, transform: Option<Translation>): Style
  {
    CellBaseStyle(isDragging, transform) + ColumnUtils.PinningStyles(view) + CellOverrides(column, view, isDragging)
  }

  /** The "relative" position and the dragging opacity are both overridden by
      the pinning styles, so a cell is sticky exactly when pinned and never
      faded; its stacking order is 5 when pinned, 4 while dragged, else 1. */
  lemma CellStacking(column: ColumnDef, view: ColumnView, isDragging: bool, transform: Option<Translation>)
    ensures var style := CellStyle(column, view, isDragging, transform);
            && ZIndex in style && Position in style && Opacity in style
            && style[ZIndex] == Amount(if IsPinned(view.pinned) then 5.0 else if isDragging then 4.0 else 1.0)
            && style[Position] == Keyword(if IsPinned(view.pinned) then "sticky" else "relative")
            && style[Opacity] == Amount(1.0)
  {
    var overrides := CellOverrides(column, view, isDragging);
    assert Position !in overrides && Opacity !in overrides;
  }

  /** The drag transform is applied only while the column is dragged. */
  lemma CellTransform(column: ColumnDef, view: ColumnView, isDragging: bool, transform: Option<Translation>)
    ensures var style := CellStyle(column, view, isDragging, transform);
            && Transform in style
            && (style[Transform] != Undefined ==> isDragging)
            && (isDragging && transform.Some? ==> style[Transform] == Translate(transform.value))
  {
    var overrides := CellOverrides(column, view, isDragging);
    assert Transform !in overrides && Transform !in ColumnUtils.PinningStyles(view);
  }

  /** Alignment falls back to "left" and "start", and a falsy minimum or
      maximum size to "auto". */
  lemma CellStyleDefaults(column: ColumnDef, view: ColumnView, isDragging: bool, transform: Option<Translation>)
    ensures var style := CellStyle(column, view, isDragging, transform);
            && TextAlign in style && JustifyContent in style && MinWidth in style && MaxWidth in style
            && (style[TextAlign] == Keyword("left") <==> column.meta.alignment in {None, Some(AlignLeft)})
            && (style[JustifyContent] == Keyword("start") <==> column.meta.justify in {None, Some(Start)})
            && style[MinWidth] == SizeOrAuto(column.minSize) && style[MaxWidth] == SizeOrAuto(column.maxSize)
  {
  }

  /** A cell always sits below its column's header: 5, 4 and 1 against the
      header's 7, 6 and 1 in the same situation (equal only when neither is
      pinned or dragged). */
  lemma CellBelowHeader(column: ColumnDef, view: ColumnView, isDragging: bool, transform: Option<Translation>)
    ensures var cell := CellStyle(column, view, isDragging, transform);
            var header := TableHeader.HeaderStyle(view, isDragging, transform);
            && ZIndex in cell && ZIndex in header && cell[ZIndex].Amount? && header[ZIndex].Amount?
            && cell[ZIndex].n <= header[ZIndex].n
            && (cell[ZIndex].n == header[ZIndex].n <==> !IsPinned(view.pinned) && !isDragging)
  {
    CellStacking(column, view, isDragging, transform);
    TableHeader.HeaderStacking(view, isDragging, transform);
  }

  /** The cell and its header agree on position and opacity, whatever the
      drag state. */
  lemma CellFollowsHeader(column: ColumnDef, view: ColumnView, isDragging: bool, transform: Option<Translation>)
    ensures var cell := CellStyle(column, view, isDragging, transform);
            var header := TableHeader.HeaderStyle(view, isDragging, transform);
            && Position in cell && Opacity in cell && Position in header && Opacity in header
            && cell[Position] == header[Position] && cell[Opacity] == header[Opacity]
  {
    CellStacking(column, view, isDragging, transform);
    TableHeader.HeaderStacking(view, isDragging, transform);
  }

  // ---------------------------------------------------------------------------
  // What the cell renders
  // ---------------------------------------------------------------------------

  /** The formatter a cell may receive: `(value, dataType) => string`. */
  type Formatter = (CellValue, Option<DataType>) -> string

  /** What a cell shows: the column's own renderer, the formatted text (with a
      tooltip when the text overflows), or the raw value. */
  datatype Rendered =
    | ColumnRenderer
    | FormattedText(text: string, tooltip: bool)
    | RawValue(value: CellValue)

  /** The render dispatch. `overflowing` is the measured ellipsis state. */
  function RenderCell(cellDataType: Option<DataType>, value: CellValue, formatter: Option<Formatter>,
                      overflowing: bool): (r: Rendered)
    ensures r.ColumnRenderer? <==> cellDataType in {Some(Checkbox), Some(Custom)}
    ensures r.FormattedText? <==> cellDataType !in {Some(Checkbox), Some(Custom)} && formatter.Some?
    ensures r.FormattedText? ==> r.text == formatter.value(value, cellDataType) && r.tooltip == overflowing
    ensures r.RawValue? ==> r.value == value
  {
    if cellDataType == Some(Checkbox) || cellDataType == Some(Custom) then ColumnRenderer
    else if formatter.Some? then FormattedText(formatter.value(value, cellDataType), overflowing)
    else RawValue(value)
  }

  /** `formatterFunction = campaignMetricsFormatter`: the table's default
      applies only when the caller passes none. */
  function TableFormatter(callerFormatter: Option<Formatter>, defaultFormatter: Formatter): (f: Formatter)
    ensures callerFormatter.Some? ==> f == callerFormatter.value
    ensures callerFormatter.None? ==> f == defaultFormatter
  {
    if callerFormatter.Some? then callerFormatter.value else defaultFormatter
  }

  /** Inside the table a cell always has a formatter, so it never shows a
      raw value: a cell that is neither a checkbox nor custom shows
      formatted text. */
  lemma TableCellsAreFormatted(cellDataType: Option<DataType>, value: CellValue,
                               callerFormatter: Option<Formatter>, defaultFormatter: Formatter, overflowing: bool)
    ensures var r := RenderCell(cellDataType, value, Some(TableFormatter(callerFormatter, defaultFormatter)), overflowing);
            !r.RawValue? && (cellDataType !in {Some(Checkbox), Some(Custom)} ==> r.FormattedText?)
  {
  }

  /** The select column's cells are drawn by its own checkbox renderer, never
      by a formatter. */
  lemma SelectCellsAreCheckboxes(column: ColumnDef, value: CellValue, formatter: Option<Formatter>, overflowing: bool)
    requires IsSelectColumn(column)
    ensures RenderCell(column.meta.cellDataType, value, formatter, overflowing) == ColumnRenderer
  {
  }

  /** `meta?.name || ""`: the name a click reports. */
  function ClickedName(column: ColumnDef): (name: string)
    ensures column.meta.name.Some? ==> name == column.meta.name.value
    ensures column.meta.name.None? ==> name == ""
  {
    if column.meta.name.Some? then column.meta.name.value else ""
  }
}
