/** Shared vocabulary of the data grid: the enums and records declared in
    components/data-table/types-and-interfaces.ts, the column definition shape
    the grid consumes, rows and their cell values, and CSS style objects. */
module Common {

  datatype Option<T> = None | Some(value: T)

  datatype Result<T, E> = Ok(value: T) | Err(error: E)

  /** The `DataType` enum of the grid. */
  datatype DataType =
    | Currency | Number | Ratio | Svg | String | Checkbox
    | Percent | Date | DateTime | Boolean | Custom

  /** `Order = "asc" | "desc" | undefined`. */
  datatype Order = Asc | Desc | Unset

  /** The sort state both pages keep: `{ columnId: string | undefined; order: Order }`. */
  datatype SortState = SortState(columnId: Option<string>, order: Order)

  datatype Alignment = AlignLeft | AlignCenter | AlignRight

  datatype Justify = Start | Center | End

  /** A JavaScript truthiness test on an optional boolean flag
      (`undefined` and `false` are both falsy). */
  predicate Enabled(flag: Option<bool>)
  {
    flag == Some(true)
  }

  /** A cell value as the grid sees it: a JavaScript number, a string, or
      anything else (undefined, booleans, objects). */
  datatype CellValue = NumberValue(n: real) | StringValue(s: string) | OtherValue

  /** JavaScript's safe integers, `Number.MIN_SAFE_INTEGER` to
      `Number.MAX_SAFE_INTEGER`: every one is exactly representable, and
      `String` prints it as plain decimal digits (exponent form starts at
      10^21). */
  type SafeInteger = n: int | -0x1F_FFFF_FFFF_FFFF <= n <= 0x1F_FFFF_FFFF_FFFF

  /** A row's declared identity: `id: string | number`, a number being a
      safe integer here. */
  datatype RowKey = TextKey(text: string) | NumberKey(number: SafeInteger)

  /** A row: its identity and the mapping from column id to cell value. */
  datatype Row = Row(id: RowKey, cells: map<string, CellValue>)

  /** `row[columnId]`: a missing key reads as undefined. */
  function ValueAt(row: Row, columnId: string): CellValue
  {
    if columnId in row.cells then row.cells[columnId] else OtherValue
  }

  /** A JavaScript number as the column sizes can produce it: a finite value, or
      what a division by zero gives. */
  datatype JsNumber = Finite(r: real) | PositiveInfinity | NegativeInfinity | NaN

  /** What a header renders. */
  datatype HeaderContent =
    | LabelHeader(caption: string)    // a fixed label
    | NameHeader(name: ColumnName)    // the configured name, whatever its type
    | SelectAllHeader                 // the select-all checkbox

  /** What a body cell renders through the column's own renderer. */
  datatype CellContent = ValueCell | RowCheckboxCell

  /** What a footer renders. */
  datatype FooterContent =
    | NoFooter
    | TextFooter(text: string)
    | LabelFooter(sum: string, avg: string)
    | CallerFooter                    // a footer element supplied by the caller
    | SelectionAggregateFooter(dataType: DataType)

  /** The `name` of a column configuration: declared `unknown`. */
  datatype ColumnName = NameText(text: string) | NameOther

  /** `CustomColumnMeta`. */
  datatype ColumnMeta = ColumnMeta(
    alignment: Option<Alignment>,
    justify: Option<Justify>,
    justifyHeader: Option<Justify>,
    cellDataType: Option<DataType>,
    headerDataType: Option<DataType>,
    footerDataType: Option<DataType>,
    enableDragging: Option<bool>,
    name: Option<string>)

  /** The part of a TanStack column definition that the grid reads. `accessor`
      is the row key the cell value is read from, when there is one. */
  datatype ColumnDef = ColumnDef(
    id: string,
    accessor: Option<string>,
    header: HeaderContent,
    cell: CellContent,
    footer: FooterContent,
    size: Option<JsNumber>,
    minSize: Option<real>,
    maxSize: Option<real>,
    enableSorting: Option<bool>,
    enableResizing: Option<bool>,
    enablePinning: Option<bool>,
    meta: ColumnMeta)

  /** `ColumnConfig`: `{ id: string | number; name: unknown }`. */
  datatype ColumnConfig = ColumnConfig(id: RowKey, name: ColumnName)

  /** TanStack's `ColumnPinningState`: `{ left?: string[]; right?: string[] }`. */
  datatype PinningState = PinningState(left: Option<seq<string>>, right: Option<seq<string>>)

  /** The structural row-selection column both checkbox factories prepend:
      id "select", fixed at 60 px, not resizable, sortable or draggable, and
      rendered as checkboxes. */
  predicate IsSelectColumn(c: ColumnDef)
  {
    && c.id == "select"
    && c.size == Some(Finite(60.0)) && c.minSize == Some(60.0) && c.maxSize == Some(60.0)
    && c.enableResizing == Some(false) && c.enableSorting == Some(false)
    && c.meta.enableDragging == Some(false)
    && c.meta.cellDataType == Some(Checkbox) && c.meta.headerDataType == Some(Checkbox)
    && c.meta.footerDataType == Some(Checkbox)
    && c.header == SelectAllHeader && c.cell == RowCheckboxCell
  }

  /** `column.getIsPinned()`: "left", "right" or false. */
  datatype PinSide = PinnedLeft | PinnedRight | NotPinned

  predicate IsPinned(side: PinSide)
  {
    side != NotPinned
  }

  /** The answers a column gives to the table library's queries, taken as
      inputs: where it is pinned, whether it is the last left-pinned column,
      its left offset and its current size. */
  datatype ColumnView = ColumnView(pinned: PinSide, isLastLeft: bool, start: real, size: real)

  /** A dnd-kit transform, as rendered by `CSS.Translate.toString`. */
  datatype Translation = Translation(dx: real, dy: real)

  /** The CSS properties the grid sets inline. */
  datatype CssProperty =
    | BoxShadow | Left | Opacity | Position | Width | ZIndex | Transform
    | Transition | WhiteSpace | MinWidth | MaxWidth | FlexShrink | TextAlign | JustifyContent

  /** A CSS value; `Undefined` is a key present with the value undefined. */
  datatype CssValue =
    | Undefined
    | Amount(n: real)
    | Keyword(word: string)
    | Pixels(px: real)
    | Translate(t: Translation)

  /** An inline style object. Object spread `{...a, ...b}` is the right-biased
      union `a + b`: every key of `b`, even one holding undefined, overrides `a`. */
  type Style = map<CssProperty, CssValue>

  const SHADOW: string := "2px 0px 1px 0px rgba(0, 0, 0, 0.2)"
}
