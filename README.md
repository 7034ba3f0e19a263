# Data grid state and layout rules, in Dafny

This project models the logic layer of a React data grid built on TanStack
Table and dnd-kit: the rules that decide how columns are named, sized,
ordered, pinned and styled, how rows are sorted and selected, and what the
footers add up. It leaves out the markup. Each core source file has its own module:

| module | file | models |
|---|---|---|
| `Common` | `components/data-table/types-and-interfaces.ts` | `Order`, `DataType`, rows and cell values, column definitions and metadata, CSS style objects (`Style`, a map from property to value) and JavaScript numbers (`JsNumber`: finite, ±Infinity, NaN) |
| `ColumnUtils` | `components/data-table/utils.tsx` | `createColumn`/`createColumns` with id normalisation, `getCommonPinningStyles`, `handlePinToggle`, `columnsWithCheckbox`, `getJustifyForDataType` |
| `DataTable` | `components/data-table/data-table.tsx` | the `ColumnOrder` class and its `handleDragEnd` transition (`indexOf` + dnd-kit `arrayMove`), which column order wins, checkbox-column assembly, `getRowId = String(row.id)` and selection by id, the footer gate, the sort props handed to headers |
| `Page` | `app/page.tsx` | the `SortedTable` class (`sort` and `sortedData` state) with `handleSortChange`, `sortData` and its typed comparator |
| `ArraySort` | (ECMA-262 `Array.prototype.sort`) | a stable insertion sort, proved to be a sorted, stable permutation and to be the only one |
| `Demo` | `components/data-table/demo.tsx` | the demo's three-state `handleSortChange` (class `SortHolder`), the `average_sales_value` footer, `createCheckboxColumn` |
| `Aggregation` | footers in `demo.tsx` and `app/table-utils.tsx` | sum and `sum / (count \|\| 1)` over real numbers |
| `TableUtils` | `app/table-utils.tsx` | `createColumnDefs`: width allocation with JavaScript division and `Math.max`, per-column defaults, the numeric footer over JavaScript numbers |
| `TableHeader` | `components/data-table/draggable-table-header.tsx` | the header style object, control gating, caption click, `aria-sort`, the sort arrow |
| `TableCell` | `components/data-table/drag-along-cell.tsx` | the cell style object, render dispatch, the click's reported name |

Object spread `{ ...a, ...b }` is right-biased map union `a + b`. The
override facts follow from that: a pinned cell is sticky, and a dragged
column is never faded.

Code that updates state through React setters is a `class` with `modifies`
clauses:
- `DataTable.ColumnOrder`;
- `Page.SortedTable`;
- `Demo.SortHolder`.

Everything else in the core is expressions and is modelled as functions.

## Behaviour worth noting

- **Dynamic widths are not clamped.** With a 1000 px window and two fixed 80 px columns out of three, the dynamic width is `(1000 − 174 − 160) / 1 = 666`, above the column's max size of 400 (`TableUtils.SizeCanExceedMaxSize`).
- **Sort cycle on `app/page.tsx`.** The page coerces `undefined` back to `"asc"`, so one column only alternates between ascending and descending (`Page.NextSortTwoCycle`). Only the demo cycles through three states.
- **Checkbox headers do not sort.** A header whose data type is CHECKBOX renders without the caption, so it has no sort click and no arrow even with sorting on (`TableHeader.CheckboxHeaderHasNoSortControls`).
- **Pin toggle.** Unpinning a column closes its gap and keeps the others in order; re-pinning it puts it at the end of the left list, not back where it was. The toggle also discards any right-pinned list (`ColumnUtils.PinToggleTwice`, `ColumnUtils.PinToggleDropsRightPinned`).

## Model

| member | source | states |
|---|---|---|
| ColumnUtils.LeadingWhitespace | components/data-table/utils.tsx:32 | the length of the maximal whitespace run at the start of a string: everything before it is whitespace and the next character is not |
| ColumnUtils.ToLowerCase | components/data-table/utils.tsx:32 | lowercasing keeps the length, maps each character independently and leaves no uppercase letter |
| ColumnUtils.NormaliseId | components/data-table/utils.tsx:30-32 | a normalised id contains no whitespace and no uppercase letter; a name that is not a string gives `""` |
| ColumnUtils.ReplaceRemovesWhitespace | components/data-table/utils.tsx:32 | `replace(/\s+/g, "_")` leaves no whitespace in the string |
| ColumnUtils.ReplaceWithoutWhitespace | components/data-table/utils.tsx:32 | a string without whitespace is left unchanged by the replacement |
| ColumnUtils.ReplaceSplit | components/data-table/utils.tsx:32 | the replacement distributes over concatenation when the left part does not end in whitespace |
| ColumnUtils.ReplaceRun | components/data-table/utils.tsx:32 | a leading whitespace run, whatever its length, becomes one `_` |
| ColumnUtils.WhitespaceRunBecomesUnderscore | components/data-table/utils.tsx:32 | every maximal whitespace run inside a string becomes exactly one `_`, and the text on both sides is replaced independently |
| ColumnUtils.LowerWithoutUpper | components/data-table/utils.tsx:32 | lowercasing a string without uppercase letters changes nothing |
| ColumnUtils.NormaliseIdIdempotent | components/data-table/utils.tsx:30-32 | normalising a normalised id gives it back |
| ColumnUtils.CreateColumn | components/data-table/utils.tsx:27-53 | the id is the normalised name and also the accessor key; min 50, size 200, max 400; sorting, resizing, pinning and dragging on; header is the name, footer "0", every data type STRING |
| ColumnUtils.CreateColumns | components/data-table/utils.tsx:61-63 | one definition per config, in the same order, the i-th built from the i-th config |
| ColumnUtils.CreatedIdsAreNormal | components/data-table/utils.tsx:30-36 | creating a column from an id that `createColumns` produced gives the same id |
| ColumnUtils.PinningStyles | components/data-table/utils.tsx:138-155 | exactly six keys; sticky iff pinned, else relative; zIndex 500 iff pinned, else 0; `left` is the column's left start in pixels when pinned left and undefined otherwise; the shadow string only on the last left-pinned column; opacity 1; width is the column size |
| ColumnUtils.RemoveAll | components/data-table/utils.tsx:175 | `filter(id => id !== columnId)` removes every occurrence and keeps every other id with its multiplicity |
| ColumnUtils.HandlePinToggle | components/data-table/utils.tsx:164-183 | the new state has only a left list; a pinned id is removed from it, an unpinned one is appended at the end |
| ColumnUtils.PinToggleFlipsMembership | components/data-table/utils.tsx:173-179 | the toggled id changes membership and every other id keeps it |
| ColumnUtils.PinToggleTwice | components/data-table/utils.tsx:173-182 | toggling twice restores membership; an unpinned id leaves the list as it was, a pinned one comes back at the end |
| ColumnUtils.RemoveAllAppend | components/data-table/utils.tsx:175 | `filter` keeps order: it distributes over concatenation, drops the id itself and keeps any other single id |
| ColumnUtils.UnpinClosesGap | components/data-table/utils.tsx:173-175 | unpinning a column that sits once between `before` and `after` leaves exactly `before ++ after` |
| ColumnUtils.RemoveLastAppended | components/data-table/utils.tsx:175-178 | removing an id that was just appended to a list without it restores the list |
| ColumnUtils.PinToggleDropsRightPinned | components/data-table/utils.tsx:182 | a non-empty right-pinned list is lost by any toggle |
| ColumnUtils.ColumnsWithCheckbox | components/data-table/utils.tsx:195-280 | `[select] ++ columns`: one more column, the rest unchanged; the select column is 60 wide at size, min and max, has resizing, sorting and dragging off, checkbox data types, no accessor and no pinning flag, and its footer is the caller's or "SUM"/"AVG" |
| ColumnUtils.JustifyForDataType | components/data-table/utils.tsx:313-329 | NUMBER and CURRENCY give end, DATE, RATIO and PERCENT give center, every other type gives start |
| DataTable.IndexOf | components/data-table/data-table.tsx:286-287 | -1 iff the id is absent, otherwise the index of its first occurrence |
| DataTable.ArrayMove | components/data-table/data-table.tsx:288 | the length is kept and the moved element lands at the target index |
| DataTable.ArrayMovePermutes | components/data-table/data-table.tsx:288 | the move is a permutation |
| DataTable.ArrayMoveShape | components/data-table/data-table.tsx:288 | elements outside the range stay put; those between shift by one towards the vacated index |
| DataTable.ArrayMoveInverse | components/data-table/data-table.tsx:288 | moving back from the target to the source restores the order |
| DataTable.ColumnIds | components/data-table/data-table.tsx:229-231 | the initial internal order is the column ids in definition order |
| DataTable.ResolveColumnOrder | components/data-table/data-table.tsx:232-233 | a supplied external order always wins; the internal order is used only when none is supplied |
| DataTable.EmptyExternalOrderWins | components/data-table/data-table.tsx:232-233 | an empty external order is truthy and is the order handed to the table |
| DataTable.ColumnOrder.constructor | components/data-table/data-table.tsx:229-231 | the state starts as the column ids |
| DataTable.ColumnOrder.HandleDragEnd | components/data-table/data-table.tsx:281-292 | no change without a target or when dropped on itself; otherwise `arrayMove(prev, indexOf(active), indexOf(over))`, the dragged id at the target's old index, and the same ids as before |
| DataTable.AssembleColumns | components/data-table/data-table.tsx:251-254 | the checkbox factory applies iff row selection is on and a factory is given; otherwise the columns are used unchanged |
| DataTable.SelectionColumnPrepended | components/data-table/data-table.tsx:251-254 | with selection on and the library factory, the select column is prepended and the given columns follow unchanged |
| DataTable.NatToString | components/data-table/data-table.tsx:277 | the digits `String(n)` prints for a safe natural number: non-empty, all digits, no leading zero |
| DataTable.ParseNatToString | components/data-table/data-table.tsx:277 | reading the digits back gives the number |
| DataTable.IntToStringSign | components/data-table/data-table.tsx:277 | a negative number's string starts with "-" followed by the digits of its magnitude, and only a negative number's string does |
| DataTable.NatToStringInjective | components/data-table/data-table.tsx:277 | two natural numbers with the same string are equal |
| DataTable.IntToStringInjective | components/data-table/data-table.tsx:277 | two integers with the same string are equal |
| DataTable.SameRowIdIff | components/data-table/data-table.tsx:277 | two rows share an id iff their keys are equal or one is a number whose string is the other |
| DataTable.SelectedRows | components/data-table/data-table.tsx:277 | each row occurs among the selected rows as often as among all rows when its id is selected, and otherwise not at all |
| DataTable.SelectionFollowsRows | components/data-table/data-table.tsx:277 | reordering the rows selects the same rows |
| DataTable.FooterNeedsTwoRows | components/data-table/data-table.tsx:470-472 | the footer never shows with fewer than two selected rows, and selecting more rows keeps it shown |
| DataTable.HeaderSortProps | components/data-table/data-table.tsx:362-371 | with sorting on, the caller's state and handler; otherwise `{ columnId: "none", order: "asc" }` and a no-op |
| Page.NextSort | app/page.tsx:49-69 | the clicked column becomes the sorted one and the order is never undefined; another column starts at asc; on the same column the order is asc iff it was not asc |
| Page.NextSortTwoCycle | app/page.tsx:52-63 | on one column two clicks return to the same state: asc and desc alternate and "none" is never reached |
| Page.SortData | app/page.tsx:71-96 | without a column or an order the rows come back unchanged |
| Page.SortDataPermutes | app/page.tsx:78-95 | the result holds the same rows as the input |
| Page.NumericComparatorConsistent | app/page.tsx:82-84 | on a column of numbers the comparator is a consistent comparator, in both orders |
| Page.StringComparatorConsistent | app/page.tsx:86-90 | on a column of strings the comparator is consistent whenever `localeCompare` is |
| Page.SameRowsSameColumn | app/page.tsx:78 | a permutation of the rows keeps the column all-numeric or all-string |
| Page.SortedNumbers | app/page.tsx:82-84 | sorted by the comparator means the numbers ascend for "asc" and descend for "desc" |
| Page.SortedStrings | app/page.tsx:86-90 | sorted by the comparator means each pair is in `localeCompare` order, reversed for "desc" |
| Page.SortNumericColumn | app/page.tsx:78-95 | sorting a number column gives a permutation whose numbers are ordered by the click's order, and ties keep their input order |
| Page.SortStringColumn | app/page.tsx:78-95 | sorting a string column gives a permutation in collation order, reversed for "desc", and ties keep their input order |
| Page.MixedColumnInconsistent | app/page.tsx:82-92 | a column mixing numbers and strings can make the "compare as equal" fallback inconsistent (witness: two different numbers and a string), so the sort order is then not defined by the comparator alone |
| Page.SortKeepsFooter | app/page.tsx:64-65 | re-sorting the rows never changes a footer's sum or average over the selection |
| Page.SortedTable.constructor | app/page.tsx:31-48 | unsorted, ascending, and the rows as given |
| Page.SortedTable.HandleSortChange | app/page.tsx:49-69 | the sort becomes the next state and the current rows are re-sorted by it; no row is lost or added |
| ArraySort.SortPermutes | app/page.tsx:78-93 | the sort returns a permutation of its input |
| ArraySort.SortSorted | app/page.tsx:78-93 | under a consistent comparator the result is sorted |
| ArraySort.SortStable | app/page.tsx:78-93 | the elements that compare equal to any given one keep their input order |
| ArraySort.SortCorrect | app/page.tsx:78-93 | a sorted, stable permutation |
| ArraySort.StableSortIsUnique | app/page.tsx:78-93 | any sorted, stable permutation equals this sort's result, so the algorithm chosen does not matter |
| Demo.NextSort | components/data-table/demo.tsx:42-55 | the clicked column becomes the sorted one; another column starts at asc; on the same column asc goes to desc, desc to undefined and undefined to asc |
| Demo.NextSortThreeCycle | components/data-table/demo.tsx:44-51 | on one column asc, desc and undefined are three distinct states and the third click returns to the start |
| Demo.PageCoercesUnset | app/page.tsx:52-63 | the page's handler is the demo's with undefined replaced by asc |
| Demo.SortHolder.constructor | components/data-table/demo.tsx:34-40 | the sort starts with no column, ascending |
| Demo.SortHolder.HandleSortChange | components/data-table/demo.tsx:42-55 | the sort becomes the demo's next state |
| Demo.SalesFooter | components/data-table/demo.tsx:313-319 | an empty selection gives (0, 0); otherwise the average times the count is the sum |
| Demo.SalesFooterExample | components/data-table/demo.tsx:313-319 | 40 and 20 give sum 60 and average 30 |
| Demo.NonNumberCountsAsZero | components/data-table/demo.tsx:314-317 | a row without a number adds nothing to the sum but still counts in the average's divisor |
| Demo.CreateCheckboxColumn | components/data-table/demo.tsx:352-426 | `[select] ++ columns`: the select column is 60 wide at size, min and max, has resizing, sorting and dragging off, reads the row's `select` key and has the "SUM"/"AVG" footer |
| Demo.SameSelectColumnAsLibrary | components/data-table/demo.tsx:352-426 | the demo's factory equals the library's except for the accessor |
| Aggregation.Average | components/data-table/demo.tsx:319 | 0 for no values; otherwise the average times the count is the sum |
| Aggregation.SumAppend | components/data-table/demo.tsx:318 | the sum of a concatenation is the sum of the sums |
| Aggregation.SumPermutation | components/data-table/demo.tsx:318 | the sum does not depend on the order of the values |
| Aggregation.SumBounds | components/data-table/demo.tsx:318 | values between two bounds sum to between count times each bound |
| Aggregation.AverageWithinBounds | components/data-table/demo.tsx:318-319 | the average of non-empty values lies between their bounds |
| Aggregation.ColumnNumbers | components/data-table/demo.tsx:313-317 | one value per selected row: its number, or 0 when it is not a number |
| Aggregation.ColumnNumbersAppend | components/data-table/demo.tsx:314-317 | the values of concatenated rows are the concatenated values |
| Aggregation.ColumnNumbersPermutation | components/data-table/demo.tsx:314-317 | permuting the rows permutes the values |
| Aggregation.Aggregate | components/data-table/demo.tsx:318-319 | the pair is (sum, average), and (0, 0) for no values |
| Aggregation.AggregatePermutation | components/data-table/demo.tsx:318-319 | sum and average do not depend on the order of the values |
| TableUtils.AvailableWidth | app/table-utils.tsx:37-42 | 1000 without a window; otherwise the inner width less 174 and the fixed columns' widths |
| TableUtils.Divide | app/table-utils.tsx:44-45 | a finite quotient for a non-zero divisor; dividing by zero gives an infinity of the dividend's sign, or NaN for 0 / 0 |
| TableUtils.AtLeast200 | app/table-utils.tsx:63 | `Math.max(x, 200)`: NaN stays NaN, infinity stays infinity, minus infinity gives 200, and any finite result is at least 200 and either 200 or x |
| TableUtils.Find | app/table-utils.tsx:48 | none iff no entry has the key; otherwise the first entry with it |
| TableUtils.AllKeysFound | app/table-utils.tsx:48 | every requested key is found in the schema |
| TableUtils.ColumnDefFor | app/table-utils.tsx:50-94 | id and accessor are the key; the entry's size or `max(dynamic, 200)`; min 100, max 400; sorting, resizing, pinning and dragging on; every data type the entry's; a footer iff NUMBER, PERCENT or CURRENCY |
| TableUtils.CreateColumnDefs | app/table-utils.tsx:30-98 | one definition per key in key order, each built from the first schema entry with that key and the shared dynamic width |
| TableUtils.ColumnOrderIsKeys | app/table-utils.tsx:47-61 | the definitions' ids are the keys, in order |
| TableUtils.DynamicSizeAtLeast200 | app/table-utils.tsx:63 | while some column is not fixed, a column without its own size is at least 200 wide |
| TableUtils.SizeCanExceedMaxSize | app/table-utils.tsx:63-65 | with a 1000 px window and two of three columns fixed at 80, the dynamic size is 666, above the max size 400 |
| TableUtils.AllFixedHeadless | app/table-utils.tsx:37-45 | without a window and with every column fixed, a column without its own size gets an infinite size |
| TableUtils.Add | app/table-utils.tsx:83 | finite numbers add; NaN absorbs |
| TableUtils.DivideBy | app/table-utils.tsx:84 | a finite sum is divided by the count; an infinity or NaN stays as it is |
| TableUtils.CoercedValues | app/table-utils.tsx:82 | one `Number(...)` value per selected row, in row order |
| TableUtils.NumericFooter | app/table-utils.tsx:80-84 | an empty selection gives sum 0 and average 0 |
| TableUtils.JsSumOfNumbers | app/table-utils.tsx:83 | over cells that hold numbers, the JavaScript sum is the real sum |
| TableUtils.NumbersAgreeWithDemoFooter | app/table-utils.tsx:81-84 | over cells that hold numbers, the schema footer and the demo footer compute the same sum and average |
| TableUtils.NaNAbsorbs | app/table-utils.tsx:83 | one NaN value makes the sum NaN |
| TableUtils.NaNSpreads | app/table-utils.tsx:82-84 | one selected cell that `Number` turns into NaN makes both the sum and the average NaN |
| TableHeader.HeaderBaseStyle | components/data-table/draggable-table-header.tsx:64-70 | six keys; a transform only while dragging; opacity 0.8 while dragging |
| TableHeader.HeaderStacking | components/data-table/draggable-table-header.tsx:64-73 | zIndex 7 pinned, 6 dragged, 1 otherwise; opacity always 1; sticky iff pinned |
| TableHeader.HeaderPinningKeys | components/data-table/draggable-table-header.tsx:64-73 | the shadow and the left offset equal the pinning styles' values (set iff pinned left, resp. last left-pinned); width is the column size; a transform only while dragging |
| TableHeader.HeaderOverridesPinning | components/data-table/draggable-table-header.tsx:71-72 | the header's zIndex always replaces the pinning 500/0; the opacity differs from the base style's iff dragging; dragging never changes the position |
| TableHeader.CaptionClick | components/data-table/draggable-table-header.tsx:135-156 | the handler is called with the header id iff the header is not CHECKBOX (so it has a caption) and table sorting and the column's sorting are both on |
| TableHeader.ControlsNeedBothSwitches | components/data-table/draggable-table-header.tsx:120-215 | with the table switch off every control is off; with both switches on it is shown (the drag handle also needs the column unpinned, the sort click and arrow a non-CHECKBOX header) |
| TableHeader.CheckboxHeaderHasNoSortControls | components/data-table/draggable-table-header.tsx:135-136 | a CHECKBOX header has no sort click and no arrow whatever the switches, while its pin and resize controls still follow theirs |
| TableHeader.UndefinedFlagIsOff | components/data-table/draggable-table-header.tsx:120-215 | a column flag left undefined hides its control |
| TableHeader.SelectColumnHasNoControls | components/data-table/draggable-table-header.tsx:120-215 | the select column shows no drag handle, pin button, resize handle or sort arrow, and a click on it does nothing |
| TableHeader.PinnedColumnsCannotBeDragged | components/data-table/draggable-table-header.tsx:120 | a pinned column has no drag handle |
| TableHeader.AriaSort | components/data-table/draggable-table-header.tsx:110-116 | ascending iff asc, descending iff desc, none iff undefined |
| TableHeader.AriaSortIgnoresColumn | components/data-table/draggable-table-header.tsx:110-116 | every header reports the same `aria-sort`, sorted column or not |
| TableHeader.SortingOffReportsAscending | components/data-table/data-table.tsx:362-371 | with sorting off every header reports "ascending" |
| TableHeader.SortArrow | components/data-table/draggable-table-header.tsx:187-191 | highlighted iff this is the sorted column; rotated iff also ascending |
| TableHeader.PageClickDrawsArrow | components/data-table/draggable-table-header.tsx:152-191 | on the page, a click highlights the clicked header's arrow, dims every other header's, and flips the rotation on repeated clicks |
| TableCell.SizeOrAuto | components/data-table/drag-along-cell.tsx:59-60 | "auto" iff the size is undefined or 0, otherwise the size |
| TableCell.CellBaseStyle | components/data-table/drag-along-cell.tsx:51-55 | four keys; a transform only while dragging |
| TableCell.CellOverrides | components/data-table/drag-along-cell.tsx:57-63 | seven keys; zIndex 5 pinned, 4 dragged, 1 otherwise; min/max width or "auto"; text-align "left" iff unset or left; justify "start" iff unset or start |
| TableCell.CellStacking | components/data-table/drag-along-cell.tsx:51-64 | zIndex 5, 4 or 1; sticky iff pinned, otherwise relative; opacity always 1 |
| TableCell.CellTransform | components/data-table/drag-along-cell.tsx:54 | a transform only while dragging, and the drag translation when there is one |
| TableCell.CellStyleDefaults | components/data-table/drag-along-cell.tsx:59-63 | the alignment and min/max-width defaults survive the pinning spread |
| TableCell.CellBelowHeader | components/data-table/drag-along-cell.tsx:57 | a cell's zIndex never exceeds its header's, and equals it only when neither pinned nor dragged |
| TableCell.CellFollowsHeader | components/data-table/drag-along-cell.tsx:51-56 | a cell and its header always agree on position and opacity |
| TableCell.RenderCell | components/data-table/drag-along-cell.tsx:119-151 | the column's renderer iff CHECKBOX or CUSTOM; formatted text (tooltip iff overflowing) iff otherwise and a formatter is given; otherwise the raw value |
| TableCell.TableFormatter | components/data-table/data-table.tsx:211 | the caller's formatter when given, otherwise the default |
| TableCell.TableCellsAreFormatted | components/data-table/data-table.tsx:211 | inside the table a cell never shows a raw value |
| TableCell.SelectCellsAreCheckboxes | components/data-table/drag-along-cell.tsx:119-121 | the select column's cells use their own checkbox renderer |
| TableCell.ClickedName | components/data-table/drag-along-cell.tsx:114 | the click reports the column's name, or "" without one |

## Left out

- Markup, class names, colour presets and icons: presentation only.
- TanStack Table internals are inputs, not modelled:
  - `getIsPinned`, `getIsLastColumn`, `getStart` and `getSize` form the `ColumnView` record;
  - the selection model is a set of row ids;
  - column sizing and resizing, and the visible-leaf ordering, are not part of this model.
- dnd-kit sensors, collision detection, the `useSortable` transform and the gesture lifecycle: library code. The transform is an optional translation.
- DataTable.ColumnOrder.HandleDragEnd: requires both ids to be in the order. dnd-kit's `arrayMove` with an index of -1 is library behaviour that cannot be seen here.
- ColumnUtils.ToLowerCase: folds only A–Z. JavaScript's Unicode case mapping is not modelled.
- `campaignMetricsFormatter` and `simpleFormatter` are locale- and float-dependent string formatting. They are the function parameter `Formatter`, so the footers end at the numbers.
- Page.StringComparatorConsistent: `localeCompare` is the parameter `collate`. Its consistency is assumed as a requirement, not reimplemented.
- ArraySort.SortSorted: sortedness and stability are proved only for consistent comparators. Where a mixed-type column makes the comparator inconsistent, the result order is the insertion sort's; ECMA-262 leaves it implementation-defined there (`Page.MixedColumnInconsistent`).
- Floating-point rounding: numbers are reals. In `TableUtils`, JavaScript division by zero, `Math.max`, infinities and NaN are modelled explicitly.
- TableUtils.NumericFooter: JavaScript's `Number(...)` conversion is the parameter `toNumber`. The contract covers only the empty selection; the agreement and NaN lemmas beside it cover the rest.
- `window.innerWidth` is the parameter `innerWidth`, and "no window" is `None`.
- The application's column schema and employee data (`app/schema`) are not part of this model. The schema is a parameter.
- Row ids: `String(row.id)` is modelled for string ids and for numeric ids that are safe integers (at most 2^53 − 1 in magnitude), which `String` prints as plain digits. Non-integer and larger numeric ids, whose strings use decimals or exponent form, are not modelled.
- The ellipsis measurement (`useEffect` on the DOM) is the parameter `overflowing`.
- The header's caption rendering, tooltips and `formatterFunction` on header text are not modelled.
- `draggable-table-footer.tsx`: its stacking rule repeats the header's.
- `generateDummyData` uses randomness.
- App chrome (`layout.tsx`, `client-root.tsx`, `sidebar.tsx`, `info-panel.tsx`, `config.ts`, `hooks.ts`) is not part of this model.
