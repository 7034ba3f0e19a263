/** `createColumnDefs` (app/table-utils.tsx): column definitions built from a
    schema of keys, labels and data types, with widths shared out over the
    viewport and a sum/average footer on the numeric columns. */
module TableUtils {
  import opened Common
  import Aggregation
  import DataTable

  // ---------------------------------------------------------------------------
  // Width allocation
  // ---------------------------------------------------------------------------

  /** `availableWidth`: the window's inner width less 174 px and the fixed
      columns' widths, or exactly 1000 when there is no window. */
  function AvailableWidth(innerWidth: Option<real>, fixedColumns: int, fixedWidth: real): (w: real)
    ensures innerWidth.None? ==> w == 1000.0
    ensures innerWidth.Some? ==> w + 174.0 + (fixedColumns as real) * fixedWidth == innerWidth.value
  {
    match innerWidth
    case None => 1000.0
    case Some(inner) => inner - 174.0 - (fixedColumns as real) * fixedWidth
  }

  /** JavaScript's `a / d` for a whole divisor: a division by zero gives an
      infinity of the dividend's sign, or NaN for 0 / 0. */
  function Divide(a: real, d: int): (q: JsNumber)
    ensures d != 0 ==> q.Finite? && q.r * (d as real) == a
    ensures d == 0 ==> (q == PositiveInfinity <==> a > 0.0) && (q == NegativeInfinity <==> a < 0.0)
                       && (q == NaN <==> a == 0.0)
  {
    if d != 0 then Finite(a / (d as real))
    else if a > 0.0 then PositiveInfinity
    else if a < 0.0 then NegativeInfinity
    else NaN
  }

  /** `Math.max(x, 200)`: NaN stays NaN, and minus infinity gives 200. */
  function AtLeast200(x: JsNumber): (m: JsNumber)
    ensures x.NaN? <==> m.NaN?
    ensures m.Finite? ==> m.r >= 200.0 && (m.r == 200.0 || x == m)
    ensures x == PositiveInfinity <==> m == PositiveInfinity
    ensures m != NegativeInfinity && (x == NegativeInfinity ==> m == Finite(200.0))
  {
    match x
    case Finite(r) => Finite(if r >= 200.0 then r else 200.0)
    case PositiveInfinity => PositiveInfinity
    case NegativeInfinity => Finite(200.0)
    case NaN => NaN
  }

  /** `dynamicColumnWidth`: the available width shared by the columns that are
      not fixed. */
  function DynamicWidth(innerWidth: Option<real>, columns: nat, fixedColumns: int, fixedWidth: real): JsNumber
  {
    Divide(AvailableWidth(innerWidth, fixedColumns, fixedWidth), columns - fixedColumns)
  }

  // ---------------------------------------------------------------------------
  // The schema and the definitions built from it
  // ---------------------------------------------------------------------------

  /** One entry of the application's column schema. */
  datatype SchemaEntry = SchemaEntry(
    key: string,
    caption: string,
    dataType: DataType,
    justify: Option<Justify>,
    size: Option<real>)

  /** `columnSchema.find((c) => c.key === key)`: the first entry with the key. */
  function Find(schema: seq<SchemaEntry>, key: string): (found: Option<SchemaEntry>)
    ensures found.None? <==> forall i :: 0 <= i < |schema| ==> schema[i].key != key
    ensures found.Some? ==> exists i :: 0 <= i < |schema| && schema[i] == found.value
                                        && forall j :: 0 <= j < i ==> schema[j].key != key
    ensures found.Some? ==> found.value.key == key
  {
    if |schema| == 0 then None
    else if schema[0].key == key then Some(schema[0])
    else
      var rest := Find(schema[1..], key);
      if rest.Some? then
        var i :| 0 <= i < |schema[1..]| && schema[1..][i] == rest.value
                 && forall j :: 0 <= j < i ==> schema[1..][j].key != key;
        assert schema[i + 1] == rest.value;
        rest
      else rest
  }

  /** The keys a caller may pass: the parameter's type admits only keys of
      the schema. */
  predicate KeysInSchema(schema: seq<SchemaEntry>, keys: seq<string>)
  {
    forall k :: k in keys ==> exists i :: 0 <= i < |schema| && schema[i].key == k
  }

  /** The data types that get the sum/average footer. */
  predicate IsNumericType(t: DataType)
  {
    t == Number || t == Percent || t == Currency
  }

  /** The definition built for one schema entry, given the shared dynamic
      width. */
  function ColumnDefFor(entry: SchemaEntry, dynamicWidth: JsNumber): (c: ColumnDef)
    ensures c.id == entry.key && c.accessor == Some(entry.key)
    ensures c.size == Some(if entry.size.Some? then Finite(entry.size.value) else AtLeast200(dynamicWidth))
    ensures c.minSize == Some(100.0) && c.maxSize == Some(400.0)
    ensures Enabled(c.enableSorting) && Enabled(c.enableResizing) && Enabled(c.enablePinning)
    ensures Enabled(c.meta.enableDragging)
    ensures c.header == LabelHeader(entry.caption) && c.meta.name == Some(entry.caption)
    ensures c.meta.cellDataType == c.meta.headerDataType == c.meta.footerDataType == Some(entry.dataType)
    ensures c.meta.justify == entry.justify && c.meta.justifyHeader == Some(Start)
    ensures c.footer != NoFooter <==> IsNumericType(entry.dataType)
    ensures c.footer != NoFooter ==> c.footer == SelectionAggregateFooter(entry.dataType)
  {
    ColumnDef(
      id := entry.key,
      accessor := Some(entry.key),
      header := LabelHeader(entry.caption),
      cell := ValueCell,
      footer := if IsNumericType(entry.dataType) then SelectionAggregateFooter(entry.dataType) else NoFooter,
      size := Some(if entry.size.Some? then Finite(entry.size.value) else AtLeast200(dynamicWidth)),
      minSize := Some(100.0),
      maxSize := Some(400.0),
      enableSorting := Some(true),
      enableResizing := Some(true),
      enablePinning := Some(true),
      meta := ColumnMeta(
        alignment := None, justify := entry.justify, justifyHeader := Some(Start),
        cellDataType := Some(entry.dataType), headerDataType := Some(entry.dataType),
        footerDataType := Some(entry.dataType), enableDragging := Some(true), name := Some(entry.caption)))
  }

  /** `createColumnDefs(keys, fixedColumns, fixedWidth)`: one definition per
      key, in order, each built from the key's schema entry. */
  function CreateColumnDefs(schema: seq<SchemaEntry>, keys: seq<string>, innerWidth: Option<real>,
                            fixedColumns: int, fixedWidth: real): (defs: seq<ColumnDef>)
    requires KeysInSchema(schema, keys)
    ensures |defs| == |keys|
    ensures forall i :: 0 <= i < |keys| ==>
              Find(schema, keys[i]).Some?
              && defs[i] == ColumnDefFor(Find(schema, keys[i]).value,
                                         DynamicWidth(innerWidth, |keys|, fixedColumns, fixedWidth))
  {
    AllKeysFound(schema, keys);
    var dynamicWidth := DynamicWidth(innerWidth, |keys|, fixedColumns, fixedWidth);
    seq(|keys|, i requires 0 <= i < |keys| => ColumnDefFor(Find(schema, keys[i]).value, dynamicWidth))
  }

  lemma AllKeysFound(schema: seq<SchemaEntry>, keys: seq<string>)
    requires KeysInSchema(schema, keys)
    ensures forall i :: 0 <= i < |keys| ==> Find(schema, keys[i]).Some?
  {
    forall i | 0 <= i < |keys|
      ensures Find(schema, keys[i]).Some?
    {
      assert keys[i] in keys;
    }
  }

  /** The table's initial column order, read off these definitions, is the
      list of keys. */
  lemma ColumnOrderIsKeys(schema: seq<SchemaEntry>, keys: seq<string>, innerWidth: Option<real>,
                          fixedColumns: int, fixedWidth: real)
    requires KeysInSchema(schema, keys)
    ensures DataTable.ColumnIds(CreateColumnDefs(schema, keys, innerWidth, fixedColumns, fixedWidth)) == keys
  {
  }

  /** While some column is not fixed, every column without a size of its own
      is at least 200 px wide. */
  lemma DynamicSizeAtLeast200(schema: seq<SchemaEntry>, keys: seq<string>, innerWidth: Option<real>,
                              fixedColumns: int, fixedWidth: real, i: nat)
    requires KeysInSchema(schema, keys) && i < |keys| && fixedColumns < |keys|
    requires Find(schema, keys[i]).Some? && Find(schema, keys[i]).value.size.None?
    ensures var c := CreateColumnDefs(schema, keys, innerWidth, fixedColumns, fixedWidth)[i];
            c.size.Some? && c.size.value.Finite? && c.size.value.r >= 200.0
  {
  }

  /** The size is not clamped to `maxSize`: on a 1000 px window with three
      columns, two of them fixed at 80 px, a column without a size of its own
      is 666 px wide against a `maxSize` of 400. */
  lemma SizeCanExceedMaxSize(schema: seq<SchemaEntry>, keys: seq<string>, i: nat)
    requires KeysInSchema(schema, keys) && |keys| == 3 && i < 3
    requires Find(schema, keys[i]).Some? && Find(schema, keys[i]).value.size.None?
    ensures var c := CreateColumnDefs(schema, keys, Some(1000.0), 2, 80.0)[i];
            c.size == Some(Finite(666.0)) && c.maxSize == Some(400.0)
  {
    assert DynamicWidth(Some(1000.0), 3, 2, 80.0) == Divide(666.0, 1);
  }

  /** Without a window and with every column fixed, no column is left to
      share the width: the share is 1000 / 0, and a column without a size of
      its own is infinitely wide. */
  lemma AllFixedHeadless(schema: seq<SchemaEntry>, keys: seq<string>, i: nat)
    requires KeysInSchema(schema, keys) && i < |keys|
    requires Find(schema, keys[i]).Some? && Find(schema, keys[i]).value.size.None?
    ensures CreateColumnDefs(schema, keys, None, |keys|, 80.0)[i].size == Some(PositiveInfinity)
  {
    assert DynamicWidth(None, |keys|, |keys|, 80.0) == Divide(1000.0, 0);
  }

  // ---------------------------------------------------------------------------
  // The numeric footer
  // ---------------------------------------------------------------------------

  /** JavaScript's `a + b` on numbers. */
  function Add(a: JsNumber, b: JsNumber): (s: JsNumber)
    ensures a.Finite? && b.Finite? ==> s == Finite(a.r + b.r)
    ensures (a.NaN? || b.NaN?) ==> s.NaN?
  {
    match (a, b)
    case (Finite(x), Finite(y)) => Finite(x + y)
    case (NaN, _) => NaN
    case (_, NaN) => NaN
    case (PositiveInfinity, NegativeInfinity) => NaN
    case (NegativeInfinity, PositiveInfinity) => NaN
    case (PositiveInfinity, _) => PositiveInfinity
    case (_, PositiveInfinity) => PositiveInfinity
    case (NegativeInfinity, _) => NegativeInfinity
    case (_, NegativeInfinity) => NegativeInfinity
  }

  /** `values.reduce((a, b) => a + b, 0)` on JavaScript numbers. */
  function JsSum(values: seq<JsNumber>): JsNumber
  {
    if |values| == 0 then Finite(0.0) else Add(JsSum(values[..|values| - 1]), values[|values| - 1])
  }

  /** `x / d` for a positive whole divisor. */
  function DivideBy(x: JsNumber, d: nat): (q: JsNumber)
    requires d > 0
    ensures x.Finite? ==> q == Finite(x.r / (d as real))
    ensures !x.Finite? ==> q == x
  {
    match x
    case Finite(r) => Finite(r / (d as real))
    case _ => x
  }

  /** `Number(row.getValue(columnId))` over the selected rows. `toNumber` is
      JavaScript's `Number` conversion; it maps a number to itself. */
  function CoercedValues(selected: seq<Row>, columnId: string, toNumber: CellValue -> JsNumber): (values: seq<JsNumber>)
    ensures |values| == |selected|
    ensures forall i :: 0 <= i < |selected| ==> values[i] == toNumber(ValueAt(selected[i], columnId))
  {
    seq(|selected|, i requires 0 <= i < |selected| => toNumber(ValueAt(selected[i], columnId)))
  }

  /** The footer's (sum, average): `sum / (values.length || 1)`. */
  function NumericFooter(selected: seq<Row>, columnId: string, toNumber: CellValue -> JsNumber): (r: (JsNumber, JsNumber))
    ensures selected == [] ==> r == (Finite(0.0), Finite(0.0))
  {
    var sum := JsSum(CoercedValues(selected, columnId, toNumber));
    (sum, DivideBy(sum, if |selected| == 0 then 1 else |selected|))
  }

  /** `Number` maps a number to itself. */
  ghost predicate KeepsNumbers(toNumber: CellValue -> JsNumber)
  {
    forall n: real {:trigger NumberValue(n)} :: toNumber(NumberValue(n)) == Finite(n)
  }

  lemma {:induction false} JsSumOfNumbers(selected: seq<Row>, columnId: string, toNumber: CellValue -> JsNumber)
    requires KeepsNumbers(toNumber)
    requires forall i :: 0 <= i < |selected| ==> ValueAt(selected[i], columnId).NumberValue?
    ensures JsSum(CoercedValues(selected, columnId, toNumber))
            == Finite(Aggregation.Sum(Aggregation.ColumnNumbers(selected, columnId)))
  {
    if |selected| > 0 {
      var init := selected[..|selected| - 1];
      JsSumOfNumbers(init, columnId, toNumber);
      assert CoercedValues(selected, columnId, toNumber)[..|selected| - 1] == CoercedValues(init, columnId, toNumber);
      assert Aggregation.ColumnNumbers(selected, columnId)[..|selected| - 1] == Aggregation.ColumnNumbers(init, columnId);
      var last := ValueAt(selected[|selected| - 1], columnId);
      assert toNumber(NumberValue(last.n)) == Finite(last.n);
    }
  }

  /** When every selected value is a number, this footer computes what the
      demo's footer computes. */
  lemma NumbersAgreeWithDemoFooter(selected: seq<Row>, columnId: string, toNumber: CellValue -> JsNumber)
    requires KeepsNumbers(toNumber)
    requires forall i :: 0 <= i < |selected| ==> ValueAt(selected[i], columnId).NumberValue?
    ensures var aggregate := Aggregation.Aggregate(Aggregation.ColumnNumbers(selected, columnId));
            NumericFooter(selected, columnId, toNumber) == (Finite(aggregate.0), Finite(aggregate.1))
  {
    JsSumOfNumbers(selected, columnId, toNumber);
  }

  lemma {:induction false} NaNAbsorbs(values: seq<JsNumber>, k: nat)
    requires k < |values| && values[k].NaN?
    ensures JsSum(values).NaN?
  {
    if k < |values| - 1 {
      NaNAbsorbs(values[..|values| - 1], k);
    }
  }

  /** One selected value that `Number` cannot read makes both the sum and the
      average NaN: unlike the demo's footer, nothing counts as 0. */
  lemma NaNSpreads(selected: seq<Row>, columnId: string, toNumber: CellValue -> JsNumber, k: nat)
    requires k < |selected| && toNumber(ValueAt(selected[k], columnId)).NaN?
    ensures NumericFooter(selected, columnId, toNumber).0.NaN?
    ensures NumericFooter(selected, columnId, toNumber).1.NaN?
  {
    NaNAbsorbs(CoercedValues(selected, columnId, toNumber), k);
  }
}
