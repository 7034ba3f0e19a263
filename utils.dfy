/** components/data-table/utils.tsx: column creation from a configuration
    (id normalisation and defaults), the pinning style object, the left-pin
    toggle, the checkbox-column factory and the justification for a data type. */
module ColumnUtils {
  import opened Common

  // ---------------------------------------------------------------------------
  // Id normalisation: `name.replace(/\s+/g, "_").toLowerCase()`
  // ---------------------------------------------------------------------------

  /** ECMAScript `\s`: the WhiteSpace and LineTerminator code points. */
  predicate IsWhitespace(c: char)
  {
    || c == '\t' || c == '\n' || c == '\U{000B}' || c == '\U{000C}' || c == '\r' || c == ' '
    || c == '\U{00A0}' || c == '\U{1680}' || ('\U{2000}' <= c <= '\U{200A}')
    || c == '\U{2028}' || c == '\U{2029}' || c == '\U{202F}' || c == '\U{205F}'
    || c == '\U{3000}' || c == '\U{FEFF}'
  }

  predicate IsUpper(c: char)
  {
    'A' <= c <= 'Z'
  }

  predicate NoWhitespace(s: string)
  {
    forall i :: 0 <= i < |s| ==> !IsWhitespace(s[i])
  }

  predicate NoUpper(s: string)
  {
    forall i :: 0 <= i < |s| ==> !IsUpper(s[i])
  }

  /** The length of the leading run of whitespace of `s`. */
  function LeadingWhitespace(s: string): (k: nat)
    ensures k <= |s|
    ensures forall i :: 0 <= i < k ==> IsWhitespace(s[i])
    ensures k < |s| ==> !IsWhitespace(s[k])
  {
    if |s| == 0 || !IsWhitespace(s[0]) then 0
    else
      var k := LeadingWhitespace(s[1..]);
      assert forall i :: 1 <= i < k + 1 ==> s[i] == s[1..][i - 1];
      1 + k
  }

  /** `s.replace(/\s+/g, "_")`: every maximal run of whitespace becomes one `_`. */
  function ReplaceWhitespaceRuns(s: string): string
    decreases |s|
  {
    if |s| == 0 then []
    else if IsWhitespace(s[0]) then ['_'] + ReplaceWhitespaceRuns(s[LeadingWhitespace(s)..])
    else [s[0]] + ReplaceWhitespaceRuns(s[1..])
  }

  /** `toLowerCase` on one character; only A-Z are mapped (see README). */
  function LowerChar(c: char): char
  {
    if IsUpper(c) then (c as int + 32) as char else c
  }

  function ToLowerCase(s: string): (r: string)
    ensures |r| == |s| && NoUpper(r)
    ensures forall i :: 0 <= i < |s| ==> r[i] == LowerChar(s[i])
  {
    seq(|s|, i requires 0 <= i < |s| => LowerChar(s[i]))
  }

  /** The accessor key (and id) `createColumn` derives from a column's name;
      a name that is not a string gives "". */
  function NormaliseId(name: ColumnName): (id: string)
    ensures NoWhitespace(id) && NoUpper(id)
    ensures name.NameOther? ==> id == ""
  {
    match name
    case NameText(text) =>
      ReplaceRemovesWhitespace(text);
      ToLowerCase(ReplaceWhitespaceRuns(text))
    case NameOther => ""
  }

  /** No whitespace survives the replacement. */
  lemma {:induction false} ReplaceRemovesWhitespace(s: string)
    ensures NoWhitespace(ReplaceWhitespaceRuns(s))
    decreases |s|
  {
    if |s| > 0 {
      var k := if IsWhitespace(s[0]) then LeadingWhitespace(s) else 1;
      var head := if IsWhitespace(s[0]) then '_' else s[0];
      ReplaceRemovesWhitespace(s[k..]);
      var rest := ReplaceWhitespaceRuns(s[k..]);
      assert ReplaceWhitespaceRuns(s) == [head] + rest;
      assert forall i :: 1 <= i < |rest| + 1 ==> ([head] + rest)[i] == rest[i - 1];
    }
  }

  /** Text without whitespace is left as it is by the replacement. */
  lemma {:induction false} ReplaceWithoutWhitespace(s: string)
    requires NoWhitespace(s)
    ensures ReplaceWhitespaceRuns(s) == s
  {
    if |s| > 0 {
      assert !IsWhitespace(s[0]);
      ReplaceWithoutWhitespace(s[1..]);
    }
  }

  /** A leading run that ends inside `a` is not lengthened by what follows. */
  lemma {:induction false} LeadingAppend(a: string, t: string)
    requires LeadingWhitespace(a) < |a|
    ensures LeadingWhitespace(a + t) == LeadingWhitespace(a)
  {
    if IsWhitespace(a[0]) {
      assert (a + t)[1..] == a[1..] + t;
      LeadingAppend(a[1..], t);
    }
  }

  /** A run of whitespace followed by text that does not start with
      whitespace is exactly the leading run. */
  lemma {:induction false} LeadingRun(w: string, b: string)
    requires forall i :: 0 <= i < |w| ==> IsWhitespace(w[i])
    requires |b| == 0 || !IsWhitespace(b[0])
    ensures LeadingWhitespace(w + b) == |w|
  {
    if |w| == 0 {
      assert w + b == b;
    } else {
      assert (w + b)[1..] == w[1..] + b;
      LeadingRun(w[1..], b);
    }
  }

  /** A prefix that does not end in whitespace is replaced on its own. */
  lemma {:induction false} ReplaceSplit(a: string, t: string)
    requires |a| == 0 || !IsWhitespace(a[|a| - 1])
    ensures ReplaceWhitespaceRuns(a + t) == ReplaceWhitespaceRuns(a) + ReplaceWhitespaceRuns(t)
    decreases |a|
  {
    if |a| == 0 {
      assert a + t == t;
    } else {
      var k := if IsWhitespace(a[0]) then LeadingWhitespace(a) else 1;
      var head := if IsWhitespace(a[0]) then '_' else a[0];
      if IsWhitespace(a[0]) {
        LeadingAppend(a, t);
      }
      assert 1 <= k <= |a| && (a + t)[0] == a[0];
      calc {
        ReplaceWhitespaceRuns(a + t);
        [head] + ReplaceWhitespaceRuns((a + t)[k..]);
        { assert (a + t)[k..] == a[k..] + t; }
        [head] + ReplaceWhitespaceRuns(a[k..] + t);
        { ReplaceSplit(a[k..], t); }
        [head] + (ReplaceWhitespaceRuns(a[k..]) + ReplaceWhitespaceRuns(t));
        ([head] + ReplaceWhitespaceRuns(a[k..])) + ReplaceWhitespaceRuns(t);
        ReplaceWhitespaceRuns(a) + ReplaceWhitespaceRuns(t);
      }
    }
  }

  /** A run of whitespace at the front becomes one `_`. */
  lemma ReplaceRun(w: string, b: string)
    requires |w| > 0 && forall i :: 0 <= i < |w| ==> IsWhitespace(w[i])
    requires |b| == 0 || !IsWhitespace(b[0])
    ensures ReplaceWhitespaceRuns(w + b) == "_" + ReplaceWhitespaceRuns(b)
  {
    LeadingRun(w, b);
    assert (w + b)[0] == w[0];
    assert (w + b)[|w|..] == b;
  }

  /** The id rule: a run of whitespace between two non-whitespace parts
      becomes a single `_`, and the parts are replaced independently. */
  lemma WhitespaceRunBecomesUnderscore(a: string, w: string, b: string)
    requires |a| == 0 || !IsWhitespace(a[|a| - 1])
    requires |w| > 0 && forall i :: 0 <= i < |w| ==> IsWhitespace(w[i])
    requires |b| == 0 || !IsWhitespace(b[0])
    ensures ReplaceWhitespaceRuns(a + w + b) == ReplaceWhitespaceRuns(a) + "_" + ReplaceWhitespaceRuns(b)
  {
    calc {
      ReplaceWhitespaceRuns(a + w + b);
      { assert a + w + b == a + (w + b); }
      ReplaceWhitespaceRuns(a + (w + b));
      { ReplaceSplit(a, w + b); }
      ReplaceWhitespaceRuns(a) + ReplaceWhitespaceRuns(w + b);
      { ReplaceRun(w, b); }
      ReplaceWhitespaceRuns(a) + ("_" + ReplaceWhitespaceRuns(b));
    }
  }

  /** Lowering text that has no upper-case letters changes nothing. */
  lemma LowerWithoutUpper(s: string)
    requires NoUpper(s)
    ensures ToLowerCase(s) == s
  {
    assert forall i :: 0 <= i < |s| ==> ToLowerCase(s)[i] == s[i];
  }

  /** Normalising an id again leaves it unchanged. */
  lemma NormaliseIdIdempotent(name: ColumnName)
    ensures NormaliseId(NameText(NormaliseId(name))) == NormaliseId(name)
  {
    var id := NormaliseId(name);
    ReplaceWithoutWhitespace(id);
    LowerWithoutUpper(id);
  }

  // ---------------------------------------------------------------------------
  // createColumn / createColumns
  // ---------------------------------------------------------------------------

  /** `createColumn`: id and accessor key are the normalised name; width 200
      within [50, 400]; sorting, resizing, pinning and dragging enabled; every
      data type STRING; the header shows the configured name; footer "0". */
  function CreateColumn(config: ColumnConfig): (c: ColumnDef)
    ensures c.id == NormaliseId(config.name) && c.accessor == Some(c.id)
    ensures c.minSize == Some(50.0) && c.size == Some(Finite(200.0)) && c.maxSize == Some(400.0)
    ensures c.enableSorting == Some(true) && c.enableResizing == Some(true)
    ensures c.enablePinning == Some(true) && c.meta.enableDragging == Some(true)
    ensures c.header == NameHeader(config.name) && c.footer == TextFooter("0")
    ensures c.meta.cellDataType == c.meta.headerDataType == c.meta.footerDataType == Some(String)
  {
    var key := NormaliseId(config.name);
    ColumnDef(
      id := key,
      accessor := Some(key),
      header := NameHeader(config.name),
      cell := ValueCell,
      footer := TextFooter("0"),
      size := Some(Finite(200.0)),
      minSize := Some(50.0),
      maxSize := Some(400.0),
      enableSorting := Some(true),
      enableResizing := Some(true),
      enablePinning := Some(true),
      meta := ColumnMeta(
        alignment := None, justify := None, justifyHeader := None,
        cellDataType := Some(String), headerDataType := Some(String),
        footerDataType := Some(String), enableDragging := Some(true), name := None))
  }

  /** `createColumns`: one definition per configuration, in order. */
  function CreateColumns(configs: seq<ColumnConfig>): (defs: seq<ColumnDef>)
    ensures |defs| == |configs|
    ensures forall i :: 0 <= i < |configs| ==> defs[i] == CreateColumn(configs[i])
  {
    if configs == [] then [] else [CreateColumn(configs[0])] + CreateColumns(configs[1..])
  }

  /** Every created id is a fixed point of the normalisation, so a column
      created from its own id gets the same id back. */
  lemma CreatedIdsAreNormal(configs: seq<ColumnConfig>, i: nat, other: RowKey)
    requires i < |configs|
    ensures CreateColumn(ColumnConfig(other, NameText(CreateColumns(configs)[i].id))).id
            == CreateColumns(configs)[i].id
  {
    NormaliseIdIdempotent(configs[i].name);
  }

  // ---------------------------------------------------------------------------
  // getCommonPinningStyles
  // ---------------------------------------------------------------------------

  /** `getCommonPinningStyles`: sticky and z-index 500 exactly when pinned,
      a left offset only when pinned left, the shadow only on the last
      left-pinned column, opacity 1, the column's width. */
  function PinningStyles(view: ColumnView): (style: Style)
    ensures style.Keys == {BoxShadow, Left, Opacity, Position, Width, ZIndex}
    ensures style[Position] == Keyword("sticky") <==> IsPinned(view.pinned)
    ensures style[Position] in {Keyword("sticky"), Keyword("relative")}
    ensures style[ZIndex] == Amount(500.0) <==> IsPinned(view.pinned)
    ensures style[ZIndex] in {Amount(500.0), Amount(0.0)}
    ensures style[Left] != Undefined <==> view.pinned == PinnedLeft
    ensures style[BoxShadow] != Undefined <==> view.pinned == PinnedLeft && view.isLastLeft
    ensures style[Left] == (if view.pinned == PinnedLeft then Pixels(view.start) else Undefined)
    ensures style[BoxShadow] == (if view.pinned == PinnedLeft && view.isLastLeft then Keyword(SHADOW) else Undefined)
    ensures style[Opacity] == Amount(1.0) && style[Width] == Amount(view.size)
  {
    var lastLeft := view.pinned == PinnedLeft && view.isLastLeft;
    map[
      BoxShadow := if lastLeft then Keyword(SHADOW) else Undefined,
      Left := if view.pinned == PinnedLeft then Pixels(view.start) else Undefined,
      Opacity := Amount(1.0),
      Position := Keyword(if IsPinned(view.pinned) then "sticky" else "relative"),
      Width := Amount(view.size),
      ZIndex := Amount(if IsPinned(view.pinned) then 500.0 else 0.0)]
  }

  // ---------------------------------------------------------------------------
  // handlePinToggle
  // ---------------------------------------------------------------------------

  /** `filter((id) => id !== columnId)`. */
  function RemoveAll(s: seq<string>, x: string): (r: seq<string>)
    ensures x !in r && |r| <= |s|
    ensures forall y :: y in r <==> y in s && y != x
    ensures forall y :: y != x ==> multiset(r)[y] == multiset(s)[y]
    ensures x !in s ==> r == s
  {
    if s == [] then []
    else if s[0] == x then
      assert s == [s[0]] + s[1..];
      RemoveAll(s[1..], x)
    else
      assert s == [s[0]] + s[1..];
      [s[0]] + RemoveAll(s[1..], x)
  }

  /** `columnPinning?.left || []`. */
  function LeftPinned(state: PinningState): seq<string>
  {
    if state.left.Some? then state.left.value else []
  }

  /** `handlePinToggle`: the whole pinning state is replaced by `{ left: … }`,
      where the column is removed (every occurrence) if it was left-pinned and
      appended at the end otherwise. */
  function HandlePinToggle(state: PinningState, columnId: string): (next: PinningState)
    ensures next.right == None && next.left.Some?
    ensures columnId in LeftPinned(state) ==> LeftPinned(next) == RemoveAll(LeftPinned(state), columnId)
    ensures columnId !in LeftPinned(state) ==> LeftPinned(next) == LeftPinned(state) + [columnId]
  {
    var current := LeftPinned(state);
    PinningState(Some(if columnId in current then RemoveAll(current, columnId) else current + [columnId]), None)
  }

  /** A toggle flips the column's own membership and no other's. */
  lemma PinToggleFlipsMembership(state: PinningState, columnId: string, other: string)
    ensures columnId in LeftPinned(HandlePinToggle(state, columnId)) <==> columnId !in LeftPinned(state)
    ensures other != columnId ==>
      (other in LeftPinned(HandlePinToggle(state, columnId)) <==> other in LeftPinned(state))
  {
  }

  /** Toggling twice restores which columns are left-pinned; an unpinned
      column comes back to exactly the old list, a pinned one ends up last. */
  lemma PinToggleTwice(state: PinningState, columnId: string)
    ensures var twice := LeftPinned(HandlePinToggle(HandlePinToggle(state, columnId), columnId));
      && (forall y :: y in twice <==> y in LeftPinned(state))
      && (columnId !in LeftPinned(state) ==> twice == LeftPinned(state))
      && (columnId in LeftPinned(state) ==> twice == RemoveAll(LeftPinned(state), columnId) + [columnId])
  {
    var current := LeftPinned(state);
    var once := HandlePinToggle(state, columnId);
    if columnId in current {
      assert columnId !in LeftPinned(once);
    } else {
      assert columnId in LeftPinned(once);
      assert RemoveAll(current + [columnId], columnId) == current by {
        RemoveLastAppended(current, columnId);
      }
    }
  }

  lemma {:induction false} RemoveLastAppended(s: seq<string>, x: string)
    requires x !in s
    ensures RemoveAll(s + [x], x) == s
  {
    if s != [] {
      assert (s + [x])[1..] == s[1..] + [x];
      RemoveLastAppended(s[1..], x);
    } else {
      assert [x][1..] == [];
    }
  }

  /** `filter` keeps the order of the remaining ids: it distributes over
      concatenation, drops a single `x` and keeps any other single id. */
  lemma {:induction false} RemoveAllAppend(a: seq<string>, b: seq<string>, x: string)
    ensures RemoveAll(a + b, x) == RemoveAll(a, x) + RemoveAll(b, x)
    ensures RemoveAll([x], x) == []
    ensures forall y :: y != x ==> RemoveAll([y], x) == [y]
  {
    if a == [] {
      assert a + b == b;
    } else {
      assert (a + b)[0] == a[0] && (a + b)[1..] == a[1..] + b;
      RemoveAllAppend(a[1..], b, x);
    }
    assert [x][1..] == [];
  }

  /** Unpinning a column that sits once in the left list, between `before`
      and `after`, closes the gap: every other pinned column keeps its
      place relative to the others. */
  lemma UnpinClosesGap(state: PinningState, before: seq<string>, columnId: string, after: seq<string>)
    requires LeftPinned(state) == before + [columnId] + after
    requires columnId !in before && columnId !in after
    ensures LeftPinned(HandlePinToggle(state, columnId)) == before + after
  {
    assert columnId in LeftPinned(state) by {
      assert LeftPinned(state)[|before|] == columnId;
    }
    RemoveAllAppend(before + [columnId], after, columnId);
    RemoveAllAppend(before, [columnId], columnId);
  }

  /** A toggle discards any right-pinned columns. */
  lemma PinToggleDropsRightPinned(state: PinningState, columnId: string)
    requires state.right.Some? && state.right.value != []
    ensures HandlePinToggle(state, columnId).right != state.right
  {
  }

  // ---------------------------------------------------------------------------
  // columnsWithCheckbox and getJustifyForDataType
  // ---------------------------------------------------------------------------

  /** `columnsWithCheckbox`: the select column followed by the given columns.
      Its footer is the caller's element when one is given, otherwise the
      SUM / AVG labels; it sets no `enablePinning`. */
  function ColumnsWithCheckbox(columns: seq<ColumnDef>, customFooter: bool): (r: seq<ColumnDef>)
    ensures |r| == |columns| + 1 && r[1..] == columns
    ensures IsSelectColumn(r[0]) && r[0].enablePinning == None && r[0].accessor == None
    ensures r[0].footer == if customFooter then CallerFooter else LabelFooter("SUM", "AVG")
  {
    var select := ColumnDef(
      id := "select",
      accessor := None,
      header := SelectAllHeader,
      cell := RowCheckboxCell,
      footer := if customFooter then CallerFooter else LabelFooter("SUM", "AVG"),
      size := Some(Finite(60.0)),
      minSize := Some(60.0),
      maxSize := Some(60.0),
      enableSorting := Some(false),
      enableResizing := Some(false),
      enablePinning := None,
      meta := ColumnMeta(
        alignment := Some(AlignCenter), justify := Some(Center), justifyHeader := None,
        cellDataType := Some(Checkbox), headerDataType := Some(Checkbox),
        footerDataType := Some(Checkbox), enableDragging := Some(false), name := Some("select")));
    [select] + columns
  }

  /** `getJustifyForDataType`. */
  function JustifyForDataType(dataType: DataType): (j: Justify)
    ensures j == End <==> dataType in {Number, Currency}
    ensures j == Center <==> dataType in {Date, Ratio, Percent}
    ensures j == Start <==> dataType !in {Number, Currency, Date, Ratio, Percent}
  {
    match dataType
    case String => Start
    case Date | Ratio | Percent => Center
    case Number | Currency => End
    case _ => Start
  }
}
