/** The footer aggregation both footers use: the sum of the selected rows'
    values (a left fold from 0) and their average, where the divisor is the
    count of values or 1 when there are none. */
module Aggregation {
  import opened Common

  /** `values.reduce((a, b) => a + b, 0)`. */
  function Sum(values: seq<real>): real
  {
    if |values| == 0 then 0.0 else Sum(values[..|values| - 1]) + values[|values| - 1]
  }

  /** `sum / (values.length || 1)`. */
  function Average(values: seq<real>): (avg: real)
    ensures |values| == 0 ==> avg == 0.0
    ensures |values| > 0 ==> avg * (|values| as real) == Sum(values)
  {
    Sum(values) / (if |values| == 0 then 1 else |values|) as real
  }

  lemma {:induction false} SumAppend(a: seq<real>, b: seq<real>)
    ensures Sum(a + b) == Sum(a) + Sum(b)
  {
    if |b| == 0 {
      assert a + b == a;
    } else {
      assert (a + b)[..|a + b| - 1] == a + b[..|b| - 1];
      SumAppend(a, b[..|b| - 1]);
    }
  }

  /** The sum does not depend on the order of the values: a permutation of
      the selected rows has the same total. */
  lemma {:induction false} SumPermutation(a: seq<real>, b: seq<real>)
    requires multiset(a) == multiset(b)
    ensures Sum(a) == Sum(b)
    decreases |a|
  {
    if |a| == 0 {
      assert |b| == 0;
    } else {
      var x := a[|a| - 1];
      assert x in multiset(b);
      var k :| 0 <= k < |b| && b[k] == x;
      var rest := b[..k] + b[k + 1..];
      assert b == b[..k] + [x] + b[k + 1..];
      assert multiset(b) == multiset(rest) + multiset{x};
      assert a == a[..|a| - 1] + [x];
      assert multiset(a) == multiset(a[..|a| - 1]) + multiset{x};
      assert multiset(a[..|a| - 1]) == multiset(a) - multiset{x};
      assert multiset(rest) == multiset(b) - multiset{x};
      SumPermutation(a[..|a| - 1], rest);
      SumAppend(b[..k] + [x], b[k + 1..]);
      SumAppend(b[..k], [x]);
      SumAppend(b[..k], b[k + 1..]);
      assert Sum([x]) == x by {
        assert [x][..0] == [];
      }
    }
  }

  /** Every value between `lo` and `hi` puts the sum between `n*lo` and `n*hi`. */
  lemma {:induction false} SumBounds(values: seq<real>, lo: real, hi: real)
    requires forall i :: 0 <= i < |values| ==> lo <= values[i] <= hi
    ensures (|values| as real) * lo <= Sum(values) <= (|values| as real) * hi
  {
    if |values| > 0 {
      SumBounds(values[..|values| - 1], lo, hi);
    }
  }

  /** The average of a non-empty selection lies between its least and its
      greatest value. */
  lemma AverageWithinBounds(values: seq<real>, lo: real, hi: real)
    requires |values| > 0
    requires forall i :: 0 <= i < |values| ==> lo <= values[i] <= hi
    ensures lo <= Average(values) <= hi
  {
    SumBounds(values, lo, hi);
    var n := |values| as real;
    calc {
      lo;
    ==
      (lo * n) / n;
    <=
      Sum(values) / n;
    ==
      Average(values);
    }
    calc {
      Average(values);
    ==
      Sum(values) / n;
    <=
      (hi * n) / n;
    ==
      hi;
    }
  }

  /** `typeof value === "number" ? value : 0`. */
  function NumberOrZero(v: CellValue): real
  {
    if v.NumberValue? then v.n else 0.0
  }

  /** The values a footer reads from the selected rows in one column. */
  function ColumnNumbers(rows: seq<Row>, columnId: string): (values: seq<real>)
    ensures |values| == |rows|
    ensures forall i :: 0 <= i < |rows| ==> values[i] == NumberOrZero(ValueAt(rows[i], columnId))
  {
    seq(|rows|, i requires 0 <= i < |rows| => NumberOrZero(ValueAt(rows[i], columnId)))
  }

  lemma ColumnNumbersAppend(a: seq<Row>, b: seq<Row>, columnId: string)
    ensures ColumnNumbers(a + b, columnId) == ColumnNumbers(a, columnId) + ColumnNumbers(b, columnId)
  {
  }

  /** The same rows in another order give the same values in that order. */
  lemma {:induction false} ColumnNumbersPermutation(a: seq<Row>, b: seq<Row>, columnId: string)
    requires multiset(a) == multiset(b)
    ensures multiset(ColumnNumbers(a, columnId)) == multiset(ColumnNumbers(b, columnId))
    decreases |a|
  {
    if |a| > 0 {
      var x := a[|a| - 1];
      assert x in multiset(b);
      var k :| 0 <= k < |b| && b[k] == x;
      var init, before, after := a[..|a| - 1], b[..k], b[k + 1..];
      assert multiset(init) == multiset(before + after) by {
        assert b == before + [x] + after;
        assert a == init + [x];
        assert multiset(init) == multiset(a) - multiset{x};
        assert multiset(before + after) == multiset(b) - multiset{x};
      }
      ColumnNumbersPermutation(init, before + after, columnId);
      var v := NumberOrZero(ValueAt(x, columnId));
      assert ColumnNumbers([x], columnId) == [v];
      ColumnNumbersAppend(init, [x], columnId);
      assert a == init + [x];
      ColumnNumbersAppend(before, after, columnId);
      ColumnNumbersAppend(before, [x], columnId);
      ColumnNumbersAppend(before + [x], after, columnId);
      assert b == before + [x] + after;
    } else {
      assert |b| == |multiset(b)|;
    }
  }

  /** The footer's pair (sum, average). */
  function Aggregate(values: seq<real>): (r: (real, real))
    ensures r.0 == Sum(values) && r.1 == Average(values)
    ensures |values| == 0 ==> r == (0.0, 0.0)
  {
    (Sum(values), Average(values))
  }

  /** The footer pair does not depend on the order of the values. */
  lemma AggregatePermutation(a: seq<real>, b: seq<real>)
    requires multiset(a) == multiset(b)
    ensures Aggregate(a) == Aggregate(b)
  {
    SumPermutation(a, b);
    assert |a| == |multiset(a)| == |multiset(b)| == |b|;
  }
}
