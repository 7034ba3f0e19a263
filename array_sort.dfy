/** The stable sort `Array.prototype.sort` performs with a comparator
    (ECMA-262 10th edition, section 22.1.3.27): the element `a` goes before `b`
    when `cmp(a, b) < 0`, and elements the comparator calls equal keep their
    relative order. It is written here as an insertion sort; for a consistent
    comparator the output of every stable sort is the same (StableSortIsUnique). */
module ArraySort {

  /** Inserts `x` after every element of the sorted `s` that is not greater
      than it. */
  function Insert<T>(x: T, s: seq<T>, cmp: (T, T) -> real): seq<T>
  {
    if |s| == 0 then [x]
    else if cmp(x, s[0]) < 0.0 then [x] + s
    else [s[0]] + Insert(x, s[1..], cmp)
  }

  /** The sorted copy: each element in turn is inserted into the sorted copy
      of the elements before it. */
  function StableSort<T>(s: seq<T>, cmp: (T, T) -> real): seq<T>
  {
    if |s| == 0 then []
    else Insert(s[|s| - 1], StableSort(s[..|s| - 1], cmp), cmp)
  }

  lemma {:induction false} InsertPermutes<T>(x: T, s: seq<T>, cmp: (T, T) -> real)
    ensures multiset(Insert(x, s, cmp)) == multiset(s) + multiset{x}
  {
    if |s| > 0 {
      assert s == [s[0]] + s[1..];
      InsertPermutes(x, s[1..], cmp);
    }
  }

  /** The sorted copy is a permutation of its input. */
  lemma {:induction false} SortPermutes<T>(s: seq<T>, cmp: (T, T) -> real)
    ensures multiset(StableSort(s, cmp)) == multiset(s)
  {
    if |s| > 0 {
      assert s == s[..|s| - 1] + [s[|s| - 1]];
      SortPermutes(s[..|s| - 1], cmp);
      InsertPermutes(s[|s| - 1], StableSort(s[..|s| - 1], cmp), cmp);
    }
  }

  /** `x` goes strictly before `y`. */
  ghost predicate Before<T>(cmp: (T, T) -> real, x: T, y: T)
  {
    cmp(x, y) < 0.0
  }

  /** `x` goes strictly after `y`. */
  ghost predicate After<T>(cmp: (T, T) -> real, x: T, y: T)
  {
    cmp(x, y) > 0.0
  }

  /** `x` may go before `y`. */
  ghost predicate NotAfter<T>(cmp: (T, T) -> real, x: T, y: T)
  {
    cmp(x, y) <= 0.0
  }

  /** A comparator is consistent on the values `dom` when the sign of
      `cmp(x, y)` is the opposite of the sign of `cmp(y, x)` and "not greater"
      is transitive: a total preorder. Flip and Trans apply it. */
  ghost predicate Consistent<T(!new)>(cmp: (T, T) -> real, dom: set<T>)
  {
    && (forall x, y :: x in dom && y in dom ==> (Before(cmp, x, y) <==> After(cmp, y, x)))
    && (forall x, y, z :: x in dom && y in dom && z in dom && NotAfter(cmp, x, y) && NotAfter(cmp, y, z)
          ==> NotAfter(cmp, x, z))
  }

  /** Every element of `s` is one of the values `dom`. */
  ghost predicate Within<T>(s: seq<T>, dom: set<T>)
  {
    forall i :: 0 <= i < |s| ==> s[i] in dom
  }

  ghost predicate Sorted<T>(s: seq<T>, cmp: (T, T) -> real)
  {
    forall i, j {:trigger cmp(s[i], s[j])} :: 0 <= i < j < |s| ==> cmp(s[i], s[j]) <= 0.0
  }

  /** The elements of `s` the comparator calls equal to `k`, in order. */
  function Ties<T>(s: seq<T>, k: T, cmp: (T, T) -> real): seq<T>
  {
    if |s| == 0 then []
    else (if cmp(k, s[0]) == 0.0 then [s[0]] else []) + Ties(s[1..], k, cmp)
  }

  /** Stability: for every element `k`, the elements equal to `k` appear in
      the output in the order they had in the input. */
  ghost predicate Stable<T(!new)>(input: seq<T>, output: seq<T>, cmp: (T, T) -> real)
  {
    forall k :: k in input ==> Ties(output, k, cmp) == Ties(input, k, cmp)
  }

  lemma Flip<T(!new)>(cmp: (T, T) -> real, dom: set<T>, x: T, y: T)
    requires Consistent(cmp, dom) && x in dom && y in dom
    ensures cmp(x, y) < 0.0 <==> cmp(y, x) > 0.0
    ensures cmp(x, y) == 0.0 <==> cmp(y, x) == 0.0
    ensures cmp(x, x) == 0.0
  {
    assert Before(cmp, x, x) <==> After(cmp, x, x);
    assert Before(cmp, x, y) <==> After(cmp, y, x);
    assert Before(cmp, y, x) <==> After(cmp, x, y);
  }

  lemma Trans<T(!new)>(cmp: (T, T) -> real, dom: set<T>, x: T, y: T, z: T)
    requires Consistent(cmp, dom) && x in dom && y in dom && z in dom
    ensures cmp(x, y) <= 0.0 && cmp(y, z) <= 0.0 ==> cmp(x, z) <= 0.0
  {
    assert NotAfter(cmp, x, y) && NotAfter(cmp, y, z) ==> NotAfter(cmp, x, z);
  }

  lemma WithinMultiset<T>(a: seq<T>, b: seq<T>, dom: set<T>)
    requires Within(b, dom) && multiset(a) <= multiset(b)
    ensures Within(a, dom)
  {
    forall i | 0 <= i < |a| ensures a[i] in dom {
      assert a[i] in multiset(b);
      var j :| 0 <= j < |b| && b[j] == a[i];
    }
  }

  lemma {:induction false} TiesAppend<T>(a: seq<T>, b: seq<T>, k: T, cmp: (T, T) -> real)
    ensures Ties(a + b, k, cmp) == Ties(a, k, cmp) + Ties(b, k, cmp)
  {
    if a == [] {
      assert a + b == b;
    } else {
      assert (a + b)[1..] == a[1..] + b;
      TiesAppend(a[1..], b, k, cmp);
    }
  }

  /** An element not greater than anything in a sorted sequence can go first. */
  lemma SortedCons<T>(a: T, s: seq<T>, cmp: (T, T) -> real)
    requires Sorted(s, cmp)
    requires forall j :: 0 <= j < |s| ==> cmp(a, s[j]) <= 0.0
    ensures Sorted([a] + s, cmp)
  {
    var r := [a] + s;
    forall i, j | 0 <= i < j < |r| ensures cmp(r[i], r[j]) <= 0.0 {
      if i == 0 {
        assert r[j] == s[j - 1];
      } else {
        assert r[i] == s[i - 1] && r[j] == s[j - 1];
      }
    }
  }

  lemma {:induction false} InsertSorted<T(!new)>(x: T, s: seq<T>, cmp: (T, T) -> real, dom: set<T>)
    requires Consistent(cmp, dom) && x in dom && Within(s, dom) && Sorted(s, cmp)
    ensures Sorted(Insert(x, s, cmp), cmp)
  {
    if s == [] {
    } else if cmp(x, s[0]) < 0.0 {
      forall j | 0 <= j < |s| ensures cmp(x, s[j]) <= 0.0 {
        if j > 0 {
          assert cmp(s[0], s[j]) <= 0.0;
          Trans(cmp, dom, x, s[0], s[j]);
        }
      }
      SortedCons(x, s, cmp);
    } else {
      Flip(cmp, dom, x, s[0]);
      InsertSorted(x, s[1..], cmp, dom);
      var rest := Insert(x, s[1..], cmp);
      InsertPermutes(x, s[1..], cmp);
      forall j | 0 <= j < |rest| ensures cmp(s[0], rest[j]) <= 0.0 {
        assert rest[j] in multiset(rest);
        if rest[j] != x {
          assert rest[j] in multiset(s[1..]);
          var m :| 0 <= m < |s[1..]| && s[1..][m] == rest[j];
          assert cmp(s[0], s[m + 1]) <= 0.0;
        }
      }
      SortedCons(s[0], rest, cmp);
    }
  }

  /** With a consistent comparator the output is sorted. */
  lemma {:induction false} SortSorted<T(!new)>(s: seq<T>, cmp: (T, T) -> real, dom: set<T>)
    requires Consistent(cmp, dom) && Within(s, dom)
    ensures Sorted(StableSort(s, cmp), cmp)
  {
    if s != [] {
      var p := s[..|s| - 1];
      SortSorted(p, cmp, dom);
      SortPermutes(p, cmp);
      WithinMultiset(StableSort(p, cmp), p, dom);
      InsertSorted(s[|s| - 1], StableSort(p, cmp), cmp, dom);
    }
  }

  /** Nothing in `s` is equal to `k` when everything in `s` is greater than
      an element `x` equal to `k`. */
  lemma {:induction false} NoTiesAbove<T(!new)>(s: seq<T>, x: T, k: T, cmp: (T, T) -> real, dom: set<T>)
    requires Consistent(cmp, dom) && x in dom && k in dom && Within(s, dom)
    requires cmp(k, x) == 0.0
    requires forall i :: 0 <= i < |s| ==> cmp(x, s[i]) < 0.0
    ensures Ties(s, k, cmp) == []
  {
    if s != [] {
      var y := s[0];
      if cmp(k, y) == 0.0 {
        Flip(cmp, dom, k, y);
        Flip(cmp, dom, k, x);
        Flip(cmp, dom, x, y);
        Trans(cmp, dom, y, k, x);
        assert false;
      }
      NoTiesAbove(s[1..], x, k, cmp, dom);
    }
  }

  /** Inserting in front of a sorted sequence adds `x` after the ties of `k`
      in `s`, because there are none when `x` ties with `k`. */
  lemma InsertTiesFront<T(!new)>(x: T, s: seq<T>, k: T, cmp: (T, T) -> real, dom: set<T>)
    requires Consistent(cmp, dom) && x in dom && k in dom && Within(s, dom) && Sorted(s, cmp)
    requires s != [] && cmp(x, s[0]) < 0.0
    ensures Ties([x] + s, k, cmp) == Ties(s, k, cmp) + (if cmp(k, x) == 0.0 then [x] else [])
  {
    assert ([x] + s)[1..] == s;
    if cmp(k, x) == 0.0 {
      Flip(cmp, dom, x, s[0]);
      forall i | 0 <= i < |s| ensures cmp(x, s[i]) < 0.0 {
        Flip(cmp, dom, x, s[i]);
        Trans(cmp, dom, s[0], s[i], x);
        if i > 0 {
          assert cmp(s[0], s[i]) <= 0.0;
        }
      }
      NoTiesAbove(s, x, k, cmp, dom);
    }
  }

  lemma {:induction false} InsertTies<T(!new)>(x: T, s: seq<T>, k: T, cmp: (T, T) -> real, dom: set<T>)
    requires Consistent(cmp, dom) && x in dom && k in dom && Within(s, dom) && Sorted(s, cmp)
    ensures Ties(Insert(x, s, cmp), k, cmp)
            == Ties(s, k, cmp) + (if cmp(k, x) == 0.0 then [x] else [])
  {
    if s == [] {
      assert Ties([x], k, cmp) == (if cmp(k, x) == 0.0 then [x] else []) + Ties([], k, cmp);
    } else if cmp(x, s[0]) < 0.0 {
      InsertTiesFront(x, s, k, cmp, dom);
    } else {
      var rest := Insert(x, s[1..], cmp);
      assert ([s[0]] + rest)[1..] == rest;
      SortedTail(s, cmp);
      InsertTies(x, s[1..], k, cmp, dom);
    }
  }

  /** The insertion keeps ties in input order, so the sort is stable. */
  lemma InsertStable<T(!new)>(p: seq<T>, x: T, k: T, cmp: (T, T) -> real, dom: set<T>)
    requires Consistent(cmp, dom) && k in dom && x in dom && Within(p, dom)
    requires Ties(StableSort(p, cmp), k, cmp) == Ties(p, k, cmp)
    ensures Ties(Insert(x, StableSort(p, cmp), cmp), k, cmp) == Ties(p + [x], k, cmp)
  {
    var sp := StableSort(p, cmp);
    SortSorted(p, cmp, dom);
    SortPermutes(p, cmp);
    WithinMultiset(sp, p, dom);
    InsertTies(x, sp, k, cmp, dom);
    TiesAppend(p, [x], k, cmp);
    assert Ties([x], k, cmp) == (if cmp(k, x) == 0.0 then [x] else []) + Ties([], k, cmp);
  }

  lemma {:induction false} SortStable<T(!new)>(s: seq<T>, k: T, cmp: (T, T) -> real, dom: set<T>)
    requires Consistent(cmp, dom) && k in dom && Within(s, dom)
    ensures Ties(StableSort(s, cmp), k, cmp) == Ties(s, k, cmp)
  {
    if s != [] {
      var p := s[..|s| - 1];
      SortStable(p, k, cmp, dom);
      InsertStable(p, s[|s| - 1], k, cmp, dom);
      assert s == p + [s[|s| - 1]];
    }
  }

  /** The sorted copy is a sorted, stable permutation of its input. */
  lemma SortCorrect<T(!new)>(s: seq<T>, cmp: (T, T) -> real, dom: set<T>)
    requires Consistent(cmp, dom) && Within(s, dom)
    ensures multiset(StableSort(s, cmp)) == multiset(s)
    ensures Sorted(StableSort(s, cmp), cmp)
    ensures Stable(s, StableSort(s, cmp), cmp)
  {
    SortPermutes(s, cmp);
    SortSorted(s, cmp, dom);
    forall k | k in s ensures Ties(StableSort(s, cmp), k, cmp) == Ties(s, k, cmp) {
      SortStable(s, k, cmp, dom);
    }
  }

  /** Two sorted, stable arrangements of the same elements start alike. */
  lemma SameHead<T(!new)>(r1: seq<T>, r2: seq<T>, cmp: (T, T) -> real, dom: set<T>)
    requires Consistent(cmp, dom) && Within(r1, dom) && Within(r2, dom)
    requires r1 != [] && multiset(r1) == multiset(r2)
    requires Sorted(r1, cmp) && Sorted(r2, cmp)
    requires Ties(r1, r1[0], cmp) == Ties(r2, r1[0], cmp)
    ensures r2 != [] && r1[0] == r2[0]
  {
    var a := r1[0];
    assert a in multiset(r2);
    var j :| 0 <= j < |r2| && r2[j] == a;
    var b := r2[0];
    assert b in multiset(r1);
    var i :| 0 <= i < |r1| && r1[i] == b;
    Flip(cmp, dom, a, b);
    if j > 0 { assert cmp(r2[0], r2[j]) <= 0.0; }
    if i > 0 { assert cmp(r1[0], r1[i]) <= 0.0; }
    assert Ties(r1, a, cmp)[0] == a;
    assert Ties(r2, a, cmp)[0] == b;
  }

  lemma TiesTail<T>(r1: seq<T>, r2: seq<T>, k: T, cmp: (T, T) -> real)
    requires r1 != [] && r2 != [] && r1[0] == r2[0]
    requires Ties(r1, k, cmp) == Ties(r2, k, cmp)
    ensures Ties(r1[1..], k, cmp) == Ties(r2[1..], k, cmp)
  {
    var head := if cmp(k, r1[0]) == 0.0 then [r1[0]] else [];
    assert Ties(r1, k, cmp) == head + Ties(r1[1..], k, cmp);
    assert Ties(r2, k, cmp) == head + Ties(r2[1..], k, cmp);
    assert Ties(r1[1..], k, cmp) == Ties(r1, k, cmp)[|head|..];
  }

  lemma SortedTail<T>(s: seq<T>, cmp: (T, T) -> real)
    requires s != [] && Sorted(s, cmp)
    ensures Sorted(s[1..], cmp)
  {
    forall i, j | 0 <= i < j < |s| - 1 ensures cmp(s[1..][i], s[1..][j]) <= 0.0 {
      assert s[1..][i] == s[i + 1] && s[1..][j] == s[j + 1];
    }
  }

  lemma SameTail<T>(r1: seq<T>, r2: seq<T>)
    requires r1 != [] && r2 != [] && r1[0] == r2[0] && r1[1..] == r2[1..]
    ensures r1 == r2
  {
    assert r1 == [r1[0]] + r1[1..];
    assert r2 == [r2[0]] + r2[1..];
  }

  lemma MultisetTail<T>(r: seq<T>)
    requires r != []
    ensures multiset(r[1..]) == multiset(r) - multiset{r[0]}
  {
    assert r == [r[0]] + r[1..];
  }

  /** Removing the common first element keeps the hypotheses of SortUnique. */
  lemma UniqueStep<T(!new)>(r1: seq<T>, r2: seq<T>, cmp: (T, T) -> real, dom: set<T>)
    requires Consistent(cmp, dom) && Within(r1, dom) && r1 != []
    requires multiset(r1) == multiset(r2)
    requires Sorted(r1, cmp) && Sorted(r2, cmp)
    requires forall k :: k in dom ==> Ties(r1, k, cmp) == Ties(r2, k, cmp)
    ensures r2 != [] && r1[0] == r2[0]
    ensures Within(r1[1..], dom) && multiset(r1[1..]) == multiset(r2[1..])
    ensures Sorted(r1[1..], cmp) && Sorted(r2[1..], cmp)
    ensures forall k :: k in dom ==> Ties(r1[1..], k, cmp) == Ties(r2[1..], k, cmp)
  {
    WithinMultiset(r2, r1, dom);
    SameHead(r1, r2, cmp, dom);
    MultisetTail(r1);
    MultisetTail(r2);
    forall k | k in dom ensures Ties(r1[1..], k, cmp) == Ties(r2[1..], k, cmp) {
      TiesTail(r1, r2, k, cmp);
    }
    SortedTail(r1, cmp);
    SortedTail(r2, cmp);
    WithinMultiset(r1[1..], r1, dom);
  }

  /** Two sorted arrangements of the same elements that agree on the order of
      every group of ties are equal. */
  lemma {:induction false} SortUnique<T(!new)>(r1: seq<T>, r2: seq<T>, cmp: (T, T) -> real, dom: set<T>)
    requires Consistent(cmp, dom) && Within(r1, dom)
    requires multiset(r1) == multiset(r2)
    requires Sorted(r1, cmp) && Sorted(r2, cmp)
    requires forall k :: k in dom ==> Ties(r1, k, cmp) == Ties(r2, k, cmp)
    ensures r1 == r2
    decreases |r1|
  {
    if r1 != [] {
      UniqueStep(r1, r2, cmp, dom);
      SortUnique(r1[1..], r2[1..], cmp, dom);
      SameTail(r1, r2);
    } else {
      assert |r2| == |multiset(r2)|;
    }
  }

  /** Any sorted permutation of `s` that keeps every group of ties in input
      order is StableSort(s): the insertion sort stands for every stable sort. */
  lemma StableSortIsUnique<T(!new)>(s: seq<T>, r: seq<T>, cmp: (T, T) -> real, dom: set<T>)
    requires Consistent(cmp, dom) && Within(s, dom)
    requires multiset(r) == multiset(s) && Sorted(r, cmp)
    requires forall k :: k in dom ==> Ties(r, k, cmp) == Ties(s, k, cmp)
    ensures r == StableSort(s, cmp)
  {
    var sorted := StableSort(s, cmp);
    SortPermutes(s, cmp);
    SortSorted(s, cmp, dom);
    forall k | k in dom ensures Ties(sorted, k, cmp) == Ties(r, k, cmp) {
      SortStable(s, k, cmp, dom);
    }
    WithinMultiset(sorted, s, dom);
    SortUnique(sorted, r, cmp, dom);
  }
}
