/**
 * `Array.prototype.sort`, modelled as a stable insertion sort under a
 * comparator given as "may precede" (`le(a, b)` when `compare(a, b) <= 0`),
 * and the default string order that `sort()` without a comparator uses.
 */
module Sorting {

  /** `le` relates every pair one way or the other and is transitive. */
  ghost predicate TotalPreorder<T(!new)>(le: (T, T) -> bool) {
    && (forall a, b :: le(a, b) || le(b, a))
    && (forall a, b, c :: le(a, b) && le(b, c) ==> le(a, c))
  }

  /** Every element may precede every later one. */
  predicate SortedBy<T>(s: seq<T>, le: (T, T) -> bool) {
    forall i, j :: 0 <= i < j < |s| ==> le(s[i], s[j])
  }

  /** Inserts `x` after the last element that may precede it (so equal elements keep their order). */
  function Insert<T>(x: T, s: seq<T>, le: (T, T) -> bool): (r: seq<T>)
    ensures multiset(r) == multiset(s) + multiset{x}
  {
    if |s| == 0 || le(s[|s| - 1], x) then s + [x]
    else
      assert s == s[..|s| - 1] + [s[|s| - 1]];
      Insert(x, s[..|s| - 1], le) + [s[|s| - 1]]
  }

  /** Sorts `s` by inserting its elements one after another. */
  function InsertionSort<T>(s: seq<T>, le: (T, T) -> bool): (r: seq<T>)
    ensures multiset(r) == multiset(s)
  {
    if |s| == 0 then []
    else
      assert s == s[..|s| - 1] + [s[|s| - 1]];
      Insert(s[|s| - 1], InsertionSort(s[..|s| - 1], le), le)
  }

  /** The elements of `s` in the opposite order. */
  function Reversed<T>(s: seq<T>): (r: seq<T>)
    ensures |r| == |s|
    ensures forall i :: 0 <= i < |s| ==> r[i] == s[|s| - 1 - i]
  {
    if |s| == 0 then [] else [s[|s| - 1]] + Reversed(s[..|s| - 1])
  }

  lemma {:induction false} InsertSorted<T(!new)>(x: T, s: seq<T>, le: (T, T) -> bool)
    requires TotalPreorder(le) && SortedBy(s, le)
    ensures SortedBy(Insert(x, s, le), le)
  {
    if |s| == 0 || le(s[|s| - 1], x) {
    } else {
      var init, last := s[..|s| - 1], s[|s| - 1];
      InsertSorted(x, init, le);
      var r := Insert(x, init, le);
      forall y | y in r ensures le(y, last) {
        assert y in multiset(r);
        if y != x {
          assert y in init;
        }
      }
    }
  }

  /** The sort returns a sorted permutation of its input. */
  lemma {:induction false} InsertionSortSorted<T(!new)>(s: seq<T>, le: (T, T) -> bool)
    requires TotalPreorder(le)
    ensures SortedBy(InsertionSort(s, le), le)
    ensures multiset(InsertionSort(s, le)) == multiset(s)
  {
    if |s| > 0 {
      InsertionSortSorted(s[..|s| - 1], le);
      InsertSorted(s[|s| - 1], InsertionSort(s[..|s| - 1], le), le);
    }
  }

  /** `le` never relates two different elements of `s` both ways. */
  ghost predicate AntisymmetricOn<T>(s: seq<T>, le: (T, T) -> bool) {
    forall x, y :: x in s && y in s && le(x, y) && le(y, x) ==> x == y
  }

  lemma MultisetOfTail<T>(s: seq<T>)
    requires |s| > 0
    ensures multiset(s[1..]) == multiset(s) - multiset{s[0]}
  {
    assert s == [s[0]] + s[1..];
  }

  lemma SortedHeadsAgree<T>(a: seq<T>, b: seq<T>, le: (T, T) -> bool)
    requires |a| > 0 && multiset(a) == multiset(b)
    requires SortedBy(a, le) && SortedBy(b, le)
    requires AntisymmetricOn(a, le)
    ensures |b| > 0 && a[0] == b[0]
  {
    assert |b| == |multiset(b)| == |a|;
    assert a[0] in multiset(b) && b[0] in multiset(a);
    var k :| 0 <= k < |b| && b[k] == a[0];
    var m :| 0 <= m < |a| && a[m] == b[0];
    if m != 0 && k != 0 {
      assert le(a[0], a[m]) && le(b[0], b[k]);
    }
  }

  /** When no two elements tie, there is only one sorted order. */
  lemma {:induction false} SortedPermutationUnique<T>(a: seq<T>, b: seq<T>, le: (T, T) -> bool)
    requires multiset(a) == multiset(b)
    requires SortedBy(a, le) && SortedBy(b, le)
    requires AntisymmetricOn(a, le)
    ensures a == b
  {
    if |a| == 0 {
      assert |b| == |multiset(b)| == 0;
    } else {
      SortedHeadsAgree(a, b, le);
      MultisetOfTail(a);
      MultisetOfTail(b);
      SortedPermutationUnique(a[1..], b[1..], le);
      assert a == [a[0]] + a[1..] && b == [b[0]] + b[1..];
    }
  }

  /** Reversing a sequence sorted by `le` sorts it by the swapped comparator. */
  lemma ReversedSorted<T>(s: seq<T>, le: (T, T) -> bool, ge: (T, T) -> bool)
    requires forall x, y :: ge(x, y) == le(y, x)
    requires SortedBy(s, le)
    ensures SortedBy(Reversed(s), ge)
  {
    var r := Reversed(s);
    forall i, j | 0 <= i < j < |r| ensures ge(r[i], r[j]) {
      assert le(s[|s| - 1 - j], s[|s| - 1 - i]);
    }
  }

  lemma {:induction false} ReversedPermutes<T>(s: seq<T>)
    ensures multiset(Reversed(s)) == multiset(s)
  {
    if |s| > 0 {
      ReversedPermutes(s[..|s| - 1]);
      assert s == s[..|s| - 1] + [s[|s| - 1]];
    }
  }

  /**
   * With no ties, sorting by the swapped comparator gives the reverse of
   * sorting by the comparator.
   */
  lemma SortSwappedIsReversed<T(!new)>(s: seq<T>, le: (T, T) -> bool, ge: (T, T) -> bool)
    requires TotalPreorder(le)
    requires forall x, y :: ge(x, y) == le(y, x)
    requires AntisymmetricOn(s, le)
    ensures InsertionSort(s, ge) == Reversed(InsertionSort(s, le))
  {
    var up, down := InsertionSort(s, le), InsertionSort(s, ge);
    SwappedPreorder(le, ge);
    InsertionSortSorted(s, le);
    InsertionSortSorted(s, ge);
    ReversedSorted(up, le, ge);
    ReversedPermutes(up);
    AntisymmetricPermuted(s, down, le, ge);
    SortedPermutationUnique(down, Reversed(up), ge);
  }

  lemma SwappedPreorder<T(!new)>(le: (T, T) -> bool, ge: (T, T) -> bool)
    requires TotalPreorder(le)
    requires forall x, y :: ge(x, y) == le(y, x)
    ensures TotalPreorder(ge)
  {
    forall a, b, c | ge(a, b) && ge(b, c) ensures ge(a, c) {
      assert le(c, b) && le(b, a);
    }
  }

  /** Antisymmetry on `s` carries over to a permutation of `s` and to the swapped order. */
  lemma AntisymmetricPermuted<T>(s: seq<T>, t: seq<T>, le: (T, T) -> bool, ge: (T, T) -> bool)
    requires multiset(t) == multiset(s)
    requires forall x, y :: ge(x, y) == le(y, x)
    requires AntisymmetricOn(s, le)
    ensures AntisymmetricOn(t, ge)
  {
    forall x, y | x in t && y in t && ge(x, y) && ge(y, x) ensures x == y {
      assert x in multiset(t) && y in multiset(t);
      assert x in s && y in s;
    }
  }

  /**
   * The order `sort()` uses without a comparator: lexicographic on
   * characters, a proper prefix first.
   */
  predicate CodeUnitLe(a: string, b: string) {
    |a| == 0 || (|b| > 0 && (a[0] < b[0] || (a[0] == b[0] && CodeUnitLe(a[1..], b[1..]))))
  }

  lemma {:induction false} CodeUnitLeTotal(a: string, b: string)
    ensures CodeUnitLe(a, b) || CodeUnitLe(b, a)
  {
    if |a| > 0 && |b| > 0 && a[0] == b[0] {
      CodeUnitLeTotal(a[1..], b[1..]);
    }
  }

  lemma {:induction false} CodeUnitLeTransitive(a: string, b: string, c: string)
    requires CodeUnitLe(a, b) && CodeUnitLe(b, c)
    ensures CodeUnitLe(a, c)
  {
    if |a| > 0 && a[0] == b[0] && b[0] == c[0] {
      CodeUnitLeTransitive(a[1..], b[1..], c[1..]);
    }
  }

  lemma {:induction false} CodeUnitLeAntisymmetric(a: string, b: string)
    requires CodeUnitLe(a, b) && CodeUnitLe(b, a)
    ensures a == b
  {
    if |a| > 0 {
      CodeUnitLeAntisymmetric(a[1..], b[1..]);
      assert a == [a[0]] + a[1..] && b == [b[0]] + b[1..];
    }
  }

  /** The default string order is a total order. */
  lemma CodeUnitOrderIsTotal()
    ensures TotalPreorder(CodeUnitLe)
    ensures forall a, b :: CodeUnitLe(a, b) && CodeUnitLe(b, a) ==> a == b
  {
    forall a, b ensures CodeUnitLe(a, b) || CodeUnitLe(b, a) {
      CodeUnitLeTotal(a, b);
    }
    forall a, b, c | CodeUnitLe(a, b) && CodeUnitLe(b, c) ensures CodeUnitLe(a, c) {
      CodeUnitLeTransitive(a, b, c);
    }
    forall a, b | CodeUnitLe(a, b) && CodeUnitLe(b, a) ensures a == b {
      CodeUnitLeAntisymmetric(a, b);
    }
  }
}
