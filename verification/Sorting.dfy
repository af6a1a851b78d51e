/**
 Sorting a slice by a comparator. The result is a permutation of the input for
 every comparator; it is sorted, and the only sorted permutation, whenever the
 comparator is a strict total order on the elements.
 */
module Sorting {
  import opened Text

  ghost predicate StrictTotalOrder<T(!new)>(less: (T, T) -> bool, s: seq<T>) {
    && (forall x :: x in s ==> !less(x, x))
    && (forall x, y, z :: x in s && y in s && z in s && less(x, y) && less(y, z) ==> less(x, z))
    && (forall x, y :: x in s && y in s ==> x == y || less(x, y) || less(y, x))
  }

  ghost predicate Sorted<T>(less: (T, T) -> bool, s: seq<T>) {
    forall i, j :: 0 <= i < j < |s| ==> !less(s[j], s[i])
  }

  /** Walks `x` down from the right end past every element it precedes. */
  function Insert<T>(less: (T, T) -> bool, s: seq<T>, x: T): seq<T> {
    if s != [] && less(x, s[|s| - 1]) then Insert(less, s[..|s| - 1], x) + [s[|s| - 1]]
    else s + [x]
  }

  function InsertionSort<T>(less: (T, T) -> bool, s: seq<T>): seq<T> {
    if s == [] then [] else Insert(less, InsertionSort(less, s[..|s| - 1]), s[|s| - 1])
  }

  lemma {:induction false} InsertPermutes<T>(less: (T, T) -> bool, s: seq<T>, x: T)
    ensures multiset(Insert(less, s, x)) == multiset(s) + multiset{x}
  {
    if s != [] && less(x, s[|s| - 1]) {
      InsertPermutes(less, s[..|s| - 1], x);
      assert s == s[..|s| - 1] + [s[|s| - 1]];
    }
  }

  lemma {:induction false} SortPermutes<T>(less: (T, T) -> bool, s: seq<T>)
    ensures multiset(InsertionSort(less, s)) == multiset(s)
    ensures |InsertionSort(less, s)| == |s|
  {
    hide Insert;
    if s != [] {
      SortPermutes(less, s[..|s| - 1]);
      InsertPermutes(less, InsertionSort(less, s[..|s| - 1]), s[|s| - 1]);
      assert s == s[..|s| - 1] + [s[|s| - 1]];
    }
    assert |multiset(InsertionSort(less, s))| == |multiset(s)|;
  }

  /** Membership is all that a strict total order depends on. */
  lemma OrderOnSubset<T(!new)>(less: (T, T) -> bool, s: seq<T>, t: seq<T>)
    requires StrictTotalOrder(less, s) && forall x :: x in t ==> x in s
    ensures StrictTotalOrder(less, t)
  {
  }

  lemma {:induction false} InsertSorts<T(!new)>(less: (T, T) -> bool, s: seq<T>, x: T)
    requires StrictTotalOrder(less, s + [x]) && Sorted(less, s)
    ensures Sorted(less, Insert(less, s, x))
  {
    if s != [] && less(x, s[|s| - 1]) {
      var front, last := s[..|s| - 1], s[|s| - 1];
      OrderOnSubset(less, s + [x], front + [x]);
      InsertSorts(less, front, x);
      InsertPermutes(less, front, x);
      var r := Insert(less, front, x);
      assert Insert(less, s, x) == r + [last];
      hide Insert;
      forall i | 0 <= i < |r| ensures !less(last, r[i]) {
        assert r[i] in multiset(r);
        assert last in s + [x] && r[i] in s + [x];
      }
    } else {
      var r := s + [x];
      forall i | 0 <= i < |s| ensures !less(x, s[i]) {
        var last := s[|s| - 1];
        assert x in r && s[i] in r && last in r;
        assert i == |s| - 1 || !less(last, s[i]);
      }
    }
  }

  lemma {:induction false} SortSorts<T(!new)>(less: (T, T) -> bool, s: seq<T>)
    requires StrictTotalOrder(less, s)
    ensures Sorted(less, InsertionSort(less, s))
  {
    if s != [] {
      var front, x := s[..|s| - 1], s[|s| - 1];
      OrderOnSubset(less, s, front);
      SortSorts(less, front);
      SortPermutes(less, front);
      var r := InsertionSort(less, front);
      forall y | y in r + [x] ensures y in s {
        if y in r { assert y in multiset(r); }
      }
      OrderOnSubset(less, s, r + [x]);
      InsertSorts(less, r, x);
    }
  }

  lemma HeadsAgree<T(!new)>(less: (T, T) -> bool, s: seq<T>, t: seq<T>)
    requires StrictTotalOrder(less, s) && s != [] && t != []
    requires Sorted(less, s) && Sorted(less, t) && multiset(s) == multiset(t)
    ensures s[0] == t[0]
  {
    assert t[0] in multiset(t) && s[0] in multiset(s);
    var k :| 0 <= k < |s| && s[k] == t[0];
    var m :| 0 <= m < |t| && t[m] == s[0];
    assert k == 0 || !less(s[k], s[0]);
    assert m == 0 || !less(t[m], t[0]);
    assert s[0] in s && s[k] in s;
  }

  /** Two sorted permutations of one another are equal. */
  lemma {:induction false} SortedUnique<T(!new)>(less: (T, T) -> bool, s: seq<T>, t: seq<T>)
    requires StrictTotalOrder(less, s)
    requires Sorted(less, s) && Sorted(less, t) && multiset(s) == multiset(t)
    ensures s == t
  {
    assert |multiset(s)| == |multiset(t)|;
    if s != [] {
      HeadsAgree(less, s, t);
      SameTails(s, t);
      TailSorted(less, s);
      TailSorted(less, t);
      OrderOnSubset(less, s, s[1..]);
      hide StrictTotalOrder, Sorted;
      SortedUnique(less, s[1..], t[1..]);
      assert s == [s[0]] + s[1..] && t == [t[0]] + t[1..];
    }
  }

  lemma SameTails<T>(s: seq<T>, t: seq<T>)
    requires s != [] && t != [] && s[0] == t[0] && multiset(s) == multiset(t)
    ensures multiset(s[1..]) == multiset(t[1..])
  {
    assert s == [s[0]] + s[1..] && t == [t[0]] + t[1..];
    assert multiset(s[1..]) == multiset(s) - multiset{s[0]} == multiset(t[1..]);
  }

  lemma TailSorted<T(!new)>(less: (T, T) -> bool, s: seq<T>)
    requires Sorted(less, s) && s != []
    ensures Sorted(less, s[1..])
  {
  }

  /** No two elements share a key. */
  ghost predicate UniqueBy<T, K>(key: T -> K, s: seq<T>) {
    forall i, j :: 0 <= i < j < |s| ==> key(s[i]) != key(s[j])
  }

  lemma OccursTwice<T>(s: seq<T>, i: nat, j: nat)
    requires i < j < |s| && s[i] == s[j]
    ensures multiset(s)[s[i]] >= 2
  {
    assert s == s[..i] + [s[i]] + s[i + 1..j] + [s[j]] + s[j + 1..];
  }

  lemma OccursOnce<T, K>(key: T -> K, s: seq<T>, x: T)
    requires UniqueBy(key, s)
    ensures multiset(s)[x] <= 1
  {
    if x in s {
      var k :| 0 <= k < |s| && s[k] == x;
      assert s == s[..k] + [x] + s[k + 1..];
      assert x !in s[..k] && x !in s[k + 1..];
    }
  }

  /** Uniqueness of keys survives a permutation. */
  lemma PermutationKeepsUnique<T, K>(key: T -> K, s: seq<T>, t: seq<T>)
    requires UniqueBy(key, s) && multiset(s) == multiset(t)
    ensures UniqueBy(key, t)
  {
    forall i, j | 0 <= i < j < |t| ensures key(t[i]) != key(t[j]) {
      assert t[i] in multiset(t) && t[j] in multiset(t);
      if t[i] == t[j] {
        OccursTwice(t, i, j);
        OccursOnce(key, s, t[i]);
      } else {
        var m :| 0 <= m < |s| && s[m] == t[i];
        var n :| 0 <= n < |s| && s[n] == t[j];
        assert m < n || n < m;
      }
    }
  }

  /** Sinks element `i` into the part before it by adjacent exchanges. */
  method Sink<T>(less: (T, T) -> bool, s: seq<T>, i: nat) returns (r: seq<T>)
    requires i < |s|
    ensures r == Insert(less, s[..i], s[i]) + s[i + 1..]
  {
    r := s;
    var j := i;
    ghost var x := s[i];
    while j > 0 && less(r[j], r[j - 1])
      invariant 0 <= j <= i < |r| == |s|
      invariant r[..j] == s[..j] && r[j] == x
      invariant Insert(less, s[..i], x) + s[i + 1..] == Insert(less, s[..j], x) + r[j + 1..]
    {
      assert s[..j][..j - 1] == s[..j - 1];
      ghost var tail := r[j + 1..];
      r := r[j := r[j - 1]][j - 1 := r[j]];
      assert r[j..] == [s[j - 1]] + tail;
      assert Insert(less, s[..j], x) + tail == Insert(less, s[..j - 1], x) + ([s[j - 1]] + tail);
      j := j - 1;
    }
    assert r == s[..j] + [x] + r[j + 1..];
  }

  lemma SortStep<T>(less: (T, T) -> bool, s: seq<T>, i: nat)
    requires i < |s|
    ensures InsertionSort(less, s[..i + 1]) == Insert(less, InsertionSort(less, s[..i]), s[i])
    ensures |InsertionSort(less, s[..i + 1])| == i + 1
  {
    assert s[..i + 1][..i] == s[..i];
    SortPermutes(less, s[..i + 1]);
  }

  lemma SortNone<T>(less: (T, T) -> bool, s: seq<T>)
    ensures s == InsertionSort(less, s[..0]) + s[0..]
  {
    assert s[..0] == [];
  }

  lemma SplitAt<T>(front: seq<T>, s: seq<T>, i: nat)
    requires i < |s| && |front| == i
    ensures var r := front + s[i..]; r[..i] == front && r[i] == s[i] && r[i + 1..] == s[i + 1..]
  {
  }

  /** Sorts a slice in place, as `sort.Slice` does on short slices. */
  method SortSlice<T>(less: (T, T) -> bool, s: seq<T>) returns (r: seq<T>)
    ensures r == InsertionSort(less, s)
  {
    hide InsertionSort, Insert;
    r := s;
    var i := 0;
    SortNone(less, s);
    while i < |r|
      invariant 0 <= i <= |r| == |s|
      invariant r == InsertionSort(less, s[..i]) + s[i..]
    {
      SortPermutes(less, s[..i]);
      SplitAt(InsertionSort(less, s[..i]), s, i);
      SortStep(less, s, i);
      r := Sink(less, r, i);
      i := i + 1;
    }
    SortPermutes(less, s[..i]);
    assert s[..i] == s && s[i..] == [];
  }

  /** Sorting by distinct keys gives ascending keys. */
  lemma {:induction false} SortByKeyAscends<T(!new)>(less: (T, T) -> bool, key: T -> string, s: seq<T>)
    requires UniqueBy(key, s) && forall x, y :: less(x, y) <==> StringLess(key(x), key(y))
    ensures multiset(InsertionSort(less, s)) == multiset(s)
    ensures var r := InsertionSort(less, s);
      forall i, j :: 0 <= i < j < |r| ==> StringLess(key(r[i]), key(r[j]))
  {
    KeyOrder(less, key, s);
    SortPermutes(less, s);
    SortSorts(less, s);
    var r := InsertionSort(less, s);
    PermutationKeepsUnique(key, s, r);
    hide InsertionSort, StrictTotalOrder, StringLess;
    forall i, j | 0 <= i < j < |r| ensures StringLess(key(r[i]), key(r[j])) {
      assert !less(r[j], r[i]) && key(r[i]) != key(r[j]);
      StringLessTotal(key(r[i]), key(r[j]));
    }
  }

  lemma KeyOrder<T(!new)>(less: (T, T) -> bool, key: T -> string, s: seq<T>)
    requires UniqueBy(key, s) && forall x, y :: less(x, y) <==> StringLess(key(x), key(y))
    ensures StrictTotalOrder(less, s)
  {
    hide StringLess;
    forall x | x in s ensures !less(x, x) {
      StringLessIrreflexive(key(x));
    }
    forall x, y, z | x in s && y in s && z in s && less(x, y) && less(y, z) ensures less(x, z) {
      StringLessTransitive(key(x), key(y), key(z));
    }
    forall x, y | x in s && y in s ensures x == y || less(x, y) || less(y, x) {
      StringLessTotal(key(x), key(y));
      var i :| 0 <= i < |s| && s[i] == x;
      var j :| 0 <= j < |s| && s[j] == y;
      assert key(x) == key(y) ==> i == j;
    }
  }
}
