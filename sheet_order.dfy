/** The order `sheetsToString` puts the registry's entries in: a stable sort
    on an integer key (`Array.prototype.sort` is stable), given here as an
    insertion sort, with the facts that make it the right one: the result is
    ordered, is a permutation, keeps the relative order of equal keys, and,
    when the keys are exactly 0 … n-1, puts key k at position k. */
module SheetOrder {

  /** `t` with `x` placed after every element whose key is at most `x`'s. */
  function Insert<T>(t: seq<T>, x: T, key: T -> int): seq<T>
    decreases |t|
  {
    if t == [] then [x]
    else if key(t[|t| - 1]) <= key(x) then t + [x]
    else Insert(t[..|t| - 1], x, key) + [t[|t| - 1]]
  }

  /** The stable sort of `s` by `key`. */
  function Sort<T>(s: seq<T>, key: T -> int): seq<T>
    decreases |s|
  {
    if s == [] then [] else Insert(Sort(s[..|s| - 1], key), s[|s| - 1], key)
  }

  predicate Sorted<T>(s: seq<T>, key: T -> int) {
    forall i, j :: 0 <= i < j < |s| ==> key(s[i]) <= key(s[j])
  }

  /** The subsequence of elements whose key is `k`. */
  function Filter<T>(s: seq<T>, key: T -> int, k: int): seq<T>
    decreases |s|
  {
    if s == [] then []
    else Filter(s[..|s| - 1], key, k) + (if key(s[|s| - 1]) == k then [s[|s| - 1]] else [])
  }

  /** No two positions of `s` agree on `f`. */
  ghost predicate Distinct<T, U>(s: seq<T>, f: T -> U) {
    forall i, j :: 0 <= i < j < |s| ==> f(s[i]) != f(s[j])
  }

  // ---------------------------------------------------------------------

  lemma {:induction false} InsertMultiset<T>(t: seq<T>, x: T, key: T -> int)
    ensures multiset(Insert(t, x, key)) == multiset(t) + multiset{x}
    decreases |t|
  {
    if t != [] && key(t[|t| - 1]) > key(x) {
      InsertMultiset(t[..|t| - 1], x, key);
      assert t == t[..|t| - 1] + [t[|t| - 1]];
    }
  }

  /** The sort is a permutation of its input. */
  lemma {:induction false} SortIsPermutation<T>(s: seq<T>, key: T -> int)
    ensures multiset(Sort(s, key)) == multiset(s)
    decreases |s|
  {
    if s != [] {
      SortIsPermutation(s[..|s| - 1], key);
      InsertMultiset(Sort(s[..|s| - 1], key), s[|s| - 1], key);
      assert s == s[..|s| - 1] + [s[|s| - 1]];
    }
  }

  /** An upper bound on every key, the inserted one included, bounds every
      key after the insertion. */
  lemma {:induction false} InsertBelow<T>(t: seq<T>, x: T, key: T -> int, m: int)
    requires forall i :: 0 <= i < |t| ==> key(t[i]) <= m
    requires key(x) <= m
    ensures forall i :: 0 <= i < |Insert(t, x, key)| ==> key(Insert(t, x, key)[i]) <= m
    decreases |t|
  {
    if t != [] && key(t[|t| - 1]) > key(x) {
      var u := t[..|t| - 1];
      assert forall i :: 0 <= i < |u| ==> u[i] == t[i];
      InsertBelow(u, x, key, m);
    }
  }

  lemma {:induction false} InsertSorted<T>(t: seq<T>, x: T, key: T -> int)
    requires Sorted(t, key)
    ensures Sorted(Insert(t, x, key), key)
    ensures |Insert(t, x, key)| == |t| + 1
    decreases |t|
  {
    if t != [] && key(t[|t| - 1]) > key(x) {
      var u := t[..|t| - 1];
      var last := t[|t| - 1];
      assert forall i :: 0 <= i < |u| ==> u[i] == t[i];
      InsertSorted(u, x, key);
      InsertBelow(u, x, key, key(last));
    }
  }

  /** The sort orders its result by key. */
  lemma {:induction false} SortIsSorted<T>(s: seq<T>, key: T -> int)
    ensures Sorted(Sort(s, key), key)
    ensures |Sort(s, key)| == |s|
    decreases |s|
  {
    if s != [] {
      SortIsSorted(s[..|s| - 1], key);
      InsertSorted(Sort(s[..|s| - 1], key), s[|s| - 1], key);
    }
  }

  lemma {:induction false} InsertFilter<T>(t: seq<T>, x: T, key: T -> int, k: int)
    ensures Filter(Insert(t, x, key), key, k) == Filter(t, key, k) + (if key(x) == k then [x] else [])
    decreases |t|
  {
    if t == [] {
      assert Filter([x], key, k) == Filter([x][..0], key, k) + (if key(x) == k then [x] else []);
    } else if key(t[|t| - 1]) <= key(x) {
      assert (t + [x])[..|t|] == t;
    } else {
      var u := t[..|t| - 1];
      var last := t[|t| - 1];
      InsertFilter(u, x, key, k);
      var r := Insert(u, x, key) + [last];
      assert r[..|r| - 1] == Insert(u, x, key);
    }
  }

  /** The sort is stable: for every key, the elements with that key appear in
      the same relative order as in the input. */
  lemma {:induction false} SortIsStable<T>(s: seq<T>, key: T -> int, k: int)
    ensures Filter(Sort(s, key), key, k) == Filter(s, key, k)
    decreases |s|
  {
    if s != [] {
      SortIsStable(s[..|s| - 1], key, k);
      InsertFilter(Sort(s[..|s| - 1], key), s[|s| - 1], key, k);
    }
  }

  lemma {:induction false} FilterAllEqual<T>(s: seq<T>, key: T -> int, k: int)
    requires forall i :: 0 <= i < |s| ==> key(s[i]) == k
    ensures Filter(s, key, k) == s
    decreases |s|
  {
    if s != [] {
      FilterAllEqual(s[..|s| - 1], key, k);
      assert s == s[..|s| - 1] + [s[|s| - 1]];
    }
  }

  /** When every key is the same the sort leaves its input as it is. */
  lemma SortEqualKeysIsIdentity<T>(s: seq<T>, key: T -> int, k: int)
    requires forall i :: 0 <= i < |s| ==> key(s[i]) == k
    ensures Sort(s, key) == s
  {
    SortIsStable(s, key, k);
    SortIsPermutation(s, key);
    SortIsSorted(s, key);
    var t := Sort(s, key);
    forall i | 0 <= i < |t| ensures key(t[i]) == k {
      assert t[i] in multiset(s);
    }
    FilterAllEqual(s, key, k);
    FilterAllEqual(t, key, k);
  }

  lemma {:induction false} InsertDistinct<T, U>(t: seq<T>, x: T, key: T -> int, f: T -> U)
    requires Distinct(t, f)
    requires forall i :: 0 <= i < |t| ==> f(t[i]) != f(x)
    ensures Distinct(Insert(t, x, key), f)
    decreases |t|
  {
    if t == [] {
    } else if key(t[|t| - 1]) <= key(x) {
    } else {
      var u := t[..|t| - 1];
      var last := t[|t| - 1];
      InsertDistinct(u, x, key, f);
      InsertMultiset(u, x, key);
      var r := Insert(u, x, key);
      forall i | 0 <= i < |r| ensures f(r[i]) != f(last) {
        assert r[i] in multiset(r);
        if r[i] != x {
          assert r[i] in multiset(u);
          var k :| 0 <= k < |u| && u[k] == r[i];
          assert u[k] == t[k];
        }
      }
    }
  }

  /** Elements that no two positions share an `f`-value in keep that property
      through the sort. */
  lemma {:induction false} SortKeepsDistinct<T, U>(s: seq<T>, key: T -> int, f: T -> U)
    requires Distinct(s, f)
    ensures Distinct(Sort(s, key), f)
    decreases |s|
  {
    if s != [] {
      var u := s[..|s| - 1];
      var last := s[|s| - 1];
      SortKeepsDistinct(u, key, f);
      SortIsPermutation(u, key);
      var t := Sort(u, key);
      forall i | 0 <= i < |t| ensures f(t[i]) != f(last) {
        assert t[i] in multiset(u);
        var k :| 0 <= k < |u| && u[k] == t[i];
        assert u[k] == s[k];
      }
      InsertDistinct(t, last, key, f);
    }
  }

  lemma {:induction false} IncreasingFromBelow(t: seq<int>, i: nat)
    requires forall a, b :: 0 <= a < b < |t| ==> t[a] < t[b]
    requires forall a :: 0 <= a < |t| ==> 0 <= t[a]
    requires i < |t|
    ensures t[i] >= i
  {
    if i > 0 {
      IncreasingFromBelow(t, i - 1);
    }
  }

  lemma {:induction false} IncreasingFromAbove(t: seq<int>, i: nat)
    requires forall a, b :: 0 <= a < b < |t| ==> t[a] < t[b]
    requires forall a :: 0 <= a < |t| ==> t[a] < |t|
    requires i < |t|
    ensures t[i] <= i
    decreases |t| - i
  {
    if i < |t| - 1 {
      IncreasingFromAbove(t, i + 1);
    }
  }

  /** When the keys are pairwise distinct and all lie in 0 … n-1 (n the
      length), the sort puts the element with key k at position k. */
  lemma SortByPosition<T>(s: seq<T>, key: T -> int)
    requires Distinct(s, key)
    requires forall i :: 0 <= i < |s| ==> 0 <= key(s[i]) < |s|
    ensures |Sort(s, key)| == |s|
    ensures forall k :: 0 <= k < |s| ==> key(Sort(s, key)[k]) == k
  {
    var t := Sort(s, key);
    SortIsSorted(s, key);
    SortIsPermutation(s, key);
    SortKeepsDistinct(s, key, key);
    var keys := seq(|t|, i requires 0 <= i < |t| => key(t[i]));
    forall i | 0 <= i < |t| ensures 0 <= keys[i] < |t| {
      assert t[i] in multiset(s);
      var j :| 0 <= j < |s| && s[j] == t[i];
    }
    assert forall a, b :: 0 <= a < b < |t| ==> keys[a] < keys[b];
    forall k | 0 <= k < |t| ensures key(t[k]) == k {
      IncreasingFromBelow(keys, k);
      IncreasingFromAbove(keys, k);
      assert keys[k] == key(t[k]);
    }
  }
}
