/** `Array.prototype.sort` with a comparator that subtracts numeric keys:
    a stable sort into non-decreasing key order (ECMAScript 2019 and later
    require stability). It is written as an insertion sort: each element,
    taken in input order, is placed after every element whose key is not
    greater than its own. */
module Sorting {
  import opened Seqs

  predicate SortedBy<T>(s: seq<T>, key: T -> real) {
    forall i, j :: 0 <= i < j < |s| ==> key(s[i]) <= key(s[j])
  }

  /** The elements with key `k`, as a filter predicate. */
  function HasKey<T>(key: T -> real, k: real): T -> bool {
    x => key(x) == k
  }

  /** Places `x` after every element of `sorted` whose key is at most
      `key(x)`. */
  function Insert<T>(sorted: seq<T>, x: T, key: T -> real): (r: seq<T>)
    ensures |r| == |sorted| + 1
    decreases |sorted|
  {
    if |sorted| == 0 then [x]
    else
      var last := sorted[|sorted| - 1];
      if key(x) < key(last) then Insert(sorted[..|sorted| - 1], x, key) + [last]
      else sorted + [x]
  }

  /** The stable sort of `s` by `key`. */
  function SortBy<T>(s: seq<T>, key: T -> real): (r: seq<T>)
    ensures |r| == |s|
    decreases |s|
  {
    if |s| == 0 then [] else Insert(SortBy(s[..|s| - 1], key), s[|s| - 1], key)
  }

  // ------------------------------------------------------------ permutation

  lemma {:induction false} InsertPermutes<T>(sorted: seq<T>, x: T, key: T -> real)
    ensures multiset(Insert(sorted, x, key)) == multiset(sorted) + multiset{x}
    decreases |sorted|
  {
    if |sorted| > 0 {
      var pre, last := sorted[..|sorted| - 1], sorted[|sorted| - 1];
      assert sorted == pre + [last];
      if key(x) < key(last) {
        InsertPermutes(pre, x, key);
      }
    }
  }

  /** The result is a rearrangement of the input. */
  lemma {:induction false} SortPermutes<T>(s: seq<T>, key: T -> real)
    ensures multiset(SortBy(s, key)) == multiset(s)
    decreases |s|
  {
    if |s| > 0 {
      var pre := s[..|s| - 1];
      SortPermutes(pre, key);
      InsertPermutes(SortBy(pre, key), s[|s| - 1], key);
      assert s == pre + [s[|s| - 1]];
    }
  }

  // ---------------------------------------------------------------- order

  /** Every element of the inserted sequence is `x` or one of `sorted`. */
  lemma InsertMembers<T>(sorted: seq<T>, x: T, key: T -> real)
    ensures forall y :: y in Insert(sorted, x, key) ==> y == x || y in sorted
  {
    InsertPermutes(sorted, x, key);
    forall y | y in Insert(sorted, x, key) ensures y == x || y in sorted {
      assert y in multiset(Insert(sorted, x, key));
    }
  }

  lemma {:induction false} InsertSorted<T>(sorted: seq<T>, x: T, key: T -> real)
    requires SortedBy(sorted, key)
    ensures SortedBy(Insert(sorted, x, key), key)
    decreases |sorted|
  {
    if |sorted| > 0 {
      var pre, last := sorted[..|sorted| - 1], sorted[|sorted| - 1];
      if key(x) < key(last) {
        InsertSorted(pre, x, key);
        InsertMembers(pre, x, key);
        var r := Insert(pre, x, key);
        assert forall i :: 0 <= i < |r| ==> key(r[i]) <= key(last) by {
          forall i | 0 <= i < |r| ensures key(r[i]) <= key(last) {
            assert r[i] in r;
          }
        }
      }
    }
  }

  /** The result is in non-decreasing key order. */
  lemma {:induction false} SortSorted<T>(s: seq<T>, key: T -> real)
    ensures SortedBy(SortBy(s, key), key)
    decreases |s|
  {
    if |s| > 0 {
      SortSorted(s[..|s| - 1], key);
      InsertSorted(SortBy(s[..|s| - 1], key), s[|s| - 1], key);
    }
  }

  // ------------------------------------------------------------- stability

  /** Two singletons, at most one of which has key `k`, filter the same in
      either order. */
  lemma SwapSingletons<T>(x: T, y: T, key: T -> real, k: real)
    requires key(x) < key(y)
    ensures Filter([x], HasKey(key, k)) + Filter([y], HasKey(key, k))
            == Filter([y], HasKey(key, k)) + Filter([x], HasKey(key, k))
  {
  }

  lemma {:induction false} InsertStable<T>(sorted: seq<T>, x: T, key: T -> real, k: real)
    ensures Filter(Insert(sorted, x, key), HasKey(key, k))
            == Filter(sorted, HasKey(key, k)) + Filter([x], HasKey(key, k))
    decreases |sorted|
  {
    var p := HasKey(key, k);
    if |sorted| == 0 {
      assert Filter(sorted, p) == [];
    } else {
      var pre, last := sorted[..|sorted| - 1], sorted[|sorted| - 1];
      assert sorted == pre + [last];
      if key(x) < key(last) {
        InsertStable(pre, x, key, k);
        InsertStableShift(pre, last, x, key, k);
      } else {
        FilterAppend(sorted, [x], p);
      }
    }
  }

  /** The step where `x` moves in front of a last element of greater key. */
  lemma InsertStableShift<T>(pre: seq<T>, last: T, x: T, key: T -> real, k: real)
    requires key(x) < key(last)
    requires Filter(Insert(pre, x, key), HasKey(key, k)) == Filter(pre, HasKey(key, k)) + Filter([x], HasKey(key, k))
    ensures Filter(Insert(pre, x, key) + [last], HasKey(key, k))
            == Filter(pre + [last], HasKey(key, k)) + Filter([x], HasKey(key, k))
  {
    var p := HasKey(key, k);
    FilterAppend(pre, [last], p);
    FilterAppend(Insert(pre, x, key), [last], p);
    SwapSingletons(x, last, key, k);
  }

  /** Stability: for every key value, the elements with that key keep their
      relative input order. */
  lemma {:induction false} SortStable<T>(s: seq<T>, key: T -> real, k: real)
    ensures Filter(SortBy(s, key), HasKey(key, k)) == Filter(s, HasKey(key, k))
    decreases |s|
  {
    if |s| > 0 {
      var pre, x := s[..|s| - 1], s[|s| - 1];
      assert s == pre + [x];
      FilterAppend(pre, [x], HasKey(key, k));
      SortStable(pre, key, k);
      InsertStable(SortBy(pre, key), x, key, k);
    }
  }

  /** Input already in order is left as it is. */
  lemma {:induction false} SortOfSorted<T>(s: seq<T>, key: T -> real)
    requires SortedBy(s, key)
    ensures SortBy(s, key) == s
    decreases |s|
  {
    if |s| > 0 {
      var pre := s[..|s| - 1];
      assert SortedBy(pre, key);
      SortOfSorted(pre, key);
    }
  }
}
