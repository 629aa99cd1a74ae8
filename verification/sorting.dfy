/** `Array.prototype.sort` with a comparator that ranks by a key, as the
    dashboards use it (orders newest first, settlement rows latest date
    first). The sort is stable, as ECMAScript 2019 requires, so with a
    comparator consistent with a strict weak order the result is determined: it
    is the insertion sort below, where an element goes after every element
    it does not outrank. `gt(a, b)` means key `a` sorts before key `b`. */
module Sorting {
  import opened Collections

  /** `gt` is irreflexive and transitive. */
  ghost predicate StrictOrder<K(!new)>(gt: (K, K) -> bool)
  {
    && (forall a :: !gt(a, a))
    && (forall a, b, c :: gt(a, b) && gt(b, c) ==> gt(a, c))
  }

  /** No element outranks an earlier one. */
  predicate SortedBy<T, K>(s: seq<T>, key: T -> K, gt: (K, K) -> bool)
  {
    forall i, j :: 0 <= i < j < |s| ==> !gt(key(s[j]), key(s[i]))
  }

  /** No two elements share a key. */
  predicate KeysDistinct<T, K(==)>(s: seq<T>, key: T -> K)
  {
    forall i, j :: 0 <= i < j < |s| ==> key(s[i]) != key(s[j])
  }

  /** The elements whose key is `k`. */
  function KeyIs<T, K(==)>(key: T -> K, k: K): T -> bool
  {
    x => key(x) == k
  }

  /** `x` placed before the first element it outranks. */
  function Insert<T, K>(x: T, s: seq<T>, key: T -> K, gt: (K, K) -> bool): (r: seq<T>)
    ensures |r| == |s| + 1
    ensures multiset(r) == multiset(s) + multiset{x}
    decreases |s|
  {
    if |s| == 0 then [x]
    else if gt(key(x), key(s[0])) then [x] + s
    else
      assert s == [s[0]] + s[1..];
      [s[0]] + Insert(x, s[1..], key, gt)
  }

  /** The stable sort: each element, left to right, inserted into the sorted
      prefix. */
  function Sort<T, K>(s: seq<T>, key: T -> K, gt: (K, K) -> bool): (r: seq<T>)
    ensures |r| == |s|
    ensures multiset(r) == multiset(s)
    decreases |s|
  {
    if |s| == 0 then []
    else
      assert s == s[..|s| - 1] + [s[|s| - 1]];
      Insert(s[|s| - 1], Sort(s[..|s| - 1], key, gt), key, gt)
  }

  /** The tail of a sorted list is sorted. */
  lemma {:induction false} SortedTail<T, K>(s: seq<T>, key: T -> K, gt: (K, K) -> bool)
    requires |s| > 0 && SortedBy(s, key, gt)
    ensures SortedBy(s[1..], key, gt)
  {
    var tail := s[1..];
    forall i, j | 0 <= i < j < |tail|
      ensures !gt(key(tail[j]), key(tail[i]))
    {
      assert tail[i] == s[i + 1] && tail[j] == s[j + 1];
    }
  }

  /** Every element of `Insert(x, s)` is `x` or an element of `s`. */
  lemma {:induction false} InsertFrom<T, K>(x: T, s: seq<T>, key: T -> K, gt: (K, K) -> bool)
    ensures forall y :: y in Insert(x, s, key, gt) ==> y == x || y in s
  {
    var r := Insert(x, s, key, gt);
    forall y | y in r
      ensures y == x || y in s
    {
      assert y in multiset(r);
    }
  }

  /** Placing `x` in front of an element it outranks keeps a sorted list
      sorted. */
  lemma {:induction false} InsertSortedFront<T, K(!new)>(x: T, s: seq<T>, key: T -> K, gt: (K, K) -> bool)
    requires StrictOrder(gt) && SortedBy(s, key, gt)
    requires |s| > 0 && gt(key(x), key(s[0]))
    ensures SortedBy(Insert(x, s, key, gt), key, gt)
  {
    var r := Insert(x, s, key, gt);
    assert r == [x] + s;
    forall i, j | 0 <= i < j < |r|
      ensures !gt(key(r[j]), key(r[i]))
    {
      assert r[j] == s[j - 1];
      if i == 0 {
        if j - 1 > 0 {
          assert !gt(key(s[j - 1]), key(s[0]));
        }
      } else {
        assert r[i] == s[i - 1];
      }
    }
  }

  /** Passing an element `x` does not outrank keeps the list sorted when the
      insertion into the tail does. */
  lemma {:induction false} InsertSortedSkip<T, K>(x: T, s: seq<T>, key: T -> K, gt: (K, K) -> bool)
    requires SortedBy(s, key, gt)
    requires |s| > 0 && !gt(key(x), key(s[0]))
    requires SortedBy(Insert(x, s[1..], key, gt), key, gt)
    ensures SortedBy(Insert(x, s, key, gt), key, gt)
  {
    var tail := s[1..];
    var r := Insert(x, s, key, gt);
    var rt := Insert(x, tail, key, gt);
    assert r == [s[0]] + rt;
    InsertFrom(x, tail, key, gt);
    forall i, j | 0 <= i < j < |r|
      ensures !gt(key(r[j]), key(r[i]))
    {
      assert r[j] == rt[j - 1];
      if i == 0 {
        assert rt[j - 1] in rt;
        if rt[j - 1] != x {
          var m :| 0 <= m < |tail| && tail[m] == rt[j - 1];
          assert s[m + 1] == rt[j - 1];
        }
      } else {
        assert r[i] == rt[i - 1];
      }
    }
  }

  lemma {:induction false} InsertSorted<T, K(!new)>(x: T, s: seq<T>, key: T -> K, gt: (K, K) -> bool)
    requires StrictOrder(gt) && SortedBy(s, key, gt)
    ensures SortedBy(Insert(x, s, key, gt), key, gt)
    decreases |s|
  {
    if |s| > 0 && !gt(key(x), key(s[0])) {
      SortedTail(s, key, gt);
      InsertSorted(x, s[1..], key, gt);
      InsertSortedSkip(x, s, key, gt);
    } else if |s| > 0 {
      InsertSortedFront(x, s, key, gt);
    }
  }

  /** The result is in order. */
  lemma {:induction false} SortSorted<T, K(!new)>(s: seq<T>, key: T -> K, gt: (K, K) -> bool)
    requires StrictOrder(gt)
    ensures SortedBy(Sort(s, key, gt), key, gt)
    decreases |s|
  {
    if |s| > 0 {
      SortSorted(s[..|s| - 1], key, gt);
      InsertSorted(s[|s| - 1], Sort(s[..|s| - 1], key, gt), key, gt);
    }
  }

  /** No element of a sorted list that `x` outranks is followed by one with
      `x`'s key. */
  lemma {:induction false} NoKeyAfter<T, K(!new)>(x: T, s: seq<T>, key: T -> K, gt: (K, K) -> bool)
    requires StrictOrder(gt) && SortedBy(s, key, gt)
    requires |s| > 0 && gt(key(x), key(s[0]))
    ensures forall i :: 0 <= i < |s| ==> key(s[i]) != key(x)
  {
    forall i | 0 <= i < |s|
      ensures key(s[i]) != key(x)
    {
      if i > 0 {
        assert !gt(key(s[i]), key(s[0]));
      }
    }
  }

  /** The elements of key `k` in `[y] + s`. */
  lemma {:induction false} FilterCons<T>(y: T, s: seq<T>, p: T -> bool)
    ensures Filter([y] + s, p) == (if p(y) then [y] else []) + Filter(s, p)
  {
    FilterAppend([y], s, p);
    assert [y][..0] == [];
  }

  /** An element placed in front of everything of a lower rank comes after
      every element of its own key. */
  lemma {:induction false} InsertStableFront<T, K(!new)>(x: T, s: seq<T>, key: T -> K, gt: (K, K) -> bool, k: K)
    requires StrictOrder(gt) && SortedBy(s, key, gt)
    requires |s| > 0 && gt(key(x), key(s[0]))
    ensures Filter(Insert(x, s, key, gt), KeyIs(key, k))
         == Filter(s, KeyIs(key, k)) + (if key(x) == k then [x] else [])
  {
    var p := KeyIs(key, k);
    assert Insert(x, s, key, gt) == [x] + s;
    FilterCons(x, s, p);
    if key(x) == k {
      NoKeyAfter(x, s, key, gt);
      FilterNone(s, p);
    }
  }

  /** Putting the same element in front of two lists keeps a relation
      between their filters. */
  lemma {:induction false} FilterConsShift<T>(y: T, a: seq<T>, b: seq<T>, extra: seq<T>, p: T -> bool)
    requires Filter(a, p) == Filter(b, p) + extra
    ensures Filter([y] + a, p) == Filter([y] + b, p) + extra
  {
    var head := if p(y) then [y] else [];
    calc {
      Filter([y] + a, p);
      { FilterCons(y, a, p); }
      head + Filter(a, p);
      head + (Filter(b, p) + extra);
      (head + Filter(b, p)) + extra;
      { FilterCons(y, b, p); }
      Filter([y] + b, p) + extra;
    }
  }

  /** The step past an element that `x` does not outrank. */
  lemma {:induction false} InsertStableSkip<T, K>(x: T, s: seq<T>, key: T -> K, gt: (K, K) -> bool, k: K)
    requires |s| > 0 && !gt(key(x), key(s[0]))
    requires Filter(Insert(x, s[1..], key, gt), KeyIs(key, k))
          == Filter(s[1..], KeyIs(key, k)) + (if key(x) == k then [x] else [])
    ensures Filter(Insert(x, s, key, gt), KeyIs(key, k))
         == Filter(s, KeyIs(key, k)) + (if key(x) == k then [x] else [])
  {
    var tail := s[1..];
    assert Insert(x, s, key, gt) == [s[0]] + Insert(x, tail, key, gt);
    assert s == [s[0]] + tail;
    FilterConsShift(s[0], Insert(x, tail, key, gt), tail, if key(x) == k then [x] else [], KeyIs(key, k));
  }

  lemma {:induction false} InsertStable<T, K(!new)>(x: T, s: seq<T>, key: T -> K, gt: (K, K) -> bool, k: K)
    requires StrictOrder(gt) && SortedBy(s, key, gt)
    ensures Filter(Insert(x, s, key, gt), KeyIs(key, k))
         == Filter(s, KeyIs(key, k)) + (if key(x) == k then [x] else [])
    decreases |s|
  {
    if |s| == 0 {
      FilterCons(x, [], KeyIs(key, k));
      assert [x] + [] == [x];
    } else if gt(key(x), key(s[0])) {
      InsertStableFront(x, s, key, gt, k);
    } else {
      SortedTail(s, key, gt);
      InsertStable(x, s[1..], key, gt, k);
      InsertStableSkip(x, s, key, gt, k);
    }
  }

  /** Stability: the elements sharing any one key keep their relative order. */
  lemma {:induction false} SortStable<T, K(!new)>(s: seq<T>, key: T -> K, gt: (K, K) -> bool, k: K)
    requires StrictOrder(gt)
    ensures Filter(Sort(s, key, gt), KeyIs(key, k)) == Filter(s, KeyIs(key, k))
    decreases |s|
  {
    if |s| > 0 {
      var init := s[..|s| - 1];
      SortStable(init, key, gt, k);
      SortSorted(init, key, gt);
      InsertStable(s[|s| - 1], Sort(init, key, gt), key, gt, k);
    }
  }

  lemma {:induction false} InsertKeysDistinct<T, K>(x: T, s: seq<T>, key: T -> K, gt: (K, K) -> bool)
    requires KeysDistinct(s, key)
    requires forall i :: 0 <= i < |s| ==> key(s[i]) != key(x)
    ensures KeysDistinct(Insert(x, s, key, gt), key)
    decreases |s|
  {
    if |s| > 0 && !gt(key(x), key(s[0])) {
      var tail := s[1..];
      InsertKeysDistinct(x, tail, key, gt);
      var r := Insert(x, s, key, gt);
      var rt := Insert(x, tail, key, gt);
      assert r == [s[0]] + rt;
      forall j | 1 <= j < |r|
        ensures key(r[j]) != key(s[0])
      {
        assert r[j] in multiset(rt);
        if r[j] != x {
          assert r[j] in multiset(tail);
          var m :| 0 <= m < |tail| && tail[m] == r[j];
          assert s[m + 1] == r[j];
        }
      }
    } else if |s| > 0 {
      assert Insert(x, s, key, gt) == [x] + s;
    }
  }

  /** Sorting keeps keys distinct. */
  lemma {:induction false} SortKeysDistinct<T, K>(s: seq<T>, key: T -> K, gt: (K, K) -> bool)
    requires KeysDistinct(s, key)
    ensures KeysDistinct(Sort(s, key, gt), key)
    decreases |s|
  {
    if |s| > 0 {
      var init := s[..|s| - 1];
      var x := s[|s| - 1];
      SortKeysDistinct(init, key, gt);
      var sorted := Sort(init, key, gt);
      forall i | 0 <= i < |sorted|
        ensures key(sorted[i]) != key(x)
      {
        assert sorted[i] in multiset(init);
        var m :| 0 <= m < |init| && init[m] == sorted[i];
        assert s[m] == sorted[i];
      }
      InsertKeysDistinct(x, sorted, key, gt);
    }
  }
}
