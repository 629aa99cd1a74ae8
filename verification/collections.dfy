/** The array idioms the updaters are built from: `filter`, `map` with a
    conditional replacement, `reduce` into a sum and `find`. Each recursion
    peels the LAST element, so it follows the left-to-right order in which
    JavaScript visits an array. */
module Collections {
  import opened Wrappers

  /** `s.filter(p)`. */
  function Filter<T>(s: seq<T>, p: T -> bool): (r: seq<T>)
    ensures |r| <= |s|
    ensures forall i :: 0 <= i < |r| ==> p(r[i]) && r[i] in s
    ensures forall i :: 0 <= i < |s| && p(s[i]) ==> s[i] in r
    decreases |s|
  {
    if |s| == 0 then []
    else Filter(s[..|s| - 1], p) + (if p(s[|s| - 1]) then [s[|s| - 1]] else [])
  }

  lemma {:induction false} FilterAppend<T>(a: seq<T>, b: seq<T>, p: T -> bool)
    ensures Filter(a + b, p) == Filter(a, p) + Filter(b, p)
    decreases |b|
  {
    if |b| == 0 {
      assert a + b == a;
    } else {
      assert (a + b)[..|a + b| - 1] == a + b[..|b| - 1];
      FilterAppend(a, b[..|b| - 1], p);
    }
  }

  lemma {:induction false} FilterNone<T>(s: seq<T>, p: T -> bool)
    requires forall i :: 0 <= i < |s| ==> !p(s[i])
    ensures Filter(s, p) == []
    decreases |s|
  {
    if |s| > 0 {
      FilterNone(s[..|s| - 1], p);
    }
  }

  lemma {:induction false} FilterAll<T>(s: seq<T>, p: T -> bool)
    requires forall i :: 0 <= i < |s| ==> p(s[i])
    ensures Filter(s, p) == s
    decreases |s|
  {
    if |s| > 0 {
      FilterAll(s[..|s| - 1], p);
      assert s[..|s| - 1] + [s[|s| - 1]] == s;
    }
  }

  /** Keeping the untagged elements and appending tagged ones: the untagged
      elements are exactly those kept, in order, and the tagged ones exactly
      those appended. */
  lemma {:induction false} FilterReplace<T>(s: seq<T>, keep: T -> bool, tagged: T -> bool, tail: seq<T>)
    requires forall x :: keep(x) == !tagged(x)
    requires forall i :: 0 <= i < |tail| ==> tagged(tail[i])
    ensures Filter(Filter(s, keep) + tail, keep) == Filter(s, keep)
    ensures Filter(Filter(s, keep) + tail, tagged) == tail
  {
    var f := Filter(s, keep);
    FilterAppend(f, tail, keep);
    FilterAppend(f, tail, tagged);
    FilterAll(f, keep);
    FilterNone(f, tagged);
    FilterNone(tail, keep);
    FilterAll(tail, tagged);
    assert f + [] == f;
    assert [] + tail == tail;
  }

  /** `[...s.filter(keep), ...tail]` with `tail` all tagged and `keep` the
      untagged elements: the untagged elements of `s` stay, in order and
      nothing else untagged appears, and the tagged elements are exactly
      `tail`, at the end. */
  function ReplaceTagged<T(!new)>(s: seq<T>, keep: T -> bool, tagged: T -> bool, tail: seq<T>): (r: seq<T>)
    requires forall x :: keep(x) == !tagged(x)
    requires forall i :: 0 <= i < |tail| ==> tagged(tail[i])
    ensures r == Filter(s, keep) + tail
    ensures Filter(r, keep) == Filter(s, keep)
    ensures Filter(r, tagged) == tail
  {
    FilterReplace(s, keep, tagged, tail);
    Filter(s, keep) + tail
  }

  /** Filtering keeps every kept element in its original relative order: the
      elements satisfying `p` form the result, the others are dropped. */
  lemma {:induction false} FilterSplit<T>(s: seq<T>, p: T -> bool)
    ensures |Filter(s, p)| + |Filter(s, x => !p(x))| == |s|
    decreases |s|
  {
    if |s| > 0 {
      FilterSplit(s[..|s| - 1], p);
    }
  }

  /** `s.map(x => p(x) ? f(x) : x)`. */
  function MapWhere<T>(s: seq<T>, p: T -> bool, f: T -> T): (r: seq<T>)
    ensures |r| == |s|
    ensures forall i :: 0 <= i < |s| ==> r[i] == (if p(s[i]) then f(s[i]) else s[i])
  {
    seq(|s|, i requires 0 <= i < |s| => if p(s[i]) then f(s[i]) else s[i])
  }

  /** The elements of a permutation of a filtered list come from the list
      and pass the filter. */
  lemma {:induction false} SameElementsIn<T>(r: seq<T>, mine: seq<T>, s: seq<T>, p: T -> bool)
    requires mine == Filter(s, p) && multiset(r) == multiset(mine)
    ensures forall i :: 0 <= i < |r| ==> r[i] in s && p(r[i])
  {
    forall i | 0 <= i < |r|
      ensures r[i] in s && p(r[i])
    {
      assert r[i] in multiset(mine);
      var k :| 0 <= k < |mine| && mine[k] == r[i];
    }
  }

  /** `s.reduce((acc, x) => acc + f(x), 0)`. */
  function Sum<T>(s: seq<T>, f: T -> real): real
    decreases |s|
  {
    if |s| == 0 then 0.0 else Sum(s[..|s| - 1], f) + f(s[|s| - 1])
  }

  lemma {:induction false} SumAppend<T>(a: seq<T>, b: seq<T>, f: T -> real)
    ensures Sum(a + b, f) == Sum(a, f) + Sum(b, f)
    decreases |b|
  {
    if |b| == 0 {
      assert a + b == a;
    } else {
      assert (a + b)[..|a + b| - 1] == a + b[..|b| - 1];
      SumAppend(a, b[..|b| - 1], f);
    }
  }

  /** A sum of non-negative terms is non-negative. */
  lemma {:induction false} SumNonNegative<T>(s: seq<T>, f: T -> real)
    requires forall i :: 0 <= i < |s| ==> f(s[i]) >= 0.0
    ensures Sum(s, f) >= 0.0
    decreases |s|
  {
    if |s| > 0 {
      SumNonNegative(s[..|s| - 1], f);
    }
  }

  /** Filters by pointwise equal predicates agree. */
  lemma {:induction false} FilterSameAs<T>(s: seq<T>, p: T -> bool, q: T -> bool)
    requires forall i :: 0 <= i < |s| ==> p(s[i]) == q(s[i])
    ensures Filter(s, p) == Filter(s, q)
    decreases |s|
  {
    if |s| > 0 {
      FilterSameAs(s[..|s| - 1], p, q);
    }
  }

  /** When `a` and `b` split the elements satisfying `p` between them, their
      filters split the filter by `p`. */
  lemma {:induction false} FilterPartition<T>(s: seq<T>, p: T -> bool, a: T -> bool, b: T -> bool)
    requires forall i :: 0 <= i < |s| ==> p(s[i]) == (a(s[i]) || b(s[i])) && !(a(s[i]) && b(s[i]))
    ensures |Filter(s, a)| + |Filter(s, b)| == |Filter(s, p)|
    decreases |s|
  {
    if |s| > 0 {
      FilterPartition(s[..|s| - 1], p, a, b);
    }
  }

  /** Summing over the elements that satisfy `p` is summing a `g` that is
      `f` where `p` holds and 0 elsewhere. */
  lemma {:induction false} SumFilter<T>(s: seq<T>, p: T -> bool, f: T -> real, g: T -> real)
    requires forall i :: 0 <= i < |s| ==> g(s[i]) == if p(s[i]) then f(s[i]) else 0.0
    ensures Sum(Filter(s, p), f) == Sum(s, g)
    decreases |s|
  {
    if |s| > 0 {
      var init := s[..|s| - 1];
      var last := s[|s| - 1];
      SumFilter(init, p, f, g);
      SumAppend(Filter(init, p), if p(last) then [last] else [], f);
    }
  }

  /** A constant factor comes out of a sum. */
  lemma {:induction false} SumScale<T>(s: seq<T>, c: real, f: T -> real, g: T -> real)
    requires forall i :: 0 <= i < |s| ==> g(s[i]) == c * f(s[i])
    ensures Sum(s, g) == c * Sum(s, f)
    decreases |s|
  {
    if |s| > 0 {
      SumScale(s[..|s| - 1], c, f, g);
    }
  }

  /** A sum of pointwise sums is the sum of the sums. */
  lemma {:induction false} SumPlus<T>(s: seq<T>, f: T -> real, g: T -> real, h: T -> real)
    requires forall i :: 0 <= i < |s| ==> h(s[i]) == f(s[i]) + g(s[i])
    ensures Sum(s, h) == Sum(s, f) + Sum(s, g)
    decreases |s|
  {
    if |s| > 0 {
      SumPlus(s[..|s| - 1], f, g, h);
    }
  }

  /** Summing over a list whose terms are, position by position, the terms
      over another list plus an extra term. */
  lemma {:induction false} SumAlong<A, B>(s: seq<A>, t: seq<B>, f: A -> real, g: B -> real, h: A -> real)
    requires |s| == |t|
    requires forall i :: 0 <= i < |s| ==> g(t[i]) == f(s[i]) + h(s[i])
    ensures Sum(t, g) == Sum(s, f) + Sum(s, h)
    decreases |s|
  {
    if |s| > 0 {
      SumAlong(s[..|s| - 1], t[..|t| - 1], f, g, h);
    }
  }

  /** `s.map(f).filter(Boolean)` where `f` yields an object or `undefined`:
      the present results, in order. */
  function MapSome<A, B>(s: seq<A>, f: A -> Option<B>): (r: seq<B>)
    ensures |r| <= |s|
    decreases |s|
  {
    if |s| == 0 then []
    else
      match f(s[|s| - 1])
      case None => MapSome(s[..|s| - 1], f)
      case Some(b) => MapSome(s[..|s| - 1], f) + [b]
  }

  /** Every result comes from some element. */
  lemma {:induction false} MapSomeFrom<A, B>(s: seq<A>, f: A -> Option<B>)
    ensures forall k :: 0 <= k < |MapSome(s, f)| ==> exists j :: 0 <= j < |s| && f(s[j]) == Some(MapSome(s, f)[k])
    decreases |s|
  {
    if |s| > 0 {
      var init := s[..|s| - 1];
      MapSomeFrom(init, f);
      var r := MapSome(s, f);
      var ri := MapSome(init, f);
      forall k | 0 <= k < |r|
        ensures exists j :: 0 <= j < |s| && f(s[j]) == Some(r[k])
      {
        if k < |ri| {
          assert r[k] == ri[k];
          var j :| 0 <= j < |init| && f(init[j]) == Some(ri[k]);
          assert s[j] == init[j];
        } else {
          assert f(s[|s| - 1]) == Some(r[k]);
        }
      }
    } else {
      assert MapSome(s, f) == [];
    }
  }

  /** When `f` yields a result for every element, there is one result per
      element, in order. */
  lemma {:induction false} MapSomeAll<A, B>(s: seq<A>, f: A -> Option<B>)
    requires forall i :: 0 <= i < |s| ==> f(s[i]).Some?
    ensures |MapSome(s, f)| == |s|
    ensures forall i :: 0 <= i < |s| ==> MapSome(s, f)[i] == f(s[i]).value
    decreases |s|
  {
    if |s| > 0 {
      var init := s[..|s| - 1];
      assert forall i :: 0 <= i < |init| ==> init[i] == s[i];
      MapSomeAll(init, f);
    }
  }

  /** When `f` yields nothing for every element, there are no results. */
  lemma {:induction false} MapSomeNone<A, B>(s: seq<A>, f: A -> Option<B>)
    requires forall i :: 0 <= i < |s| ==> f(s[i]).None?
    ensures MapSome(s, f) == []
    decreases |s|
  {
    if |s| > 0 {
      MapSomeNone(s[..|s| - 1], f);
    }
  }

  /** `MapSome` works piecewise on a concatenation. */
  lemma {:induction false} MapSomeAppend<A, B>(a: seq<A>, b: seq<A>, f: A -> Option<B>)
    ensures MapSome(a + b, f) == MapSome(a, f) + MapSome(b, f)
    decreases |b|
  {
    if |b| == 0 {
      assert a + b == a;
    } else {
      assert (a + b)[..|a + b| - 1] == a + b[..|b| - 1];
      MapSomeAppend(a, b[..|b| - 1], f);
    }
  }

  /** On one element, `MapSome` yields its result, if any. */
  lemma MapSomeOne<A, B>(x: A, f: A -> Option<B>)
    ensures MapSome([x], f) == if f(x).Some? then [f(x).value] else []
  {
    assert [x][..0] == [];
  }

  /** No element occurs twice. */
  predicate Distinct<T(==)>(s: seq<T>)
  {
    forall i, j :: 0 <= i < j < |s| ==> s[i] != s[j]
  }

  /** `xs.forEach(x => set.add(x))` on a `Set` listed in insertion order:
      each element not yet present is appended. */
  function AddEach<T(==)>(acc: seq<T>, xs: seq<T>): (r: seq<T>)
    requires Distinct(acc)
    ensures Distinct(r)
    ensures |r| >= |acc| && r[..|acc|] == acc
    ensures forall i :: 0 <= i < |xs| ==> xs[i] in r
    ensures forall i :: 0 <= i < |r| ==> r[i] in acc || r[i] in xs
    decreases |xs|
  {
    if |xs| == 0 then acc
    else
      var next := if xs[0] in acc then acc else acc + [xs[0]];
      var r := AddEach(next, xs[1..]);
      assert r[..|acc|] == r[..|next|][..|acc|];
      assert xs[0] in r[..|next|];
      assert forall i :: 1 <= i < |xs| ==> xs[i] == xs[1..][i - 1];
      r
  }

  /** Index of the first element satisfying `p`, as `s.find(p)` picks it. */
  function FindIndex<T>(s: seq<T>, p: T -> bool): (r: Option<nat>)
    ensures r.Some? ==> r.value < |s| && p(s[r.value]) && forall j :: 0 <= j < r.value ==> !p(s[j])
    ensures r.None? ==> forall j :: 0 <= j < |s| ==> !p(s[j])
    decreases |s|
  {
    if |s| == 0 then None
    else if p(s[0]) then Some(0)
    else match FindIndex(s[1..], p)
      case None => None
      case Some(k) => Some(k + 1)
  }

  /** `s.find(p)`. */
  function Find<T>(s: seq<T>, p: T -> bool): (r: Option<T>)
    ensures r.Some? <==> exists j :: 0 <= j < |s| && p(s[j])
    ensures r.Some? ==> r.value in s && p(r.value)
    ensures r.Some? ==> exists k :: 0 <= k < |s| && s[k] == r.value && forall j :: 0 <= j < k ==> !p(s[j])
  {
    match FindIndex(s, p)
    case None => None
    case Some(k) => Some(s[k])
  }

  /** Appending an element changes the first match only when there was none. */
  lemma FindAppend<T>(s: seq<T>, x: T, p: T -> bool)
    ensures Find(s + [x], p) == if Find(s, p).Some? then Find(s, p) else if p(x) then Some(x) else None
  {
    var t := s + [x];
    assert forall j :: 0 <= j < |s| ==> t[j] == s[j];
    assert t[|s|] == x;
    if FindIndex(s, p).Some? {
      var k := FindIndex(s, p).value;
      assert FindIndex(t, p).Some?;
    }
  }

  /** Extending a list whose first elements answer `p` as before moves the
      first match only when there was none. */
  lemma FindIndexExtend<T>(s: seq<T>, t: seq<T>, p: T -> bool)
    requires |s| <= |t| <= |s| + 1
    requires forall i :: 0 <= i < |s| ==> p(t[i]) == p(s[i])
    ensures FindIndex(s, p).Some? ==> FindIndex(t, p) == FindIndex(s, p)
    ensures FindIndex(s, p).None? ==>
      FindIndex(t, p) == if |t| > |s| && p(t[|s|]) then Some(|s|) else None
  {
    var a := FindIndex(s, p);
    var b := FindIndex(t, p);
    if a.Some? && b.Some? {
      assert !(b.value < a.value);
      assert !(a.value < b.value) by { assert p(t[a.value]); }
    } else if a.None? && b.Some? {
      assert b.value == |s|;
    }
  }

  /** `s.forEach(x => { m[key(x)] = value(x); })` on an empty object: an
      entry per key, a later element overwriting an earlier one. */
  function KeyedBy<T, K, V>(s: seq<T>, key: T -> K, value: T -> V): map<K, V>
    decreases |s|
  {
    if |s| == 0 then map[]
    else KeyedBy(s[..|s| - 1], key, value)[key(s[|s| - 1]) := value(s[|s| - 1])]
  }

  /** Every key of the map is some element's key. */
  lemma {:induction false} KeyedByKeysFrom<T, K, V>(s: seq<T>, key: T -> K, value: T -> V)
    ensures forall k :: k in KeyedBy(s, key, value) ==> exists i :: 0 <= i < |s| && key(s[i]) == k
    decreases |s|
  {
    if |s| > 0 {
      var init := s[..|s| - 1];
      KeyedByKeysFrom(init, key, value);
      forall k | k in KeyedBy(s, key, value)
        ensures exists i :: 0 <= i < |s| && key(s[i]) == k
      {
        if k != key(s[|s| - 1]) {
          assert KeyedBy(s, key, value) == KeyedBy(init, key, value)[key(s[|s| - 1]) := value(s[|s| - 1])];
          assert k in KeyedBy(init, key, value);
          var i :|0 <= i < |init| && key(init[i]) == k;
          assert s[i] == init[i];
        }
      }
    }
  }

  /** Every element's key is a key of the map. */
  lemma {:induction false} KeyedByKeysTo<T, K, V>(s: seq<T>, key: T -> K, value: T -> V)
    ensures forall i :: 0 <= i < |s| ==> key(s[i]) in KeyedBy(s, key, value)
    decreases |s|
  {
    if |s| > 0 {
      var init := s[..|s| - 1];
      KeyedByKeysTo(init, key, value);
      forall i | 0 <= i < |s|
        ensures key(s[i]) in KeyedBy(s, key, value)
      {
        if i < |init| {
          assert s[i] == init[i];
        }
      }
    }
  }

  /** No later element shares the key of `s[i]`. */
  ghost predicate LastOfKey<T, K>(s: seq<T>, key: T -> K, i: int)
    requires 0 <= i < |s|
  {
    forall j :: i < j < |s| ==> key(s[j]) != key(s[i])
  }

  /** The entry of an element that no later element shares a key with is its
      value. */
  lemma {:induction false} KeyedByValue<T, K, V>(s: seq<T>, key: T -> K, value: T -> V, i: nat)
    requires i < |s| && LastOfKey(s, key, i)
    ensures key(s[i]) in KeyedBy(s, key, value)
    ensures KeyedBy(s, key, value)[key(s[i])] == value(s[i])
    decreases |s|
  {
    var init := s[..|s| - 1];
    if i < |init| {
      assert s[i] == init[i];
      assert LastOfKey(init, key, i) by {
        forall j | i < j < |init|
          ensures key(init[j]) != key(init[i])
        {
          assert init[j] == s[j];
        }
      }
      KeyedByValue(init, key, value, i);
    }
  }

  /** The keys are exactly the elements' keys, and the entry of an element
      that no later element shares a key with is its value. */
  lemma {:induction false} KeyedBySpec<T, K, V>(s: seq<T>, key: T -> K, value: T -> V)
    ensures forall k :: k in KeyedBy(s, key, value) ==> exists i :: 0 <= i < |s| && key(s[i]) == k
    ensures forall i :: 0 <= i < |s| ==> key(s[i]) in KeyedBy(s, key, value)
    ensures forall i :: 0 <= i < |s| && (forall j :: i < j < |s| ==> key(s[j]) != key(s[i])) ==>
      KeyedBy(s, key, value)[key(s[i])] == value(s[i])
  {
    KeyedByKeysFrom(s, key, value);
    KeyedByKeysTo(s, key, value);
    forall i | 0 <= i < |s| && (forall j :: i < j < |s| ==> key(s[j]) != key(s[i]))
      ensures KeyedBy(s, key, value)[key(s[i])] == value(s[i])
    {
      assert LastOfKey(s, key, i);
      KeyedByValue(s, key, value, i);
    }
  }
}
