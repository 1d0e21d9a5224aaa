// Python's sorted(xs, key=key) with a numeric key: a stable sort.
module StableSort {
  predicate SortedByKey<T>(s: seq<T>, key: T -> real)
  {
    forall i, j :: 0 <= i < j < |s| ==> key(s[i]) <= key(s[j])
  }

  /** The items whose key is k, in their order in s. */
  function WithKey<T>(s: seq<T>, key: T -> real, k: real): (r: seq<T>)
    ensures |r| <= |s|
  {
    if s == [] then []
    else WithKey(s[..|s| - 1], key, k) + (if key(s[|s| - 1]) == k then [s[|s| - 1]] else [])
  }

  /** x placed after every item whose key is not greater than its own. */
  function Insert<T>(x: T, s: seq<T>, key: T -> real): (r: seq<T>)
    ensures |r| == |s| + 1
  {
    if s == [] || key(s[|s| - 1]) <= key(x) then s + [x]
    else Insert(x, s[..|s| - 1], key) + [s[|s| - 1]]
  }

  /** sorted(): each item inserted in turn, from the first. */
  function Sort<T>(s: seq<T>, key: T -> real): (r: seq<T>)
    ensures |r| == |s|
  {
    if s == [] then [] else Insert(s[|s| - 1], Sort(s[..|s| - 1], key), key)
  }

  lemma {:induction false} InsertSorted<T>(x: T, s: seq<T>, key: T -> real)
    requires SortedByKey(s, key)
    ensures SortedByKey(Insert(x, s, key), key)
  {
    if s != [] && key(s[|s| - 1]) > key(x) {
      var pre := s[..|s| - 1];
      var last := s[|s| - 1];
      InsertSorted(x, pre, key);
      var ins := Insert(x, pre, key);
      InsertBounded(x, pre, key, key(last));
      assert forall i :: 0 <= i < |ins| ==> key(ins[i]) <= key(last);
    }
  }

  /** Inserting keeps every key under a bound that x and s respect. */
  lemma {:induction false} InsertBounded<T>(x: T, s: seq<T>, key: T -> real, b: real)
    requires key(x) <= b && forall i :: 0 <= i < |s| ==> key(s[i]) <= b
    ensures forall i :: 0 <= i < |Insert(x, s, key)| ==> key(Insert(x, s, key)[i]) <= b
  {
    if s != [] && key(s[|s| - 1]) > key(x) {
      InsertBounded(x, s[..|s| - 1], key, b);
    }
  }

  lemma {:induction false} InsertItems<T>(x: T, s: seq<T>, key: T -> real)
    ensures multiset(Insert(x, s, key)) == multiset(s) + multiset{x}
  {
    if s != [] && key(s[|s| - 1]) > key(x) {
      InsertItems(x, s[..|s| - 1], key);
      assert s == s[..|s| - 1] + [s[|s| - 1]];
    }
  }

  lemma {:induction false} InsertWithKey<T>(x: T, s: seq<T>, key: T -> real, k: real)
    requires SortedByKey(s, key)
    ensures WithKey(Insert(x, s, key), key, k) == WithKey(s, key, k) + (if key(x) == k then [x] else [])
  {
    if s == [] || key(s[|s| - 1]) <= key(x) {
      assert (s + [x])[..|s|] == s;
    } else {
      var pre := s[..|s| - 1];
      var last := s[|s| - 1];
      InsertWithKey(x, pre, key, k);
      var ins := Insert(x, pre, key);
      assert (ins + [last])[..|ins|] == ins;
    }
  }

  /** The result is ordered by key and holds the same items. */
  lemma {:induction false} SortSorted<T>(s: seq<T>, key: T -> real)
    ensures SortedByKey(Sort(s, key), key)
    ensures multiset(Sort(s, key)) == multiset(s)
  {
    if s != [] {
      var pre := s[..|s| - 1];
      SortSorted(pre, key);
      InsertSorted(s[|s| - 1], Sort(pre, key), key);
      InsertItems(s[|s| - 1], Sort(pre, key), key);
      assert s == pre + [s[|s| - 1]];
    }
  }

  /** Stability: the items sharing a key keep their order. */
  lemma {:induction false} SortStable<T>(s: seq<T>, key: T -> real, k: real)
    ensures WithKey(Sort(s, key), key, k) == WithKey(s, key, k)
  {
    if s != [] {
      var pre := s[..|s| - 1];
      SortStable(pre, key, k);
      SortSorted(pre, key);
      InsertWithKey(s[|s| - 1], Sort(pre, key), key, k);
    }
  }

  /** Only one sequence is ordered by key and keeps the order of each key's items, so it is what sorted() returns. */
  lemma SortUnique<T>(s: seq<T>, t: seq<T>, key: T -> real)
    requires SortedByKey(t, key) && forall k :: WithKey(t, key, k) == WithKey(s, key, k)
    ensures t == Sort(s, key)
  {
    SortSorted(s, key);
    forall k ensures WithKey(Sort(s, key), key, k) == WithKey(t, key, k) { SortStable(s, key, k); }
    SortedSameGroups(Sort(s, key), t, key);
  }

  /** Two sorted sequences with the same items under every key are equal. */
  lemma {:induction false} SortedSameGroups<T>(a: seq<T>, b: seq<T>, key: T -> real)
    requires SortedByKey(a, key) && SortedByKey(b, key)
    requires forall k :: WithKey(a, key, k) == WithKey(b, key, k)
    ensures a == b
    decreases |a| + |b|
  {
    if a == [] {
      if b != [] {
        LastHasKey(b, key);
      }
    } else if b == [] {
      LastHasKey(a, key);
    } else {
      var x, y := a[|a| - 1], b[|b| - 1];
      var a', b' := a[..|a| - 1], b[..|b| - 1];
      if key(x) < key(y) {
        assert WithKey(b, key, key(y)) != [];
        WithKeyAbove(a, key, key(y));
      } else if key(y) < key(x) {
        assert WithKey(a, key, key(x)) != [];
        WithKeyAbove(b, key, key(x));
      } else {
        assert a == a' + [x] && b == b' + [y];
        DropLastGroups(a', x, b', y, key);
        SortedByKeyPrefix(a, key);
        SortedByKeyPrefix(b, key);
        SortedSameGroups(a', b', key);
        assert a == a' + [x] && b == b' + [y];
      }
    }
  }

  lemma WithKeySnoc<T>(s: seq<T>, x: T, key: T -> real, k: real)
    ensures WithKey(s + [x], key, k) == WithKey(s, key, k) + (if key(x) == k then [x] else [])
  {
    assert (s + [x])[..|s|] == s;
  }

  /** Equal groups and equal last keys: equal last items, and equal groups once those are dropped. */
  lemma DropLastGroups<T>(a: seq<T>, x: T, b: seq<T>, y: T, key: T -> real)
    requires key(x) == key(y)
    requires forall k :: WithKey(a + [x], key, k) == WithKey(b + [y], key, k)
    ensures x == y
    ensures forall k :: WithKey(a, key, k) == WithKey(b, key, k)
  {
    var wa, wb := WithKey(a + [x], key, key(x)), WithKey(b + [y], key, key(x));
    WithKeySnoc(a, x, key, key(x));
    WithKeySnoc(b, y, key, key(x));
    assert wa == wb;
    assert wa[|wa| - 1] == x && wb[|wb| - 1] == y;
    forall k ensures WithKey(a, key, k) == WithKey(b, key, k) {
      WithKeySnoc(a, x, key, k);
      WithKeySnoc(b, y, key, k);
      assert WithKey(a + [x], key, k) == WithKey(b + [y], key, k);
      if k == key(x) {
        assert WithKey(a, key, k) == wa[..|wa| - 1];
        assert WithKey(b, key, k) == wb[..|wb| - 1];
      } else {
        assert WithKey(a + [x], key, k) == WithKey(a, key, k);
        assert WithKey(b + [y], key, k) == WithKey(b, key, k);
      }
    }
  }

  lemma LastHasKey<T>(s: seq<T>, key: T -> real)
    requires s != []
    ensures WithKey(s, key, key(s[|s| - 1])) != []
  {
  }

  lemma SortedByKeyPrefix<T>(s: seq<T>, key: T -> real)
    requires s != [] && SortedByKey(s, key)
    ensures SortedByKey(s[..|s| - 1], key)
  {
  }

  /** No item of a sorted sequence has a key above that of its last item. */
  lemma {:induction false} WithKeyAbove<T>(s: seq<T>, key: T -> real, k: real)
    requires s != [] && SortedByKey(s, key) && key(s[|s| - 1]) < k
    ensures WithKey(s, key, k) == []
  {
    var pre := s[..|s| - 1];
    if pre != [] {
      SortedByKeyPrefix(s, key);
      assert key(pre[|pre| - 1]) <= key(s[|s| - 1]);
      WithKeyAbove(pre, key, k);
    }
  }
}
