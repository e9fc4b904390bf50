/**
 * `Array.prototype.sort` with a numeric comparator, as the application uses
 * it: a stable sort on an integer key.  A descending order is obtained by
 * sorting on the negated key.
 */
module Sorting {
  import opened Common

  predicate SortedBy<T>(s: seq<T>, key: T -> int)
  {
    forall i, j :: 0 <= i < j < |s| ==> key(s[i]) <= key(s[j])
  }

  /** The elements of `s` whose key is `k`, in their order in `s`. */
  function WithKey<T>(s: seq<T>, key: T -> int, k: int): seq<T>
  {
    if s == [] then [] else (if key(s[0]) == k then [s[0]] else []) + WithKey(s[1..], key, k)
  }

  lemma {:induction false} WithKeyAppend<T>(a: seq<T>, b: seq<T>, key: T -> int, k: int)
    ensures WithKey(a + b, key, k) == WithKey(a, key, k) + WithKey(b, key, k)
  {
    if a == [] {
      assert a + b == b;
    } else {
      var head := if key(a[0]) == k then [a[0]] else [];
      assert (a + b)[0] == a[0] && (a + b)[1..] == a[1..] + b;
      assert WithKey(a + b, key, k) == head + WithKey(a[1..] + b, key, k);
      WithKeyAppend(a[1..], b, key, k);
      assert head + (WithKey(a[1..], key, k) + WithKey(b, key, k))
             == (head + WithKey(a[1..], key, k)) + WithKey(b, key, k);
    }
  }

  /** Places `x` after every element of the sorted `s` whose key is not larger. */
  function Insert<T>(x: T, s: seq<T>, key: T -> int): seq<T>
  {
    if s == [] then [x]
    else if key(s[|s| - 1]) <= key(x) then s + [x]
    else Insert(x, s[..|s| - 1], key) + [s[|s| - 1]]
  }

  function Sort<T>(s: seq<T>, key: T -> int): seq<T>
  {
    if s == [] then [] else Insert(s[|s| - 1], Sort(s[..|s| - 1], key), key)
  }

  lemma {:induction false} InsertMultiset<T>(x: T, s: seq<T>, key: T -> int)
    ensures multiset(Insert(x, s, key)) == multiset(s) + multiset{x}
  {
    if s != [] {
      var init, last := s[..|s| - 1], s[|s| - 1];
      assert s == init + [last];
      if key(last) > key(x) {
        InsertMultiset(x, init, key);
      }
    }
  }

  lemma {:induction false} InsertSorted<T>(x: T, s: seq<T>, key: T -> int)
    requires SortedBy(s, key)
    ensures SortedBy(Insert(x, s, key), key)
  {
    if s != [] {
      var init, last := s[..|s| - 1], s[|s| - 1];
      assert s == init + [last];
      if key(last) > key(x) {
        var r := Insert(x, init, key);
        InsertSorted(x, init, key);
        InsertMultiset(x, init, key);
        forall y | y in multiset(r)
          ensures key(y) <= key(last)
        {
          if y != x {
            assert y in multiset(init);
            var i :| 0 <= i < |init| && init[i] == y;
            assert s[i] == y;
          }
        }
        forall i, j | 0 <= i < j < |r + [last]|
          ensures key((r + [last])[i]) <= key((r + [last])[j])
        {
          assert (r + [last])[i] == r[i];
          assert r[i] in multiset(r);
          if j < |r| {
            assert (r + [last])[j] == r[j];
          }
        }
      }
    }
  }

  lemma {:induction false} InsertWithKey<T>(x: T, s: seq<T>, key: T -> int, k: int)
    ensures WithKey(Insert(x, s, key), key, k)
            == WithKey(s, key, k) + (if key(x) == k then [x] else [])
  {
    assert [x][1..] == [];
    if s != [] {
      var init, last := s[..|s| - 1], s[|s| - 1];
      assert s == init + [last];
      assert [last][1..] == [];
      if key(last) <= key(x) {
        WithKeyAppend(s, [x], key, k);
      } else {
        InsertWithKey(x, init, key, k);
        WithKeyAppend(Insert(x, init, key), [last], key, k);
        WithKeyAppend(init, [last], key, k);
      }
    }
  }

  /**
   * `Sort` orders by key, keeps exactly the input's elements, and is stable:
   * the elements sharing a key appear in their input order.
   */
  lemma {:induction false} SortCorrect<T>(s: seq<T>, key: T -> int)
    ensures SortedBy(Sort(s, key), key)
    ensures multiset(Sort(s, key)) == multiset(s)
    ensures |Sort(s, key)| == |s|
    ensures forall k :: WithKey(Sort(s, key), key, k) == WithKey(s, key, k)
  {
    if s != [] {
      var init, last := s[..|s| - 1], s[|s| - 1];
      assert s == init + [last];
      SortCorrect(init, key);
      InsertSorted(last, Sort(init, key), key);
      InsertMultiset(last, Sort(init, key), key);
      assert multiset(Sort(s, key)) == multiset(init) + multiset{last} == multiset(s);
      assert |Sort(s, key)| == |multiset(Sort(s, key))| == |multiset(s)| == |s|;
      forall k ensures WithKey(Sort(s, key), key, k) == WithKey(s, key, k) {
        InsertWithKey(last, Sort(init, key), key, k);
        WithKeyAppend(init, [last], key, k);
        assert [last][1..] == [];
      }
    }
  }
  lemma {:induction false} NoKeyNoneWithKey<T>(s: seq<T>, key: T -> int, k: int)
    requires forall i :: 0 <= i < |s| ==> key(s[i]) != k
    ensures WithKey(s, key, k) == []
  {
    if s != [] {
      NoKeyNoneWithKey(s[1..], key, k);
    }
  }

  lemma {:induction false} UniqueKeysWithKey<T>(s: seq<T>, key: T -> int, k: int)
    requires KeysUnique(s, key)
    ensures |WithKey(s, key, k)| <= 1
  {
    if s != [] {
      if key(s[0]) == k {
        NoKeyNoneWithKey(s[1..], key, k);
      } else {
        UniqueKeysWithKey(s[1..], key, k);
      }
    }
  }

  lemma {:induction false} KeyedWithKey<T>(s: seq<T>, key: T -> int, j: int)
    requires 0 <= j < |s|
    ensures |WithKey(s, key, key(s[j]))| >= 1
  {
    if j > 0 {
      KeyedWithKey(s[1..], key, j - 1);
    }
  }

  lemma {:induction false} RepeatedKeyWithKey<T>(s: seq<T>, key: T -> int, i: int, j: int)
    requires 0 <= i < j < |s| && key(s[i]) == key(s[j])
    ensures |WithKey(s, key, key(s[i]))| >= 2
  {
    if i == 0 {
      KeyedWithKey(s[1..], key, j - 1);
    } else {
      RepeatedKeyWithKey(s[1..], key, i - 1, j - 1);
    }
  }

  /** Sorting keeps keys distinct, so a sort on a unique key is strictly increasing. */
  lemma SortStrict<T>(s: seq<T>, key: T -> int)
    requires KeysUnique(s, key)
    ensures KeysUnique(Sort(s, key), key)
    ensures forall i, j :: 0 <= i < j < |Sort(s, key)| ==> key(Sort(s, key)[i]) < key(Sort(s, key)[j])
  {
    var r := Sort(s, key);
    SortCorrect(s, key);
    forall i, j | 0 <= i < j < |r| ensures key(r[i]) != key(r[j]) {
      if key(r[i]) == key(r[j]) {
        RepeatedKeyWithKey(r, key, i, j);
        UniqueKeysWithKey(s, key, key(r[i]));
        assert false;
      }
    }
  }
}
