/**
 * A stable sort by a key, largest key first: the order of LINQ's OrderByDescending, and of
 * Lucene's top hits (higher score first, the earlier document first among equal scores).
 */
module Ordering {

  /** x goes after every element whose key is at least its own. */
  function Insert<T>(x: T, s: seq<T>, key: T -> int): seq<T> {
    if s == [] then [x]
    else if key(s[0]) < key(x) then [x] + s
    else [s[0]] + Insert(x, s[1..], key)
  }

  /** Insertion sort from the left, so elements with equal keys keep their order. */
  function SortDescending<T>(s: seq<T>, key: T -> int): seq<T> {
    if s == [] then [] else Insert(s[|s| - 1], SortDescending(s[..|s| - 1], key), key)
  }

  predicate Descending<T>(s: seq<T>, key: T -> int) {
    forall i, j :: 0 <= i < j < |s| ==> key(s[i]) >= key(s[j])
  }

  /** The elements of s whose key is k, in their order in s. */
  function WithKey<T>(s: seq<T>, key: T -> int, k: int): seq<T> {
    if s == [] then [] else (if key(s[0]) == k then [s[0]] else []) + WithKey(s[1..], key, k)
  }

  lemma {:induction false} InsertMultiset<T>(x: T, s: seq<T>, key: T -> int)
    ensures multiset(Insert(x, s, key)) == multiset(s) + multiset{x}
    ensures |Insert(x, s, key)| == |s| + 1
    ensures Insert(x, s, key)[0] == x || (s != [] && Insert(x, s, key)[0] == s[0])
  {
    if s != [] && key(s[0]) >= key(x) {
      assert s == [s[0]] + s[1..];
      InsertMultiset(x, s[1..], key);
    }
  }

  lemma {:induction false} InsertDescending<T>(x: T, s: seq<T>, key: T -> int)
    requires Descending(s, key)
    ensures Descending(Insert(x, s, key), key)
  {
    if s != [] && key(s[0]) >= key(x) {
      DescendingTail(s, key);
      InsertDescending(x, s[1..], key);
      InsertMultiset(x, s[1..], key);
      var t := Insert(x, s[1..], key);
      var r := [s[0]] + t;
      forall i, j | 0 <= i < j < |r| ensures key(r[i]) >= key(r[j]) {
        if i == 0 {
          assert r[j] == t[j - 1];
          assert key(t[0]) <= key(s[0]) by {
            if t[0] != x { assert t[0] == s[1..][0] == s[1]; }
          }
        } else {
          assert r[i] == t[i - 1] && r[j] == t[j - 1];
        }
      }
    }
  }

  lemma {:induction false} InsertWithKey<T>(x: T, s: seq<T>, key: T -> int, k: int)
    requires Descending(s, key)
    ensures WithKey(Insert(x, s, key), key, k) == WithKey(s, key, k) + (if key(x) == k then [x] else [])
  {
    if s == [] {
      assert [x][1..] == [];
    } else if key(s[0]) < key(x) {
      var r := [x] + s;
      assert r[1..] == s;
      if key(x) == k { NoneWithKey(s, key, k); }
    } else {
      var t := Insert(x, s[1..], key);
      var r := [s[0]] + t;
      assert r[0] == s[0] && r[1..] == t;
      DescendingTail(s, key);
      InsertWithKey(x, s[1..], key, k);
      var head := if key(s[0]) == k then [s[0]] else [];
      assert WithKey(r, key, k) == head + WithKey(t, key, k);
      assert WithKey(s, key, k) == head + WithKey(s[1..], key, k);
    }
  }

  lemma DescendingTail<T>(s: seq<T>, key: T -> int)
    requires s != [] && Descending(s, key)
    ensures Descending(s[1..], key)
  {
    forall i, j | 0 <= i < j < |s| - 1 ensures key(s[1..][i]) >= key(s[1..][j]) {
      assert s[1..][i] == s[i + 1] && s[1..][j] == s[j + 1];
    }
  }

  /** Nothing in a descending sequence has a key above its first element's. */
  lemma NoneWithKey<T>(s: seq<T>, key: T -> int, k: int)
    requires Descending(s, key) && (s == [] || key(s[0]) < k)
    ensures WithKey(s, key, k) == []
    decreases |s|
  {
    if s != [] {
      assert s[1..] == [] || key(s[1..][0]) <= key(s[0]);
      NoneWithKey(s[1..], key, k);
    }
  }

  lemma {:induction false} WithKeyConcat<T>(a: seq<T>, b: seq<T>, key: T -> int, k: int)
    ensures WithKey(a + b, key, k) == WithKey(a, key, k) + WithKey(b, key, k)
  {
    if a != [] {
      assert (a + b)[0] == a[0] && (a + b)[1..] == a[1..] + b;
      WithKeyConcat(a[1..], b, key, k);
    } else {
      assert a + b == b;
    }
  }

  /**
   * The sort is a permutation, puts larger keys first, and is stable: the elements with any one
   * key appear in the same order as in the input.
   */
  lemma {:induction false} SortDescendingSpec<T>(s: seq<T>, key: T -> int)
    ensures multiset(SortDescending(s, key)) == multiset(s)
    ensures |SortDescending(s, key)| == |s|
    ensures Descending(SortDescending(s, key), key)
    ensures forall k :: WithKey(SortDescending(s, key), key, k) == WithKey(s, key, k)
  {
    if s != [] {
      var p, x := s[..|s| - 1], s[|s| - 1];
      assert s == p + [x];
      SortDescendingSpec(p, key);
      InsertMultiset(x, SortDescending(p, key), key);
      InsertDescending(x, SortDescending(p, key), key);
      forall k ensures WithKey(SortDescending(s, key), key, k) == WithKey(s, key, k) {
        InsertWithKey(x, SortDescending(p, key), key, k);
        WithKeyConcat(p, [x], key, k);
        assert WithKey([x], key, k) == (if key(x) == k then [x] else []) by {
          assert [x][1..] == [];
        }
      }
    }
  }
}
