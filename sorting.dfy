// Python's `sorted(xs, key=...)` for an integer key: a stable sort, written
// as an insertion sort that works from the back of the list.
module StableSort {

  /** Ascending by key. */
  predicate SortedBy<T>(s: seq<T>, key: T -> int)
  {
    forall i, j :: 0 <= i < j < |s| ==> key(s[i]) <= key(s[j])
  }

  /** Every element's key is at least `k`. */
  predicate AtLeast<T>(s: seq<T>, key: T -> int, k: int)
  {
    forall i :: 0 <= i < |s| ==> k <= key(s[i])
  }

  /** Puts `x` before the first element whose key is not smaller, so that
      it stays ahead of the equal elements that followed it. */
  function Insert<T>(x: T, s: seq<T>, key: T -> int): seq<T>
  {
    if s == [] then [x]
    else if key(x) <= key(s[0]) then [x] + s
    else [s[0]] + Insert(x, s[1..], key)
  }

  function Sort<T>(s: seq<T>, key: T -> int): seq<T>
  {
    if s == [] then [] else Insert(s[0], Sort(s[1..], key), key)
  }

  lemma {:induction false} InsertKeepsBound<T>(x: T, s: seq<T>, key: T -> int, k: int)
    requires AtLeast(s, key, k) && k <= key(x)
    ensures AtLeast(Insert(x, s, key), key, k)
  {
    if s != [] && key(x) > key(s[0]) {
      InsertKeepsBound(x, s[1..], key, k);
    }
  }

  lemma {:induction false} InsertPerm<T>(x: T, s: seq<T>, key: T -> int)
    ensures multiset(Insert(x, s, key)) == multiset(s) + multiset{x}
  {
    if s != [] && key(x) > key(s[0]) {
      assert s == [s[0]] + s[1..];
      InsertPerm(x, s[1..], key);
    }
  }

  lemma {:induction false} InsertSorted<T>(x: T, s: seq<T>, key: T -> int)
    requires SortedBy(s, key)
    ensures SortedBy(Insert(x, s, key), key)
  {
    if s != [] && key(x) > key(s[0]) {
      var rest := s[1..];
      var k := key(s[0]);
      assert SortedBy(rest, key) by {
        forall i, j | 0 <= i < j < |rest| ensures key(rest[i]) <= key(rest[j]) {
          assert rest[i] == s[i + 1] && rest[j] == s[j + 1];
        }
      }
      assert AtLeast(rest, key, k) by {
        forall i | 0 <= i < |rest| ensures k <= key(rest[i]) {
          assert rest[i] == s[i + 1];
        }
      }
      InsertSorted(x, rest, key);
      InsertKeepsBound(x, rest, key, k);
      var ins := Insert(x, rest, key);
      var r := [s[0]] + ins;
      forall i, j | 0 <= i < j < |r| ensures key(r[i]) <= key(r[j]) {
        if i == 0 {
          assert r[j] == ins[j - 1];
        } else {
          assert r[i] == ins[i - 1] && r[j] == ins[j - 1];
        }
      }
    }
  }

  /** The sort keeps every element, as often as it occurs, and orders
      them by key. */
  lemma {:induction false} SortFacts<T>(s: seq<T>, key: T -> int)
    ensures multiset(Sort(s, key)) == multiset(s)
    ensures |Sort(s, key)| == |s|
    ensures SortedBy(Sort(s, key), key)
  {
    if s != [] {
      SortFacts(s[1..], key);
      InsertPerm(s[0], Sort(s[1..], key), key);
      InsertSorted(s[0], Sort(s[1..], key), key);
      assert s == [s[0]] + s[1..];
      assert |Sort(s, key)| == |multiset(Sort(s, key))| == |multiset(s)| == |s|;
    }
  }

  /** The elements whose key is `k`, in order. */
  function WithKey<T>(s: seq<T>, key: T -> int, k: int): seq<T>
  {
    if s == [] then [] else (if key(s[0]) == k then [s[0]] else []) + WithKey(s[1..], key, k)
  }

  lemma WithKeyCons<T>(x: T, s: seq<T>, key: T -> int, k: int)
    ensures WithKey([x] + s, key, k) == (if key(x) == k then [x] else []) + WithKey(s, key, k)
  {
    assert ([x] + s)[1..] == s;
  }

  /** Inserting `x` places it ahead of every element with its key. */
  lemma {:induction false} InsertWithKey<T>(x: T, s: seq<T>, key: T -> int, k: int)
    ensures WithKey(Insert(x, s, key), key, k) == (if key(x) == k then [x] else []) + WithKey(s, key, k)
  {
    if s == [] {
    } else if key(x) <= key(s[0]) {
      WithKeyCons(x, s, key, k);
    } else {
      var rest := s[1..];
      var head: seq<T> := if key(s[0]) == k then [s[0]] else [];
      var mine: seq<T> := if key(x) == k then [x] else [];
      InsertWithKey(x, rest, key, k);
      assert Insert(x, s, key) == [s[0]] + Insert(x, rest, key);
      WithKeyCons(s[0], Insert(x, rest, key), key, k);
      assert [s[0]] + rest == s;
      WithKeyCons(s[0], rest, key, k);
      assert WithKey(Insert(x, s, key), key, k) == head + (mine + WithKey(rest, key, k));
      assert WithKey(s, key, k) == head + WithKey(rest, key, k);
      assert head == [] || mine == [];
    }
  }

  /** The sort is stable: the elements of any one key come out in the
      order they went in. */
  lemma {:induction false} SortStable<T>(s: seq<T>, key: T -> int, k: int)
    ensures WithKey(Sort(s, key), key, k) == WithKey(s, key, k)
  {
    if s != [] {
      SortStable(s[1..], key, k);
      InsertWithKey(s[0], Sort(s[1..], key), key, k);
    }
  }

  /** A list that is already in order is left as it is. */
  lemma {:induction false} SortSorted<T>(s: seq<T>, key: T -> int)
    requires SortedBy(s, key)
    ensures Sort(s, key) == s
  {
    if s != [] {
      var rest := s[1..];
      assert SortedBy(rest, key) by {
        forall i, j | 0 <= i < j < |rest| ensures key(rest[i]) <= key(rest[j]) {
          assert rest[i] == s[i + 1] && rest[j] == s[j + 1];
        }
      }
      SortSorted(rest, key);
      if rest != [] {
        assert key(s[0]) <= key(rest[0]) by {
          assert rest[0] == s[1];
        }
      }
      assert [s[0]] + rest == s;
    }
  }
}
