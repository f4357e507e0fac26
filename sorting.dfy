/**
 * `Array.prototype.sort` with a comparator `(a, b) => key(b) - key(a)`:
 * a stable sort into non-increasing key order (the engine's sort is stable).
 * Used for the leaderboard, the note list and the in-progress quiz list.
 */
module Sorting {
  ghost predicate SortedDesc<T>(s: seq<T>, key: T -> int) {
    forall i, j :: 0 <= i < j < |s| ==> key(s[i]) >= key(s[j])
  }
  /** Inserts `x` after every element whose key is at least `key(x)`. */
  function InsertDesc<T>(s: seq<T>, x: T, key: T -> int): (r: seq<T>)
  {
    if s == [] then [x]
    else if key(s[0]) >= key(x) then [s[0]] + InsertDesc(s[1..], x, key)
    else [x] + s
  }
  lemma {:induction false} InsertDescShape<T>(s: seq<T>, x: T, key: T -> int)
    ensures |InsertDesc(s, x, key)| == |s| + 1
    ensures multiset(InsertDesc(s, x, key)) == multiset(s) + multiset{x}
    ensures InsertDesc(s, x, key)[0] == x || (s != [] && InsertDesc(s, x, key)[0] == s[0])
  {
    if s != [] && key(s[0]) >= key(x) {
      InsertDescShape(s[1..], x, key);
      assert s == [s[0]] + s[1..];
    }
  }
  lemma {:induction false} InsertDescSorted<T>(s: seq<T>, x: T, key: T -> int)
    requires SortedDesc(s, key)
    ensures SortedDesc(InsertDesc(s, x, key), key)
  {
    if s != [] && key(s[0]) >= key(x) {
      var t := InsertDesc(s[1..], x, key);
      InsertDescSorted(s[1..], x, key);
      InsertDescShape(s[1..], x, key);
      assert key(t[0]) <= key(s[0]);
      var r := [s[0]] + t;
      forall i, j | 0 <= i < j < |r| ensures key(r[i]) >= key(r[j]) {
        if i > 0 { assert r[i] == t[i-1] && r[j] == t[j-1]; }
        else if j > 1 { assert r[j] == t[j-1]; assert key(t[0]) >= key(t[j-1]); }
      }
    }
  }
  /** The sorted copy: ordered by non-increasing key and a permutation of `s`. */
  function SortDesc<T>(s: seq<T>, key: T -> int): (r: seq<T>)
    ensures SortedDesc(r, key)
    ensures multiset(r) == multiset(s)
    ensures |r| == |s|
  {
    if s == [] then []
    else
      var init := SortDesc(s[..|s| - 1], key);
      InsertDescSorted(init, s[|s| - 1], key);
      InsertDescShape(init, s[|s| - 1], key);
      assert s == s[..|s| - 1] + [s[|s| - 1]];
      InsertDesc(init, s[|s| - 1], key)
  }

  /** The elements of `s` whose key is `k`, in their order in `s`. */
  function WithKey<T>(s: seq<T>, key: T -> int, k: int): seq<T> {
    if s == [] then [] else (if key(s[0]) == k then [s[0]] else []) + WithKey(s[1..], key, k)
  }

  lemma {:induction false} WithKeyAppend<T>(a: seq<T>, b: seq<T>, key: T -> int, k: int)
    ensures WithKey(a + b, key, k) == WithKey(a, key, k) + WithKey(b, key, k)
  {
    if a == [] {
      assert a + b == b;
    } else {
      var h := if key(a[0]) == k then [a[0]] else [];
      assert (a + b)[0] == a[0];
      assert (a + b)[1..] == a[1..] + b;
      assert WithKey(a + b, key, k) == h + WithKey(a[1..] + b, key, k);
      WithKeyAppend(a[1..], b, key, k);
      assert WithKey(a, key, k) == h + WithKey(a[1..], key, k);
    }
  }

  lemma {:induction false} WithKeyNone<T>(s: seq<T>, key: T -> int, k: int)
    requires forall j :: 0 <= j < |s| ==> key(s[j]) != k
    ensures WithKey(s, key, k) == []
  {
    if s != [] {
      WithKeyNone(s[1..], key, k);
    }
  }

  lemma {:induction false} InsertDescKeepsTies<T>(s: seq<T>, x: T, key: T -> int, k: int)
    requires SortedDesc(s, key)
    ensures WithKey(InsertDesc(s, x, key), key, k) == WithKey(s, key, k) + (if key(x) == k then [x] else [])
  {
    var r := InsertDesc(s, x, key);
    if s == [] {
      assert r == [x];
    } else if key(s[0]) >= key(x) {
      var tail := s[1..];
      assert SortedDesc(tail, key) by {
        forall i, j | 0 <= i < j < |tail| ensures key(tail[i]) >= key(tail[j]) {
          assert tail[i] == s[i + 1] && tail[j] == s[j + 1];
        }
      }
      assert r == [s[0]] + InsertDesc(tail, x, key);
      InsertDescKeepsTies(tail, x, key, k);
      assert WithKey(r, key, k) == (if key(s[0]) == k then [s[0]] else []) + WithKey(InsertDesc(tail, x, key), key, k);
    } else {
      assert r == [x] + s;
      assert WithKey(r, key, k) == (if key(x) == k then [x] else []) + WithKey(s, key, k);
      if key(x) == k {
        forall j | 0 <= j < |s| ensures key(s[j]) != k {
          assert key(s[0]) >= key(s[j]);
        }
        WithKeyNone(s, key, k);
      }
    }
  }

  /** Stability: for every key, the elements carrying that key keep their
      relative order. */
  lemma {:induction false} SortDescStable<T>(s: seq<T>, key: T -> int, k: int)
    ensures WithKey(SortDesc(s, key), key, k) == WithKey(s, key, k)
  {
    if s != [] {
      var init, last := s[..|s| - 1], s[|s| - 1];
      SortDescStable(init, key, k);
      assert SortDesc(s, key) == InsertDesc(SortDesc(init, key), last, key);
      InsertDescKeepsTies(SortDesc(init, key), last, key, k);
      assert s == init + [last];
      WithKeyAppend(init, [last], key, k);
      assert WithKey([last], key, k) == (if key(last) == k then [last] else []);
    }
  }
}
