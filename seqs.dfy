/**
 * The array operations the store and the pages are built from:
 * `findIndex`, `find`, `filter`, and the upsert written out in every
 * `save*` of the store (`arr[index] = x` when found, else `push`).
 */
module Seqs {
  import opened Wrappers

  /** `s.findIndex(p)`: the first index whose element satisfies `p`, or -1. */
  function FindIndex<T>(s: seq<T>, p: T -> bool): (r: int)
    ensures -1 <= r < |s|
    ensures r == -1 <==> forall j :: 0 <= j < |s| ==> !p(s[j])
    ensures 0 <= r ==> p(s[r]) && forall j :: 0 <= j < r ==> !p(s[j])
  {
    if s == [] then -1
    else if p(s[0]) then 0
    else
      var k := FindIndex(s[1..], p);
      if k == -1 then -1 else k + 1
  }

  /** `s.find(p)`: the first element satisfying `p`, if any. */
  function Find<T>(s: seq<T>, p: T -> bool): (r: Option<T>)
    ensures r.None? <==> forall j :: 0 <= j < |s| ==> !p(s[j])
    ensures r.Some? ==> exists i :: 0 <= i < |s| && s[i] == r.value && p(s[i]) && forall j :: 0 <= j < i ==> !p(s[j])
  {
    var i := FindIndex(s, p);
    if i < 0 then None else Some(s[i])
  }

  /** `s.filter(p)`: the elements satisfying `p`, in their original order. */
  function Filter<T(==)>(s: seq<T>, p: T -> bool): (r: seq<T>)
    ensures |r| <= |s|
    ensures forall j :: 0 <= j < |r| ==> p(r[j]) && r[j] in s
    ensures forall j :: 0 <= j < |s| && p(s[j]) ==> s[j] in r
  {
    if s == [] then [] else (if p(s[0]) then [s[0]] else []) + Filter(s[1..], p)
  }

  /** Filtering keeps order: it distributes over concatenation. */
  lemma {:induction false} FilterAppend<T>(a: seq<T>, b: seq<T>, p: T -> bool)
    ensures Filter(a + b, p) == Filter(a, p) + Filter(b, p)
  {
    if a == [] {
      assert a + b == b;
    } else {
      assert (a + b)[1..] == a[1..] + b;
      FilterAppend(a[1..], b, p);
    }
  }

  /** Filtering keeps each kept element with its multiplicity and drops the rest. */
  lemma {:induction false} FilterMultiset<T>(s: seq<T>, p: T -> bool, x: T)
    ensures multiset(Filter(s, p))[x] == if p(x) then multiset(s)[x] else 0
  {
    if s != [] {
      assert s == [s[0]] + s[1..];
      FilterMultiset(s[1..], p, x);
    }
  }

  /** A filter that every element passes changes nothing. */
  lemma {:induction false} FilterAll<T>(s: seq<T>, p: T -> bool)
    requires forall j :: 0 <= j < |s| ==> p(s[j])
    ensures Filter(s, p) == s
  {
    if s != [] {
      FilterAll(s[1..], p);
    }
  }

  /** Filtering by `p` and then by `q` is filtering once by their
      conjunction `r`. */
  lemma {:induction false} FilterFilter<T>(s: seq<T>, p: T -> bool, q: T -> bool, r: T -> bool)
    requires forall x :: r(x) == (p(x) && q(x))
    ensures Filter(Filter(s, p), q) == Filter(s, r)
  {
    if s != [] {
      FilterFilter(s[1..], p, q, r);
      var f := Filter(s, p);
      if p(s[0]) {
        assert f == [s[0]] + Filter(s[1..], p);
        assert f[0] == s[0] && f[1..] == Filter(s[1..], p);
        assert Filter(f, q) == (if q(f[0]) then [f[0]] else []) + Filter(f[1..], q);
      } else {
        assert f == Filter(s[1..], p);
        assert !r(s[0]);
      }
    }
  }

  /** `a` is `b` with some elements left out: the elements of `a` occur in
      `b` in the same order. */
  predicate Subsequence<T(==)>(a: seq<T>, b: seq<T>)
    decreases |b|
  {
    if a == [] then true
    else if b == [] then false
    else if a[0] == b[0] then Subsequence(a[1..], b[1..])
    else Subsequence(a, b[1..])
  }

  /** A filter keeps the order of the elements it keeps. */
  lemma {:induction false} FilterSubsequence<T>(s: seq<T>, p: T -> bool)
    ensures Subsequence(Filter(s, p), s)
  {
    if s != [] {
      FilterSubsequence(s[1..], p);
      var f := Filter(s, p);
      if p(s[0]) {
        assert f == [s[0]] + Filter(s[1..], p);
        assert f[1..] == Filter(s[1..], p);
      } else {
        assert f == Filter(s[1..], p);
        if f != [] {
          assert p(f[0]);
        }
      }
    }
  }

  /** `i` is the first index of `s` whose key is `k`. */
  ghost predicate FirstWithKey<T>(s: seq<T>, key: T -> string, k: string, i: int) {
    0 <= i < |s| && key(s[i]) == k && forall j :: 0 <= j < i ==> key(s[j]) != k
  }

  /** The store's upsert: replace the first record with the same key in place,
      otherwise append the record at the end. */
  function Upsert<T>(s: seq<T>, x: T, key: T -> string): (r: seq<T>)
    ensures (forall j :: 0 <= j < |s| ==> key(s[j]) != key(x)) ==> r == s + [x]
    ensures forall i :: FirstWithKey(s, key, key(x), i) ==> r == s[i := x]
  {
    var i := FindIndex(s, (y: T) => key(y) == key(x));
    if i >= 0 then s[i := x] else s + [x]
  }

  /** After an upsert the record is present, the length grows by at most one,
      and every record with a different key keeps its position. */
  lemma {:induction false} UpsertFrame<T>(s: seq<T>, x: T, key: T -> string)
    ensures x in Upsert(s, x, key)
    ensures |s| <= |Upsert(s, x, key)| <= |s| + 1
    ensures forall j :: 0 <= j < |s| && key(s[j]) != key(x) ==> Upsert(s, x, key)[j] == s[j]
  {
    var i := FindIndex(s, (y: T) => key(y) == key(x));
    if i >= 0 {
      assert FirstWithKey(s, key, key(x), i);
    }
  }

  /** An upsert introduces no record other than `x`. */
  lemma {:induction false} UpsertMembers<T>(s: seq<T>, x: T, key: T -> string, y: T)
    requires y in Upsert(s, x, key)
    ensures y in s || y == x
  {
    var i := FindIndex(s, (z: T) => key(z) == key(x));
    if i >= 0 {
      assert FirstWithKey(s, key, key(x), i);
      var j :| 0 <= j < |s[i := x]| && s[i := x][j] == y;
      if j != i {
        assert s[j] == y;
      }
    }
  }

  /** `xs.forEach(x => upsert(x))`: the upserts of `xs`, in order. */
  function UpsertAll<T>(s: seq<T>, xs: seq<T>, key: T -> string): seq<T> {
    if xs == [] then s else Upsert(UpsertAll(s, xs[..|xs| - 1], key), xs[|xs| - 1], key)
  }

  /** When the keys of `xs` are distinct, every record of `xs` is stored
      afterwards (no later upsert overwrites an earlier one). */
  lemma {:induction false} UpsertAllContains<T>(s: seq<T>, xs: seq<T>, key: T -> string)
    requires forall a, b :: 0 <= a < b < |xs| ==> key(xs[a]) != key(xs[b])
    ensures forall j :: 0 <= j < |xs| ==> xs[j] in UpsertAll(s, xs, key)
  {
    if xs != [] {
      var init, x := xs[..|xs| - 1], xs[|xs| - 1];
      var before := UpsertAll(s, init, key);
      UpsertAllContains(s, init, key);
      UpsertFrame(before, x, key);
      forall j | 0 <= j < |xs|
        ensures xs[j] in UpsertAll(s, xs, key)
      {
        if j < |xs| - 1 {
          assert init[j] == xs[j] && init[j] in before;
          var m :| 0 <= m < |before| && before[m] == xs[j];
          assert Upsert(before, x, key)[m] == xs[j];
        }
      }
    }
  }

  /** Upserting the same record twice is the same as once. */
  lemma {:induction false} UpsertIdempotent<T>(s: seq<T>, x: T, key: T -> string)
    ensures Upsert(Upsert(s, x, key), x, key) == Upsert(s, x, key)
  {
    var i := FindIndex(s, (y: T) => key(y) == key(x));
    var r := Upsert(s, x, key);
    if i >= 0 {
      assert FirstWithKey(s, key, key(x), i);
      assert FirstWithKey(r, key, key(x), i);
    } else {
      assert FirstWithKey(r, key, key(x), |s|);
    }
  }

  /** Every kept element keeps its multiplicity; every other one is gone. */
  lemma FilterMultisetAll<T>(s: seq<T>, p: T -> bool)
    ensures forall x :: multiset(Filter(s, p))[x] == if p(x) then multiset(s)[x] else 0
  {
    forall x {
      FilterMultiset(s, p, x);
    }
  }

  /** The set of keys of the records of `s`. */
  function Keys<T>(s: seq<T>, key: T -> string): set<string> {
    if s == [] then {} else Keys(s[..|s| - 1], key) + {key(s[|s| - 1])}
  }

  /** The keys of a longer prefix: one more key. */
  lemma KeysPrefix<T>(s: seq<T>, key: T -> string, n: int)
    requires 0 < n <= |s|
    ensures Keys(s[..n], key) == Keys(s[..n - 1], key) + {key(s[n - 1])}
  {
    var d := s[..n];
    assert d[..|d| - 1] == s[..n - 1];
  }

  lemma {:induction false} KeysHas<T>(s: seq<T>, key: T -> string, j: int)
    requires 0 <= j < |s|
    ensures key(s[j]) in Keys(s, key)
  {
    if j < |s| - 1 {
      KeysHas(s[..|s| - 1], key, j);
    }
  }

  lemma {:induction false} KeysWitness<T>(s: seq<T>, key: T -> string, x: string) returns (j: int)
    requires x in Keys(s, key)
    ensures 0 <= j < |s| && key(s[j]) == x
  {
    if key(s[|s| - 1]) == x {
      j := |s| - 1;
    } else {
      j := KeysWitness(s[..|s| - 1], key, x);
    }
  }

  /** The records of `s` whose key is not in `ids`, in their original order. */
  function WithoutIds<T>(s: seq<T>, key: T -> string, ids: set<string>): (r: seq<T>)
    ensures |r| <= |s|
  {
    if s == [] then [] else (if key(s[0]) in ids then [] else [s[0]]) + WithoutIds(s[1..], key, ids)
  }

  lemma {:induction false} WithoutIdsMember<T>(s: seq<T>, key: T -> string, ids: set<string>, x: T)
    ensures x in WithoutIds(s, key, ids) <==> x in s && key(x) !in ids
  {
    if s != [] {
      WithoutIdsMember(s[1..], key, ids, x);
      assert s == [s[0]] + s[1..];
    }
  }

  lemma {:induction false} WithoutNoIds<T>(s: seq<T>, key: T -> string)
    ensures WithoutIds(s, key, {}) == s
  {
    if s != [] {
      WithoutNoIds(s[1..], key);
      assert s == [s[0]] + s[1..];
    }
  }

  lemma {:induction false} WithoutIdsAppend<T>(a: seq<T>, b: seq<T>, key: T -> string, ids: set<string>)
    ensures WithoutIds(a + b, key, ids) == WithoutIds(a, key, ids) + WithoutIds(b, key, ids)
  {
    if a == [] {
      assert a + b == b;
    } else {
      assert (a + b)[1..] == a[1..] + b;
      WithoutIdsAppend(a[1..], b, key, ids);
    }
  }

  /** Removing keys that no record carries changes nothing. */
  lemma {:induction false} WithoutAbsentIds<T>(s: seq<T>, key: T -> string, ids: set<string>)
    requires forall j :: 0 <= j < |s| ==> key(s[j]) !in ids
    ensures WithoutIds(s, key, ids) == s
  {
    if s != [] {
      WithoutAbsentIds(s[1..], key, ids);
      assert s == [s[0]] + s[1..];
    }
  }

  lemma WithoutIdsSubset<T>(s: seq<T>, key: T -> string, ids: set<string>)
    ensures forall x :: x in WithoutIds(s, key, ids) ==> x in s
  {
    forall x | x in WithoutIds(s, key, ids)
      ensures x in s
    {
      WithoutIdsMember(s, key, ids, x);
    }
  }

  /** Removing one set of keys and then another removes their union. */
  lemma {:induction false} WithoutIdsTwice<T>(s: seq<T>, key: T -> string, a: set<string>, b: set<string>)
    ensures WithoutIds(WithoutIds(s, key, a), key, b) == WithoutIds(s, key, a + b)
  {
    if s != [] {
      WithoutIdsTwice(s[1..], key, a, b);
      var t := WithoutIds(s, key, a);
      if key(s[0]) !in a {
        assert t == [s[0]] + WithoutIds(s[1..], key, a);
        assert t[0] == s[0] && t[1..] == WithoutIds(s[1..], key, a);
        assert WithoutIds(t, key, b) == (if key(s[0]) in b then [] else [s[0]]) + WithoutIds(t[1..], key, b);
      } else {
        assert t == WithoutIds(s[1..], key, a);
      }
    }
  }

  lemma {:induction false} FilterWithout<T>(s: seq<T>, key: T -> string, k: string, p: T -> bool)
    requires forall y :: p(y) == (key(y) != k)
    ensures Filter(s, p) == WithoutIds(s, key, {k})
  {
    if s != [] {
      FilterWithout(s[1..], key, k, p);
    }
  }

  /** `s.filter(y => key(y) !== k)` — every delete-by-id of the store. */
  function RemoveKey<T(==)>(s: seq<T>, key: T -> string, k: string): (r: seq<T>)
    ensures forall j :: 0 <= j < |r| ==> key(r[j]) != k && r[j] in s
    ensures forall j :: 0 <= j < |s| && key(s[j]) != k ==> s[j] in r
    ensures r == WithoutIds(s, key, {k})
  {
    var p := (y: T) => key(y) != k;
    FilterWithout(s, key, k, p);
    Filter(s, p)
  }
}
