/** The library sorts the scripts call (`list.sort(key=...)`, `sorted(...)` and
    `Array.prototype.sort`), all of which are stable, as an insertion sort by a string key. */
module Sorting {
  import opened Collections
  import opened Text

  predicate SortedBy<T>(s: seq<T>, key: T -> string) {
    forall i, j | 0 <= i < j < |s| :: StrLe(key(s[i]), key(s[j]))
  }

  /** The elements of `s` whose key is `k`, in order. */
  function WithKey<T>(s: seq<T>, key: T -> string, k: string): seq<T>
    decreases |s|
  {
    if s == [] then [] else (if key(s[0]) == k then [s[0]] else []) + WithKey(s[1..], key, k)
  }

  /** Places `x` after every element whose key is not greater than its own. */
  function InsertBy<T(==)>(x: T, s: seq<T>, key: T -> string): (r: seq<T>)
    ensures multiset(r) == multiset(s) + multiset{x}
    decreases |s|
  {
    if s == [] || StrLt(key(x), key(s[0])) then [x] + s
    else
      assert s == [s[0]] + s[1..];
      [s[0]] + InsertBy(x, s[1..], key)
  }

  function SortBy<T(==)>(xs: seq<T>, key: T -> string): (r: seq<T>)
    ensures multiset(r) == multiset(xs)
    decreases |xs|
  {
    if xs == [] then []
    else
      var n := |xs| - 1;
      assert xs == xs[..n] + [xs[n]];
      InsertBy(xs[n], SortBy(xs[..n], key), key)
  }

  lemma {:induction false} InsertBySorted<T>(x: T, s: seq<T>, key: T -> string)
    requires SortedBy(s, key)
    ensures SortedBy(InsertBy(x, s, key), key)
    decreases |s|
  {
    if s == [] || StrLt(key(x), key(s[0])) {
      var r := [x] + s;
      forall i, j | 0 <= i < j < |r| ensures StrLe(key(r[i]), key(r[j])) {
        if i == 0 && j > 1 && key(s[0]) != key(s[j - 1]) {
          StrLtTransitive(key(x), key(s[0]), key(s[j - 1]));
        }
      }
    } else {
      var t := InsertBy(x, s[1..], key);
      InsertBySorted(x, s[1..], key);
      var r := [s[0]] + t;
      if key(x) != key(s[0]) {
        StrLtTotal(key(x), key(s[0]));
      }
      forall j | 0 <= j < |t| ensures StrLe(key(s[0]), key(t[j])) {
        assert t[j] in multiset(t);
        if t[j] != x {
          assert t[j] in s[1..];
          var m :| 0 <= m < |s[1..]| && s[1..][m] == t[j];
          assert s[m + 1] == t[j];
        }
      }
      forall i, j | 0 <= i < j < |r| ensures StrLe(key(r[i]), key(r[j])) {
        if i > 0 {
          assert r[i] == t[i - 1] && r[j] == t[j - 1];
        } else {
          assert r[j] == t[j - 1];
        }
      }
    }
  }

  lemma {:induction false} SortBySorted<T>(xs: seq<T>, key: T -> string)
    ensures SortedBy(SortBy(xs, key), key)
    decreases |xs|
  {
    if xs != [] {
      var n := |xs| - 1;
      SortBySorted(xs[..n], key);
      InsertBySorted(xs[n], SortBy(xs[..n], key), key);
    }
  }

  lemma {:induction false} WithKeyAppend<T>(s: seq<T>, x: T, key: T -> string, k: string)
    ensures WithKey(s + [x], key, k) == WithKey(s, key, k) + (if key(x) == k then [x] else [])
    decreases |s|
  {
    if s != [] {
      assert (s + [x])[1..] == s[1..] + [x];
      WithKeyAppend(s[1..], x, key, k);
    }
  }

  lemma {:induction false} WithKeyNone<T>(s: seq<T>, key: T -> string, k: string)
    requires forall i | 0 <= i < |s| :: key(s[i]) != k
    ensures WithKey(s, key, k) == []
    decreases |s|
  {
    if s != [] {
      WithKeyNone(s[1..], key, k);
    }
  }

  lemma WithKeyCons<T>(x: T, s: seq<T>, key: T -> string, k: string)
    ensures WithKey([x] + s, key, k) == (if key(x) == k then [x] else []) + WithKey(s, key, k)
  {
    assert ([x] + s)[1..] == s;
  }

  lemma Regroup<T>(a: seq<T>, b: seq<T>, c: seq<T>, bc: seq<T>)
    requires bc == b + c
    ensures a + bc == (a + b) + c
  {
  }

  /** Inserting before the first element: nothing of key `k` can follow an `x` of key `k`. */
  lemma InsertByWithKeyFront<T>(x: T, s: seq<T>, key: T -> string, k: string)
    requires SortedBy(s, key) && s != [] && StrLt(key(x), key(s[0]))
    ensures WithKey(InsertBy(x, s, key), key, k) == WithKey(s, key, k) + (if key(x) == k then [x] else [])
  {
    assert InsertBy(x, s, key) == [x] + s;
    WithKeyCons(x, s, key, k);
    if key(x) == k {
      forall i | 0 <= i < |s| ensures key(s[i]) != k {
        if key(s[i]) != key(s[0]) {
          StrLtTransitive(key(x), key(s[0]), key(s[i]));
        }
        StrLtIrreflexive(key(x));
      }
      WithKeyNone(s, key, k);
    }
  }

  /** Inserting past the first element: the first element keeps its place in front. */
  lemma InsertByWithKeyPast<T>(x: T, s: seq<T>, key: T -> string, k: string)
    requires s != [] && !StrLt(key(x), key(s[0]))
    requires WithKey(InsertBy(x, s[1..], key), key, k) == WithKey(s[1..], key, k) + (if key(x) == k then [x] else [])
    ensures WithKey(InsertBy(x, s, key), key, k) == WithKey(s, key, k) + (if key(x) == k then [x] else [])
  {
    var t := InsertBy(x, s[1..], key);
    assert InsertBy(x, s, key) == [s[0]] + t;
    WithKeyCons(s[0], t, key, k);
    var head: seq<T> := if key(s[0]) == k then [s[0]] else [];
    Regroup(head, WithKey(s[1..], key, k), if key(x) == k then [x] else [], WithKey(t, key, k));
  }

  lemma {:induction false} InsertByWithKey<T>(x: T, s: seq<T>, key: T -> string, k: string)
    requires SortedBy(s, key)
    ensures WithKey(InsertBy(x, s, key), key, k) == WithKey(s, key, k) + (if key(x) == k then [x] else [])
    decreases |s|
  {
    if s == [] {
      WithKeyCons(x, s, key, k);
      assert [x] + s == [x];
    } else if StrLt(key(x), key(s[0])) {
      InsertByWithKeyFront(x, s, key, k);
    } else {
      InsertByWithKey(x, s[1..], key, k);
      InsertByWithKeyPast(x, s, key, k);
    }
  }

  /** The sort is stable: the elements that share a key keep their relative order. */
  lemma {:induction false} SortByStable<T>(xs: seq<T>, key: T -> string, k: string)
    ensures WithKey(SortBy(xs, key), key, k) == WithKey(xs, key, k)
    decreases |xs|
  {
    if xs != [] {
      var n := |xs| - 1;
      var ys, x := xs[..n], xs[n];
      assert ys + [x] == xs;
      assert SortBy(xs, key) == InsertBy(x, SortBy(ys, key), key);
      SortBySorted(ys, key);
      SortByStable(ys, key, k);
      InsertByWithKey(x, SortBy(ys, key), key, k);
      WithKeyAppend(ys, x, key, k);
    }
  }

  /** The key of a string sorted by itself. */
  function Self(s: string): string {
    s
  }

  /** Inserting an element whose key is not below any other's appends it. */
  lemma {:induction false} InsertByLast<T>(x: T, s: seq<T>, key: T -> string)
    requires forall i | 0 <= i < |s| :: StrLe(key(s[i]), key(x))
    ensures InsertBy(x, s, key) == s + [x]
    decreases |s|
  {
    if s != [] {
      if StrLt(key(x), key(s[0])) {
        if key(s[0]) == key(x) {
          StrLtIrreflexive(key(x));
        } else {
          StrLtAsymmetric(key(x), key(s[0]));
        }
      }
      InsertByLast(x, s[1..], key);
      assert [s[0]] + (s[1..] + [x]) == s + [x];
    }
  }

  /** Sorting what is already sorted changes nothing. */
  lemma {:induction false} SortByIdentity<T>(xs: seq<T>, key: T -> string)
    requires SortedBy(xs, key)
    ensures SortBy(xs, key) == xs
    decreases |xs|
  {
    if xs != [] {
      var n := |xs| - 1;
      assert SortedBy(xs[..n], key);
      SortByIdentity(xs[..n], key);
      InsertByLast(xs[n], xs[..n], key);
      assert xs[..n] + [xs[n]] == xs;
    }
  }

  lemma {:induction false} WithKeyHas<T>(s: seq<T>, key: T -> string, i: nat)
    requires i < |s|
    ensures |WithKey(s, key, key(s[i]))| >= 1
    decreases |s|
  {
    if i > 0 {
      WithKeyHas(s[1..], key, i - 1);
    }
  }

  /** Two elements that share a key both show up among the elements with that key. */
  lemma {:induction false} WithKeyTwo<T>(s: seq<T>, key: T -> string, i: nat, j: nat)
    requires i < j < |s| && key(s[i]) == key(s[j])
    ensures |WithKey(s, key, key(s[i]))| >= 2
    decreases |s|
  {
    if i == 0 {
      WithKeyHas(s[1..], key, j - 1);
    } else {
      WithKeyTwo(s[1..], key, i - 1, j - 1);
    }
  }

  lemma {:induction false} WithKeyMember(s: seq<string>, k: string)
    requires |WithKey(s, Self, k)| > 0
    ensures k in s
    decreases |s|
  {
    if s[0] != k {
      WithKeyMember(s[1..], k);
    }
  }

  /** A duplicate-free list has at most one element equal to any string. */
  lemma {:induction false} WithKeyAtMostOne(s: seq<string>, k: string)
    requires Distinct(s)
    ensures |WithKey(s, Self, k)| <= 1
    decreases |s|
  {
    if s != [] {
      WithKeyAtMostOne(s[1..], k);
      if s[0] == k && |WithKey(s[1..], Self, k)| > 0 {
        WithKeyMember(s[1..], k);
      }
    }
  }

  /** Sorting a duplicate-free list of strings keeps it duplicate-free. */
  lemma SortByDistinct(xs: seq<string>)
    requires Distinct(xs)
    ensures Distinct(SortBy(xs, Self))
  {
    var r := SortBy(xs, Self);
    forall i, j | 0 <= i < j < |r| ensures r[i] != r[j] {
      if r[i] == r[j] {
        WithKeyTwo(r, Self, i, j);
        SortByStable(xs, Self, r[i]);
        WithKeyAtMostOne(xs, r[i]);
      }
    }
  }

  /** A duplicate-free list holds each value at most once. */
  lemma {:induction false} DistinctCount<T>(s: seq<T>, x: T)
    requires Distinct(s)
    ensures multiset(s)[x] <= 1
    decreases |s|
  {
    if s != [] {
      var n := |s| - 1;
      assert s == s[..n] + [s[n]];
      assert Distinct(s[..n]);
      DistinctCount(s[..n], x);
    }
  }

  /** A value at two positions of a list is counted at least twice. */
  lemma RepeatCount<T>(s: seq<T>, i: nat, j: nat)
    requires i < j < |s| && s[i] == s[j]
    ensures multiset(s)[s[i]] >= 2
  {
    assert s == s[..j] + [s[j]] + s[j + 1..];
    assert s[..j][i] == s[i];
  }

  /** A permutation of a duplicate-free list is duplicate-free. */
  lemma PermutationDistinct<T>(a: seq<T>, b: seq<T>)
    requires multiset(a) == multiset(b) && Distinct(a)
    ensures Distinct(b)
  {
    forall i, j | 0 <= i < j < |b| ensures b[i] != b[j] {
      if b[i] == b[j] {
        RepeatCount(b, i, j);
        DistinctCount(a, b[i]);
      }
    }
  }
}
