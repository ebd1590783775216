/** Insertion-ordered dictionaries keyed by strings: the shape shared by a JavaScript
    `Map`, a JavaScript object whose keys are not array indices, and a Python `dict`.
    Assigning to a key that is already present keeps that key's slot; a new key goes last. */
module Collections {

  datatype Option<T> = None | Some(value: T)

  /** An operation that either yields a value or stops with an error, as an exception would. */
  datatype Result<T> = Success(value: T) | Failure(error: string)

  predicate Distinct<T(==)>(s: seq<T>) {
    forall i, j | 0 <= i < j < |s| :: s[i] != s[j]
  }

  /** `keys` is the insertion order, `entries` the association itself. */
  datatype Dict<V> = Dict(keys: seq<string>, entries: map<string, V>) {
    ghost predicate Valid() {
      Distinct(keys) && (forall k :: k in entries <==> k in keys)
    }
  }

  function EmptyDict<V>(): Dict<V> {
    Dict([], map[])
  }

  /** `m.set(k, v)` / `d[k] = v`. */
  function Put<V>(d: Dict<V>, k: string, v: V): (r: Dict<V>)
    requires d.Valid()
    ensures r.Valid()
    ensures r.entries == d.entries[k := v]
    ensures k in d.entries ==> r.keys == d.keys
    ensures k !in d.entries ==> r.keys == d.keys + [k]
  {
    if k in d.entries then Dict(d.keys, d.entries[k := v]) else Dict(d.keys + [k], d.entries[k := v])
  }

  /** `s` without the occurrences of `k`, in order. */
  function Without(s: seq<string>, k: string): (r: seq<string>)
    ensures forall x :: x in r <==> x in s && x != k
    ensures Distinct(s) ==> Distinct(r)
    ensures |r| <= |s|
    decreases |s|
  {
    if s == [] then []
    else
      var n := |s| - 1;
      var init := Without(s[..n], k);
      assert forall x :: x in s <==> x in s[..n] || x == s[n];
      if s[n] == k then init
      else
        assert Distinct(s) ==> s[n] !in s[..n];
        init + [s[n]]
  }

  /** `del d[k]`: the other keys keep their order. */
  function Remove<V>(d: Dict<V>, k: string): (r: Dict<V>)
    requires d.Valid()
    ensures r.Valid()
    ensures r.entries == d.entries - {k}
    ensures r.keys == Without(d.keys, k)
  {
    Dict(Without(d.keys, k), d.entries - {k})
  }

  /** `Array.from(m.values())` / `d.values()`, in insertion order. */
  function Values<V>(d: Dict<V>): (vs: seq<V>)
    requires d.Valid()
    ensures |vs| == |d.keys|
    ensures forall i | 0 <= i < |vs| :: vs[i] == d.entries[d.keys[i]]
  {
    seq(|d.keys|, i requires 0 <= i < |d.keys| => d.entries[d.keys[i]])
  }

  function KeysOf<V>(ps: seq<(string, V)>): (ks: seq<string>)
    ensures |ks| == |ps|
    ensures forall i | 0 <= i < |ps| :: ks[i] == ps[i].0
  {
    seq(|ps|, i requires 0 <= i < |ps| => ps[i].0)
  }

  lemma KeysOfPrefix<V>(ps: seq<(string, V)>, n: nat)
    requires n <= |ps|
    ensures KeysOf(ps[..n]) == KeysOf(ps)[..n]
  {
  }

  lemma KeysOfAppend<V>(ps: seq<(string, V)>, qs: seq<(string, V)>)
    ensures KeysOf(ps + qs) == KeysOf(ps) + KeysOf(qs)
  {
  }

  /** The position of the first pair whose key is `k`. */
  function FirstIndex<V>(ps: seq<(string, V)>, k: string): (i: nat)
    requires k in KeysOf(ps)
    ensures i < |ps| && ps[i].0 == k
    ensures forall j | 0 <= j < i :: ps[j].0 != k
    decreases |ps|
  {
    var n := |ps| - 1;
    KeysOfPrefix(ps, n);
    if k in KeysOf(ps[..n]) then FirstIndex(ps[..n], k) else n
  }

  /** The position of the last pair whose key is `k`. */
  function LastIndex<V>(ps: seq<(string, V)>, k: string): (i: nat)
    requires k in KeysOf(ps)
    ensures i < |ps| && ps[i].0 == k
    ensures forall j | i < j < |ps| :: ps[j].0 != k
    decreases |ps|
  {
    var n := |ps| - 1;
    if ps[n].0 == k then n
    else
      KeysOfPrefix(ps, n);
      assert k in KeysOf(ps[..n]) by {
        var t :| 0 <= t < |ps| && KeysOf(ps)[t] == k;
        assert KeysOf(ps[..n])[t] == k;
      }
      var i := LastIndex(ps[..n], k);
      assert ps[..n][i] == ps[i];
      i
  }

  /** The value of the last pair whose key is `k`. */
  function LastValue<V>(ps: seq<(string, V)>, k: string): V
    requires k in KeysOf(ps)
  {
    ps[LastIndex(ps, k)].1
  }

  /** The last pair for `k` is the final pair when it has key `k`, else the last one before it. */
  lemma LastValueSnoc<V>(ps: seq<(string, V)>, k: string)
    requires ps != []
    ensures k in KeysOf(ps) <==> ps[|ps| - 1].0 == k || k in KeysOf(ps[..|ps| - 1])
    ensures k in KeysOf(ps) ==>
      LastValue(ps, k) == if ps[|ps| - 1].0 == k then ps[|ps| - 1].1 else LastValue(ps[..|ps| - 1], k)
  {
    var n := |ps| - 1;
    var p := ps[..n];
    KeysOfPrefix(ps, n);
    assert KeysOf(ps) == KeysOf(p) + [ps[n].0];
    if ps[n].0 != k && k in KeysOf(p) {
      var i := LastIndex(p, k);
      assert LastIndex(ps, k) == i;
      assert p[i] == ps[i];
    }
  }

  /** Sets every pair of `ps`, first to last. */
  function PutAll<V>(d: Dict<V>, ps: seq<(string, V)>): (r: Dict<V>)
    requires d.Valid()
    ensures r.Valid()
    decreases |ps|
  {
    if ps == [] then d
    else
      var n := |ps| - 1;
      Put(PutAll(d, ps[..n]), ps[n].0, ps[n].1)
  }

  lemma PutAllSnoc<V>(d: Dict<V>, ps: seq<(string, V)>, p: (string, V))
    requires d.Valid()
    ensures PutAll(d, ps + [p]) == Put(PutAll(d, ps), p.0, p.1)
  {
    assert (ps + [p])[..|ps|] == ps;
  }

  lemma {:induction false} PutAllSplit<V>(d: Dict<V>, ps: seq<(string, V)>, qs: seq<(string, V)>)
    requires d.Valid()
    ensures PutAll(d, ps + qs) == PutAll(PutAll(d, ps), qs)
    decreases |qs|
  {
    if qs == [] {
      assert ps + qs == ps;
    } else {
      var n := |qs| - 1;
      var q, p := qs[..n], qs[n];
      var e, f := PutAll(d, ps + q), PutAll(PutAll(d, ps), q);
      PutAllSplit(d, ps, q);
      assert e == f;
      assert q + [p] == qs;
      assert ps + q + [p] == ps + qs;
      PutAllSnoc(d, ps + q, p);
      PutAllSnoc(PutAll(d, ps), q, p);
      assert PutAll(d, ps + qs) == Put(e, p.0, p.1);
    }
  }

  /** Setting pairs keeps the old keys in their slots and adds exactly the keys of `ps`. */
  lemma {:induction false} PutAllKeys<V>(d: Dict<V>, ps: seq<(string, V)>)
    requires d.Valid()
    ensures var r := PutAll(d, ps);
      && |d.keys| <= |r.keys| && r.keys[..|d.keys|] == d.keys
      && (forall k :: k in r.entries <==> k in d.entries || k in KeysOf(ps))
    decreases |ps|
  {
    if ps != [] {
      var n := |ps| - 1;
      PutAllKeys(d, ps[..n]);
      KeysOfPrefix(ps, n);
      assert KeysOf(ps) == KeysOf(ps[..n]) + [ps[n].0];
      var r0 := PutAll(d, ps[..n]);
      var r := PutAll(d, ps);
      assert r.keys[..|d.keys|] == r0.keys[..|d.keys|];
    }
  }

  /** Every key of `ps` ends up holding the value of its last pair. */
  lemma {:induction false} PutAllValues<V>(d: Dict<V>, ps: seq<(string, V)>)
    requires d.Valid()
    ensures var r := PutAll(d, ps);
      forall k | k in r.entries && k in KeysOf(ps) :: r.entries[k] == LastValue(ps, k)
    decreases |ps|
  {
    if ps != [] {
      var n := |ps| - 1;
      var p := ps[..n];
      PutAllValues(d, p);
      PutAllKeys(d, p);
      var r0 := PutAll(d, p);
      var r := PutAll(d, ps);
      KeysOfPrefix(ps, n);
      assert KeysOf(ps) == KeysOf(p) + [ps[n].0];
      forall k | k in r.entries && k in KeysOf(ps)
        ensures r.entries[k] == LastValue(ps, k)
      {
        if k != ps[n].0 {
          assert k in KeysOf(p);
          assert r.entries[k] == r0.entries[k];
          var i0 := LastIndex(p, k);
          assert LastIndex(ps, k) == i0;
          assert p[i0] == ps[i0];
        }
      }
    }
  }

  /** The keys of `d` that `ps` does not set keep their values. */
  lemma {:induction false} PutAllUntouched<V>(d: Dict<V>, ps: seq<(string, V)>)
    requires d.Valid()
    ensures var r := PutAll(d, ps);
      forall k | k in d.entries && k !in KeysOf(ps) :: k in r.entries && r.entries[k] == d.entries[k]
    decreases |ps|
  {
    if ps != [] {
      var n := |ps| - 1;
      var p := ps[..n];
      PutAllUntouched(d, p);
      KeysOfPrefix(ps, n);
      assert KeysOf(ps) == KeysOf(p) + [ps[n].0];
    }
  }

  lemma FirstIndexPrefix<V>(ps: seq<(string, V)>, n: nat, k: string)
    requires n <= |ps| && k in KeysOf(ps[..n])
    ensures k in KeysOf(ps) && FirstIndex(ps, k) == FirstIndex(ps[..n], k)
  {
    var i0 := FirstIndex(ps[..n], k);
    assert ps[..n][i0] == ps[i0];
    assert KeysOf(ps)[i0] == k;
    var i := FirstIndex(ps, k);
    assert i < n ==> ps[..n][i] == ps[i];
  }

  /** The keys new to `d` follow in the order of their first occurrence in `ps`. */
  lemma {:induction false} PutAllNewKeys<V>(d: Dict<V>, ps: seq<(string, V)>)
    requires d.Valid()
    ensures NewKeysInOrder(d.entries, |d.keys|, ps, PutAll(d, ps).keys)
    decreases |ps|
  {
    if ps != [] {
      var n := |ps| - 1;
      var p := ps[..n];
      var k := ps[n].0;
      PutAllNewKeys(d, p);
      PutAllKeys(d, p);
      var r0 := PutAll(d, p);
      var r := PutAll(d, ps);
      assert r == Put(r0, k, ps[n].1);
      NewKeysStep(d.entries, |d.keys|, ps, r0.keys, r.keys);
    }
  }

  /** The keys after `from` are new, and ordered by first occurrence in `ps`. */
  ghost predicate NewKeysInOrder<V>(known: map<string, V>, from: nat, ps: seq<(string, V)>, keys: seq<string>) {
    && from <= |keys|
    && (forall i | from <= i < |keys| :: keys[i] !in known && keys[i] in KeysOf(ps))
    && (forall i, j | from <= i < j < |keys| :: FirstIndex(ps, keys[i]) < FirstIndex(ps, keys[j]))
  }

  /** One more pair: its key is either already present or new and appended. */
  lemma NewKeysStep<V>(known: map<string, V>, from: nat, ps: seq<(string, V)>, keys0: seq<string>, keys: seq<string>)
    requires ps != []
    requires NewKeysInOrder(known, from, ps[..|ps| - 1], keys0)
    requires var k := ps[|ps| - 1].0;
      keys == keys0 || (keys == keys0 + [k] && k !in KeysOf(ps[..|ps| - 1]) && k !in known)
    ensures NewKeysInOrder(known, from, ps, keys)
  {
    var n := |ps| - 1;
    var p, k := ps[..n], ps[n].0;
    KeysOfPrefix(ps, n);
    assert KeysOf(ps) == KeysOf(p) + [k];
    if keys != keys0 {
      forall j | 0 <= j < n ensures ps[j].0 != k {
        assert KeysOf(p)[j] == ps[j].0;
      }
      assert FirstIndex(ps, k) == n;
    }
    forall i | from <= i < |keys| ensures keys[i] !in known && keys[i] in KeysOf(ps) {
      if i < |keys0| {
        assert keys[i] == keys0[i];
      }
    }
    forall i, j | from <= i < j < |keys| ensures FirstIndex(ps, keys[i]) < FirstIndex(ps, keys[j]) {
      assert keys[i] == keys0[i];
      FirstIndexPrefix(ps, n, keys0[i]);
      if j < |keys0| {
        assert keys[j] == keys0[j];
        FirstIndexPrefix(ps, n, keys0[j]);
      }
    }
  }

  /** What setting the pairs `ps` into `d` yields: the old keys keep their slots, the keys
      new to `d` follow in the order of their first occurrence in `ps`, and every key of `ps`
      holds the value of its last pair. */
  lemma PutAllContents<V>(d: Dict<V>, ps: seq<(string, V)>)
    requires d.Valid()
    ensures var r := PutAll(d, ps);
      && |d.keys| <= |r.keys| && r.keys[..|d.keys|] == d.keys
      && (forall k :: k in r.entries <==> k in d.entries || k in KeysOf(ps))
      && (forall k | k in r.entries && k in KeysOf(ps) :: r.entries[k] == LastValue(ps, k))
      && (forall k | k in r.entries && k !in KeysOf(ps) :: r.entries[k] == d.entries[k])
      && (forall i | |d.keys| <= i < |r.keys| :: r.keys[i] !in d.entries && r.keys[i] in KeysOf(ps))
      && (forall i, j | |d.keys| <= i < j < |r.keys| :: FirstIndex(ps, r.keys[i]) < FirstIndex(ps, r.keys[j]))
  {
    PutAllKeys(d, ps);
    PutAllValues(d, ps);
    PutAllUntouched(d, ps);
    PutAllNewKeys(d, ps);
  }

  /** Setting pairs with distinct keys into an empty dictionary keeps their order. */
  lemma {:induction false} PutAllFresh<V>(ps: seq<(string, V)>)
    requires Distinct(KeysOf(ps))
    ensures PutAll(EmptyDict(), ps).keys == KeysOf(ps)
    decreases |ps|
  {
    if ps != [] {
      var n := |ps| - 1;
      KeysOfPrefix(ps, n);
      assert KeysOf(ps) == KeysOf(ps[..n]) + [ps[n].0];
      PutAllFresh(ps[..n]);
      assert ps[n].0 !in KeysOf(ps[..n]);
    }
  }

  /** Setting the pairs `(k, d[k])` of a dictionary, in its key order, into an empty one
      rebuilds it. */
  lemma Rebuild<V>(d: Dict<V>, ps: seq<(string, V)>)
    requires d.Valid()
    requires KeysOf(ps) == d.keys
    requires forall i | 0 <= i < |ps| :: ps[i].1 == d.entries[d.keys[i]]
    ensures PutAll(EmptyDict(), ps) == d
  {
    var r := PutAll(EmptyDict(), ps);
    PutAllFresh(ps);
    PutAllKeys(EmptyDict<V>(), ps);
    PutAllValues(EmptyDict<V>(), ps);
    RebuildEntries(d, ps, r.entries);
    assert r.keys == d.keys;
  }

  /** A map holding the keys of `ps`, each with its last value, is the dictionary `ps` lists. */
  lemma RebuildEntries<V>(d: Dict<V>, ps: seq<(string, V)>, e: map<string, V>)
    requires d.Valid()
    requires KeysOf(ps) == d.keys
    requires forall i | 0 <= i < |ps| :: ps[i].1 == d.entries[d.keys[i]]
    requires forall k :: k in e <==> k in KeysOf(ps)
    requires forall k | k in e && k in KeysOf(ps) :: e[k] == LastValue(ps, k)
    ensures e == d.entries
  {
    forall k | k in e ensures k in d.entries && e[k] == d.entries[k] {
      var i := LastIndex(ps, k);
      assert d.keys[i] == KeysOf(ps)[i];
    }
  }

  /** Setting pairs whose keys are all new leaves the old values at the front. */
  lemma ValuesPrefix<V>(d: Dict<V>, ps: seq<(string, V)>)
    requires d.Valid()
    requires forall k | k in KeysOf(ps) :: k !in d.entries
    ensures var r := PutAll(d, ps);
      && |d.keys| <= |r.keys| && Values(r)[..|d.keys|] == Values(d)
      && forall i | |d.keys| <= i < |r.keys| :: r.keys[i] in KeysOf(ps)
  {
    PutAllKeys(d, ps);
    PutAllUntouched(d, ps);
    PutAllNewKeys(d, ps);
    var r := PutAll(d, ps);
    forall i | 0 <= i < |d.keys| ensures Values(r)[i] == Values(d)[i] {
      assert r.keys[i] == d.keys[i];
      assert d.keys[i] in d.entries;
    }
  }
}
