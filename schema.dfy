/** The edits both sync scripts make to the colour properties of the extension manifest: add a
    descriptor per config key, drop the keys no mapping names, order the keys. */
module Schema {
  import opened Collections
  import opened Text
  import opened Sequences
  import opened Sorting
  import opened Manifest

  /** Every object in a parsed document is a well-formed dictionary, as a JSON parser builds. */
  ghost predicate WellFormed(j: Json) {
    match j
    case JArr(items) => forall i | 0 <= i < |items| :: WellFormed(items[i])
    case JObj(d) => d.Valid() && forall k | k in d.entries :: WellFormed(d.entries[k])
    case _ => true
  }

  /** Gives each key in turn a fresh `Descriptor` unless `present` accepts what the properties
      already hold for it. */
  function AddDescriptors(props: Dict<Json>, keys: seq<string>, present: Option<Json> -> bool): (r: Dict<Json>)
    requires props.Valid()
    ensures r.Valid()
    decreases |keys|
  {
    if keys == [] then props
    else
      var n := |keys| - 1;
      var d := AddDescriptors(props, keys[..n], present);
      if present(Member(d, keys[n])) then d else Put(d, keys[n], Descriptor(keys[n]))
  }

  /** Adding descriptors keeps the old keys in their slots and adds exactly the given keys. */
  lemma {:induction false} AddDescriptorsKeys(props: Dict<Json>, keys: seq<string>, present: Option<Json> -> bool)
    requires props.Valid() && !present(None)
    ensures |props.keys| <= |AddDescriptors(props, keys, present).keys|
    ensures AddDescriptors(props, keys, present).keys[..|props.keys|] == props.keys
    ensures forall k :: k in AddDescriptors(props, keys, present).entries <==> k in props.entries || k in keys
    decreases |keys|
  {
    if keys != [] {
      var n := |keys| - 1;
      var d := AddDescriptors(props, keys[..n], present);
      AddDescriptorsKeys(props, keys[..n], present);
      assert keys == keys[..n] + [keys[n]];
      var r := AddDescriptors(props, keys, present);
      assert r.keys[..|props.keys|] == d.keys[..|props.keys|];
    }
  }

  /** When a descriptor itself counts as present, a key ends up with a descriptor exactly when
      it is one of the given keys and its old value was not accepted. */
  lemma {:induction false} AddDescriptorsValues(props: Dict<Json>, keys: seq<string>, present: Option<Json> -> bool)
    requires props.Valid() && !present(None)
    requires forall k :: present(Some(Descriptor(k)))
    ensures forall k | k in AddDescriptors(props, keys, present).entries ::
      AddDescriptors(props, keys, present).entries[k]
        == if k in props.entries && (k !in keys || present(Member(props, k))) then props.entries[k] else Descriptor(k)
    decreases |keys|
  {
    if keys != [] {
      var n := |keys| - 1;
      var d := AddDescriptors(props, keys[..n], present);
      AddDescriptorsValues(props, keys[..n], present);
      AddDescriptorsKeys(props, keys[..n], present);
      var r := AddDescriptors(props, keys, present);
      forall k | k in r.entries
        ensures r.entries[k] == if k in props.entries && (k !in keys || present(Member(props, k))) then props.entries[k] else Descriptor(k)
      {
        assert k in keys <==> k in keys[..n] || k == keys[n] by {
          assert keys == keys[..n] + [keys[n]];
        }
      }
    }
  }

  /** Nothing is added when every key is already accepted. */
  lemma {:induction false} AddDescriptorsNoop(props: Dict<Json>, keys: seq<string>, present: Option<Json> -> bool)
    requires props.Valid()
    requires forall i | 0 <= i < |keys| :: present(Member(props, keys[i]))
    ensures AddDescriptors(props, keys, present) == props
    decreases |keys|
  {
    if keys != [] {
      var n := |keys| - 1;
      AddDescriptorsNoop(props, keys[..n], present);
    }
  }

  /** A filter of a duplicate-free list is duplicate-free. */
  lemma {:induction false} FilterDistinct(s: seq<string>, keep: string -> bool)
    requires Distinct(s)
    ensures Distinct(Filter(s, keep))
    decreases |s|
  {
    if s != [] {
      var n := |s| - 1;
      FilterDistinct(s[..n], keep);
      FilterMembers(s[..n], keep);
      assert s[n] !in s[..n];
    }
  }

  /** Deleting a key from a filtered list is filtering with that key excluded as well. */
  lemma {:induction false} WithoutFilter(s: seq<string>, p: string -> bool, q: string -> bool, t: string)
    requires forall x :: q(x) == (p(x) && x != t)
    ensures Without(Filter(s, p), t) == Filter(s, q)
    decreases |s|
  {
    if s != [] {
      var n := |s| - 1;
      WithoutFilter(s[..n], p, q, t);
      var f := Filter(s[..n], p);
      assert q(s[n]) == (p(s[n]) && s[n] != t);
      assert Filter(s, q) == Filter(s[..n], q) + (if q(s[n]) then [s[n]] else []);
      if p(s[n]) {
        var x := f + [s[n]];
        assert Filter(s, p) == x;
        assert x[..|f|] == f && x[|f|] == s[n];
        assert Without(x, t) == Without(f, t) + (if s[n] == t then [] else [s[n]]);
      } else {
        assert f + [] == f && Filter(s[..n], q) + [] == Filter(s[..n], q);
        assert Filter(s, p) == f;
        assert Filter(s, q) == Filter(s[..n], q);
      }
    }
  }

  /** The properties whose key is among `ks`, in their old order. */
  function Prune(d: Dict<Json>, ks: seq<string>): (r: Dict<Json>)
    requires d.Valid()
    ensures r.Valid()
  {
    FilterDistinct(d.keys, k => k in ks);
    FilterMembers(d.keys, k => k in ks);
    Dict(Filter(d.keys, k => k in ks), map k | k in d.entries && k in ks :: d.entries[k])
  }

  /** The properties without the keys `rs`, in their old order. */
  function Drop(d: Dict<Json>, rs: seq<string>): (r: Dict<Json>)
    requires d.Valid()
    ensures r.Valid()
  {
    FilterDistinct(d.keys, k => k !in rs);
    FilterMembers(d.keys, k => k !in rs);
    Dict(Filter(d.keys, k => k !in rs), map k | k in d.entries && k !in rs :: d.entries[k])
  }

  lemma DropNone(d: Dict<Json>)
    requires d.Valid()
    ensures Drop(d, []) == d
  {
    FilterAll(d.keys, k => k !in []);
  }

  /** `del d[t]` after dropping `rs` drops `rs + [t]`. */
  lemma DropStep(d: Dict<Json>, rs: seq<string>, t: string)
    requires d.Valid()
    ensures Remove(Drop(d, rs), t) == Drop(d, rs + [t])
  {
    WithoutFilter(d.keys, k => k !in rs, k => k !in rs + [t], t);
  }

  /** Dropping the keys outside `seen` keeps the keys of `ks`, when the two name the same keys. */
  lemma DropUnseen(d: Dict<Json>, ks: seq<string>, seen: set<string>)
    requires d.Valid()
    requires forall k :: k in seen <==> k in ks
    ensures Drop(d, Filter(d.keys, k => k !in seen)) == Prune(d, ks)
  {
    var rs := Filter(d.keys, k => k !in seen);
    FilterMembers(d.keys, k => k !in seen);
    FilterCongruent(d.keys, k => k !in rs, k => k in ks);
  }

  /** `dict(sorted(d.items()))`: the keys are distinct, so the pairs are ordered by key alone
      and the values are never compared. */
  function SortKeys(d: Dict<Json>): (r: Dict<Json>)
    requires d.Valid()
    ensures r.Valid()
  {
    SortByDistinct(d.keys);
    assert forall k :: k in SortBy(d.keys, Self) <==> k in d.keys by {
      forall k ensures k in SortBy(d.keys, Self) <==> k in d.keys {
        assert k in multiset(SortBy(d.keys, Self)) <==> k in multiset(d.keys);
      }
    }
    Dict(SortBy(d.keys, Self), d.entries)
  }

  /** Ordering keys that are already ordered changes nothing. */
  lemma SortKeysIdentity(d: Dict<Json>)
    requires d.Valid() && SortedBy(d.keys, Self)
    ensures SortKeys(d) == d
  {
    SortByIdentity(d.keys, Self);
  }

  /** Keeping the keys a dictionary already limits itself to changes nothing. */
  lemma PruneIdentity(d: Dict<Json>, ks: seq<string>)
    requires d.Valid()
    requires forall k | k in d.entries :: k in ks
    ensures Prune(d, ks) == d
  {
    FilterAll(d.keys, k => k in ks);
  }

  /** `j[k]` when `j` is an object that has `k`. */
  function ObjMember(j: Option<Json>, k: string): Option<Json> {
    if j.Some? && j.value.JObj? && k in j.value.members.entries then Some(j.value.members.entries[k]) else None
  }

  /** `contributes.configuration[0]`, when the manifest has it. */
  function ConfigEntry(pkg: Json): (r: Option<Json>)
    ensures WellFormed(pkg) && r.Some? ==> WellFormed(r.value)
  {
    var configuration := ObjMember(ObjMember(Some(pkg), "contributes"), "configuration");
    if configuration.Some? && configuration.value.JArr? && configuration.value.items != [] then
      assert WellFormed(pkg) ==> WellFormed(configuration.value) by {
        if WellFormed(pkg) {
          assert WellFormed(ObjMember(Some(pkg), "contributes").value);
        }
      }
      Some(configuration.value.items[0])
    else None
  }

  /** `properties[ColorsProperty].properties` of a configuration entry, when it has them. */
  function EntryColorProps(config: Json): (r: Option<Dict<Json>>)
    ensures WellFormed(config) && r.Some? ==> WellFormed(JObj(r.value))
  {
    var properties := ObjMember(Some(config), "properties");
    var colors := ObjMember(properties, ColorsProperty);
    var p := ObjMember(colors, "properties");
    if p.Some? && p.value.JObj? then
      assert WellFormed(config) ==> WellFormed(p.value) by {
        if WellFormed(config) {
          assert WellFormed(properties.value);
          assert WellFormed(colors.value);
        }
      }
      Some(p.value.members)
    else None
  }

  /** The colour properties `contributes.configuration[0].properties[ColorsProperty].properties`,
      when the manifest has them. */
  function ColorProps(pkg: Json): (r: Option<Dict<Json>>)
    ensures WellFormed(pkg) && r.Some? ==> WellFormed(JObj(r.value))
  {
    if ConfigEntry(pkg).Some? then EntryColorProps(ConfigEntry(pkg).value) else None
  }

  /** A configuration entry with colour properties has the objects on their path. */
  lemma EntryColorPropsPath(config: Json, q: Dict<Json>)
    requires WellFormed(config) && EntryColorProps(config) == Some(q)
    ensures config.JObj? && "properties" in config.members.entries && config.members.entries["properties"].JObj?
    ensures ColorsProperty in config.members.entries["properties"].members.entries
    ensures config.members.entries["properties"].members.entries[ColorsProperty].JObj?
    ensures "properties" in config.members.entries["properties"].members.entries[ColorsProperty].members.entries
    ensures config.members.entries["properties"].members.entries[ColorsProperty].members.entries["properties"] == JObj(q)
  {
  }

  /** Setting the colour object of a configuration entry sets its colour properties. */
  lemma EntryColorPropsPut(config: Dict<Json>, props: Dict<Json>, colors: Dict<Json>, q: Dict<Json>)
    requires config.Valid() && props.Valid()
    requires ObjMember(Some(JObj(colors)), "properties") == Some(JObj(q))
    ensures EntryColorProps(JObj(Put(config, "properties", JObj(Put(props, ColorsProperty, JObj(colors)))))) == Some(q)
  {
  }

  /** A manifest with a first configuration entry has the objects and the list on its path. */
  lemma ConfigEntryPath(pkg: Json)
    requires WellFormed(pkg) && ConfigEntry(pkg).Some?
    ensures pkg.JObj? && pkg.members.Valid() && "contributes" in pkg.members.entries
    ensures pkg.members.entries["contributes"].JObj? && pkg.members.entries["contributes"].members.Valid()
    ensures "configuration" in pkg.members.entries["contributes"].members.entries
    ensures pkg.members.entries["contributes"].members.entries["configuration"].JArr?
    ensures |pkg.members.entries["contributes"].members.entries["configuration"].items| > 0
    ensures ConfigEntry(pkg) == Some(pkg.members.entries["contributes"].members.entries["configuration"].items[0])
  {
    assert WellFormed(pkg.members.entries["contributes"]);
  }

  /** Setting the first configuration entry makes it the one `ConfigEntry` finds. */
  lemma ConfigEntryPutConfig(top: Dict<Json>, contributes: Dict<Json>, items: seq<Json>, config: Dict<Json>)
    requires top.Valid() && contributes.Valid() && |items| > 0
    ensures ConfigEntry(PutConfig(top, contributes, items, config)) == Some(JObj(config))
  {
  }

  /** Setting the first configuration entry leaves the top-level keys and every other
      top-level member as they were. */
  lemma PutConfigKeeps(top: Dict<Json>, contributes: Dict<Json>, items: seq<Json>, config: Dict<Json>)
    requires top.Valid() && contributes.Valid() && |items| > 0 && "contributes" in top.entries
    ensures PutConfig(top, contributes, items, config).members.keys == top.keys
    ensures forall k | k != "contributes" :: Member(PutConfig(top, contributes, items, config).members, k) == Member(top, k)
  {
  }

  /** The manifest with `config` as the first entry of its configuration list. */
  function PutConfig(top: Dict<Json>, contributes: Dict<Json>, items: seq<Json>, config: Dict<Json>): Json
    requires top.Valid() && contributes.Valid() && |items| > 0
  {
    JObj(Put(top, "contributes", JObj(Put(contributes, "configuration", JArr(items[0 := JObj(config)])))))
  }
}
