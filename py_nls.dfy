/** `update_package_nls` of the Python sync script: the diff between the NLS string table on disk
    and the description keys the mappings ask for. The `_ja` table gets the same diff. */
module PyNls {
  import opened Collections
  import opened Text
  import opened Sequences
  import opened Manifest
  import opened NlsInsert
  import opened Schema

  /** The entry each mapping asks for, in mapping order: its description key and its scope. */
  function NlsEntries(ms: seq<Mapping>): (es: seq<Entry>)
    ensures |es| == |ms|
    ensures forall i | 0 <= i < |ms| :: es[i] == Entry(NlsKey(ms[i].configKey), ms[i].scope)
  {
    seq(|ms|, i requires 0 <= i < |ms| => Entry(NlsKey(ms[i].configKey), ms[i].scope))
  }

  /** The key of the table's own heading entry, which has no config key in it. */
  const BareDescriptionKey: string := "configuration.properties.colors.description"

  /** The whole-key part of the pattern the script matches keys against: the colour prefix, at
      least one character other than a newline, then `.description`. */
  predicate ColorKeyShape(t: string) {
    && |t| > |ColorsPrefix| + |DescriptionSuffix|
    && StartsWith(t, ColorsPrefix) && EndsWith(t, DescriptionSuffix)
    && '\n' !in t[|ColorsPrefix|..|t| - |DescriptionSuffix|]
  }

  /** Python's `re.match` of that pattern anchored with `^` and `$`: `$` matches at the end of
      the key and also just before a final newline. */
  predicate MatchesColorKey(k: string) {
    ColorKeyShape(k) || (|k| > 0 && k[|k| - 1] == '\n' && ColorKeyShape(k[..|k| - 1]))
  }

  /** An entry whose key the table lacks. */
  function IsNew(existing: Dict<Json>): Entry -> bool {
    (e: Entry) => e.key !in existing.entries
  }

  /** An entry whose key the table has with another value than the scope. */
  function IsChanged(existing: Dict<Json>): Entry -> bool {
    (e: Entry) => e.key in existing.entries && existing.entries[e.key] != JStr(e.value)
  }

  /** A table key that looks like a colour description but no mapping asks for. */
  function IsObsolete(valid: set<string>): string -> bool {
    k => MatchesColorKey(k) && k != BareDescriptionKey && k !in valid
  }

  /** The three lists `update_package_nls` returns beside the table it read. */
  datatype NlsDiff = NlsDiff(newKeys: seq<Entry>, keysToUpdate: seq<Entry>, keysToRemove: seq<string>)

  function PyNlsDiff(existing: Dict<Json>, ms: seq<Mapping>): NlsDiff {
    NlsDiff(Filter(NlsEntries(ms), IsNew(existing)),
            Filter(NlsEntries(ms), IsChanged(existing)),
            Filter(existing.keys, IsObsolete(DescriptionKeys(ms))))
  }

  /** `update_package_nls` on the parsed table. */
  method UpdatePackageNls(existing: Dict<Json>, mappings: seq<Mapping>) returns (d: NlsDiff)
    ensures d == PyNlsDiff(existing, mappings)
  {
    var valid := ValidColorKeys(mappings);
    var newKeys, keysToUpdate := DiffMappings(existing, mappings);
    var keysToRemove := ObsoleteKeys(existing, valid);
    d := NlsDiff(newKeys, keysToUpdate, keysToRemove);
  }

  method ValidColorKeys(mappings: seq<Mapping>) returns (valid: set<string>)
    ensures valid == DescriptionKeys(mappings)
  {
    valid := {};
    var i := 0;
    assert DescriptionKeys(mappings[..0]) == {};
    while i < |mappings|
      invariant 0 <= i <= |mappings|
      invariant valid == DescriptionKeys(mappings[..i])
    {
      DescriptionKeysStep(mappings, i);
      var nlsKey := ColorsPrefix + mappings[i].configKey + DescriptionSuffix;
      valid := valid + {nlsKey};
      i := i + 1;
    }
    assert mappings[..i] == mappings;
  }

  method DiffMappings(existing: Dict<Json>, mappings: seq<Mapping>) returns (newKeys: seq<Entry>, keysToUpdate: seq<Entry>)
    ensures newKeys == Filter(NlsEntries(mappings), IsNew(existing))
    ensures keysToUpdate == Filter(NlsEntries(mappings), IsChanged(existing))
  {
    ghost var es := NlsEntries(mappings);
    newKeys, keysToUpdate := [], [];
    var i := 0;
    assert es[..0] == [];
    while i < |mappings|
      invariant 0 <= i <= |mappings|
      invariant newKeys == Filter(es[..i], IsNew(existing))
      invariant keysToUpdate == Filter(es[..i], IsChanged(existing))
    {
      FilterStep(es, i, IsNew(existing));
      FilterStep(es, i, IsChanged(existing));
      var nlsKey := ColorsPrefix + mappings[i].configKey + DescriptionSuffix;
      if nlsKey !in existing.entries {
        newKeys := newKeys + [Entry(nlsKey, mappings[i].scope)];
      } else if existing.entries[nlsKey] != JStr(mappings[i].scope) {
        keysToUpdate := keysToUpdate + [Entry(nlsKey, mappings[i].scope)];
      }
      i := i + 1;
    }
    assert es[..i] == es;
  }

  method ObsoleteKeys(existing: Dict<Json>, valid: set<string>) returns (keysToRemove: seq<string>)
    ensures keysToRemove == Filter(existing.keys, IsObsolete(valid))
  {
    keysToRemove := [];
    var i := 0;
    assert existing.keys[..0] == [];
    while i < |existing.keys|
      invariant 0 <= i <= |existing.keys|
      invariant keysToRemove == Filter(existing.keys[..i], IsObsolete(valid))
    {
      FilterStep(existing.keys, i, IsObsolete(valid));
      var key := existing.keys[i];
      if MatchesColorKey(key) && key != BareDescriptionKey && key !in valid {
        keysToRemove := keysToRemove + [key];
      }
      i := i + 1;
    }
    assert existing.keys[..i] == existing.keys;
  }

  /** A mapping's description key matches the pattern exactly when its config key is non-empty
      and has no newline: keys the mappings ask for and keys the pattern removes are told apart by
      `valid_color_keys` alone. */
  lemma NlsKeyMatches(c: string)
    ensures MatchesColorKey(NlsKey(c)) <==> c != "" && '\n' !in c
  {
    var k := NlsKey(c);
    assert k[|ColorsPrefix|..|k| - |DescriptionSuffix|] == c;
    assert k[|k| - 1] == DescriptionSuffix[|DescriptionSuffix| - 1];
  }

  /** The heading key never matches the pattern, so the explicit test against it never decides
      anything. */
  lemma BareKeyNeverMatches()
    ensures !MatchesColorKey(BareDescriptionKey)
  {
    assert |BareDescriptionKey| == |ColorsPrefix| + |DescriptionSuffix| - 1;
    assert BareDescriptionKey[|BareDescriptionKey| - 1] != '\n';
  }

  /** What each of the three lists holds. */
  lemma PyNlsDiffMembers(existing: Dict<Json>, ms: seq<Mapping>)
    requires existing.Valid()
    ensures forall e :: e in PyNlsDiff(existing, ms).newKeys <==> e in NlsEntries(ms) && e.key !in existing.entries
    ensures forall e :: e in PyNlsDiff(existing, ms).keysToUpdate <==>
      e in NlsEntries(ms) && e.key in existing.entries && existing.entries[e.key] != JStr(e.value)
    ensures forall k :: k in PyNlsDiff(existing, ms).keysToRemove <==>
      k in existing.entries && MatchesColorKey(k) && k !in DescriptionKeys(ms)
    ensures BareDescriptionKey !in PyNlsDiff(existing, ms).keysToRemove
  {
    FilterMembers(NlsEntries(ms), IsNew(existing));
    FilterMembers(NlsEntries(ms), IsChanged(existing));
    FilterMembers(existing.keys, IsObsolete(DescriptionKeys(ms)));
    BareKeyNeverMatches();
  }

  /** No key is both removed and asked for by a mapping, and no key is removed twice. */
  lemma PyNlsRemoveDisjoint(existing: Dict<Json>, ms: seq<Mapping>, i: nat)
    requires existing.Valid() && i < |ms|
    ensures NlsKey(ms[i].configKey) !in PyNlsDiff(existing, ms).keysToRemove
    ensures Distinct(PyNlsDiff(existing, ms).keysToRemove)
  {
    FilterMembers(existing.keys, IsObsolete(DescriptionKeys(ms)));
    FilterDistinct(existing.keys, IsObsolete(DescriptionKeys(ms)));
  }

  /** Each mapping's entry is new, or to be updated, or already in the table with its scope as
      value, and exactly one of the three. */
  lemma PyNlsEntryClassified(existing: Dict<Json>, ms: seq<Mapping>, i: nat)
    requires existing.Valid() && i < |ms|
    ensures var e := Entry(NlsKey(ms[i].configKey), ms[i].scope);
      var current := e.key in existing.entries && existing.entries[e.key] == JStr(e.value);
      && (e in PyNlsDiff(existing, ms).newKeys || e in PyNlsDiff(existing, ms).keysToUpdate || current)
      && !(e in PyNlsDiff(existing, ms).newKeys && e in PyNlsDiff(existing, ms).keysToUpdate)
      && !(e in PyNlsDiff(existing, ms).newKeys && current)
      && !(e in PyNlsDiff(existing, ms).keysToUpdate && current)
  {
    PyNlsDiffMembers(existing, ms);
    assert NlsEntries(ms)[i] == Entry(NlsKey(ms[i].configKey), ms[i].scope);
  }

  /** Nothing guards against two mappings with one config key: both are listed as new, and the
      NLS file then receives the key twice. */
  lemma PyNlsSharedConfigKey()
    ensures PyNlsDiff(EmptyDict(), [Mapping("x", "a"), Mapping("x", "b")]).newKeys
      == [Entry(NlsKey("x"), "a"), Entry(NlsKey("x"), "b")]
  {
    var ms := [Mapping("x", "a"), Mapping("x", "b")];
    var es := NlsEntries(ms);
    FilterStep(es, 0, IsNew(EmptyDict()));
    FilterStep(es, 1, IsNew(EmptyDict()));
    assert es[..0] == [] && es[..2] == es;
  }
}
