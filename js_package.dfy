/** `updatePackageJson` and `updatePackageNls` of the JavaScript sync script: both only ever add
    what is missing or false, and return `undefined` when the manifest has nowhere to add it. */
module JsPackage {
  import opened Collections
  import opened Text
  import opened Sequences
  import opened Manifest
  import opened Schema

  // package.json.

  /** The colour properties after the sync: a descriptor for each config key whose current
      value is missing or false. Nothing is removed or reordered. */
  function JsSynced(props: Dict<Json>, mappings: seq<Mapping>): (r: Dict<Json>)
    requires props.Valid()
    ensures r.Valid()
  {
    AddDescriptors(props, ConfigKeys(mappings), JsTruthy)
  }

  /** Every config key ends up with a true value; the old keys keep their slots, no key is
      removed, and a value is replaced by a descriptor only when it was missing or false. */
  lemma JsSyncedContents(props: Dict<Json>, mappings: seq<Mapping>)
    requires props.Valid()
    ensures |props.keys| <= |JsSynced(props, mappings).keys|
    ensures JsSynced(props, mappings).keys[..|props.keys|] == props.keys
    ensures forall k :: k in JsSynced(props, mappings).entries <==> k in props.entries || k in ConfigKeys(mappings)
    ensures forall k | k in JsSynced(props, mappings).entries ::
      JsSynced(props, mappings).entries[k]
        == if k in ConfigKeys(mappings) && !JsTruthy(Member(props, k)) then Descriptor(k) else props.entries[k]
    ensures forall i | 0 <= i < |mappings| :: JsTruthy(Member(JsSynced(props, mappings), mappings[i].configKey))
  {
    var keys := ConfigKeys(mappings);
    var r := JsSynced(props, mappings);
    AddDescriptorsKeys(props, keys, JsTruthy);
    AddDescriptorsValues(props, keys, JsTruthy);
    forall i | 0 <= i < |mappings| ensures JsTruthy(Member(r, mappings[i].configKey)) {
      assert keys[i] == mappings[i].configKey;
    }
  }

  /** Syncing a second time with the same mappings changes nothing. */
  lemma JsSyncedIdempotent(props: Dict<Json>, mappings: seq<Mapping>)
    requires props.Valid()
    ensures JsSynced(JsSynced(props, mappings), mappings) == JsSynced(props, mappings)
  {
    var r := JsSynced(props, mappings);
    var keys := ConfigKeys(mappings);
    JsSyncedContents(props, mappings);
    forall i | 0 <= i < |keys| ensures JsTruthy(Member(r, keys[i])) {
      assert keys[i] == mappings[i].configKey;
    }
    AddDescriptorsNoop(r, keys, JsTruthy);
  }

  /** `if (!d.k) d.k = v`. */
  function JsWithDefault(d: Dict<Json>, k: string, v: Json): (r: Dict<Json>)
    requires d.Valid()
    ensures r.Valid() && k in r.entries
  {
    if JsTruthy(Member(d, k)) then d else Put(d, k, v)
  }

  /** `v[0]` read in JavaScript: the first element of an array, the member `"0"` of an object,
      the first character of a string, and `undefined` for an empty array or string, an object
      without `"0"`, a number or a boolean. (`null` never reaches it: a false configuration is
      replaced by `[]` first.) */
  function JsIndexZero(v: Json): (r: Option<Json>)
    ensures WellFormed(v) && r.Some? ==> WellFormed(r.value)
    ensures r.Some? ==> v.JArr? || v.JObj? || v.JStr?
  {
    match v
    case JArr(items) => if items == [] then None else Some(items[0])
    case JObj(d) => Member(d, "0")
    case JStr(s) => if s == [] then None else Some(JStr([s[0]]))
    case _ => None
  }

  /** A value whose `[0]` JavaScript can assign: a non-empty array or an object. */
  ghost predicate JsIndexable(v: Json) {
    (v.JArr? && v.items != []) || (v.JObj? && v.members.Valid())
  }

  /** `v[0] = config`: the first element of an array, or the member `"0"` of an object, replaced;
      every other element or member stays as it was. */
  function JsSetIndexZero(v: Json, config: Dict<Json>): (r: Json)
    requires JsIndexable(v)
    ensures JsIndexable(r) && JsIndexZero(r) == Some(JObj(config))
    ensures v.JArr? ==> r.JArr? && |r.items| == |v.items| && forall i | 1 <= i < |v.items| :: r.items[i] == v.items[i]
    ensures v.JObj? ==> r.JObj? && forall k | k != "0" :: Member(r.members, k) == Member(v.members, k)
  {
    if v.JArr? then JArr(v.items[0 := JObj(config)]) else JObj(Put(v.members, "0", JObj(config)))
  }

  /** The manifest with `config` written back as `contributes.configuration[0]`. */
  function JsPutConfig(top: Dict<Json>, contributes: Dict<Json>, configuration: Json, config: Dict<Json>): Json
    requires top.Valid() && contributes.Valid() && JsIndexable(configuration)
  {
    JObj(Put(top, "contributes", JObj(Put(contributes, "configuration", JsSetIndexZero(configuration, config)))))
  }

  /** `contributes.configuration[0]` as JavaScript reads it from the manifest. On a manifest
      whose configuration is a non-empty list it is the entry `ConfigEntry` finds. */
  function JsConfigEntry(pkg: Json): (r: Option<Json>)
    ensures WellFormed(pkg) && r.Some? ==> WellFormed(r.value)
    ensures ConfigEntry(pkg).Some? ==> r == ConfigEntry(pkg)
  {
    var configuration := ObjMember(ObjMember(Some(pkg), "contributes"), "configuration");
    if configuration.None? then None
    else
      assert WellFormed(pkg) ==> WellFormed(configuration.value) by {
        if WellFormed(pkg) {
          assert WellFormed(ObjMember(Some(pkg), "contributes").value);
        }
      }
      JsIndexZero(configuration.value)
  }

  /** `updatePackageJson` on the parsed manifest. `Success(None)` is the `undefined` of its two
      early returns, and `configuration[0]` is read the way JavaScript indexes (`JsIndexZero`).
      An array in place of the manifest, of `contributes` or of the entry takes the defaults as
      named properties and then has nothing to sync. A string, number or `true` there ignores
      the assignment, so that reading a member of what it should have set throws: a `Failure`. */
  function JsUpdatePackageJson(pkg: Json, mappings: seq<Mapping>): Result<Option<Json>>
    requires WellFormed(pkg)
  {
    if pkg.JArr? then Success(None)
    else if !pkg.JObj? then Failure("TypeError")
    else
      var top := JsWithDefault(pkg.members, "contributes", JObj(EmptyDict()));
      var contributes := top.entries["contributes"];
      if contributes.JArr? then Success(None)
      else if !contributes.JObj? then Failure("TypeError")
      else
        assert WellFormed(contributes);
        var c := JsWithDefault(contributes.members, "configuration", JArr([]));
        var configuration := c.entries["configuration"];
        var config := JsIndexZero(configuration);
        if !JsTruthy(config) || config.value.JArr? then Success(None)
        else if !config.value.JObj? then Failure("TypeError")
        else
          assert WellFormed(configuration);
          match JsUpdateConfig(config.value.members, mappings)
          case Failure(e) => Failure(e)
          case Success(None) => Success(None)
          case Success(Some(f)) => Success(Some(JsPutConfig(top, c, configuration, f)))
  }

  /** The first configuration entry: `properties` filled in when false, then the colour object
      synced; `Success(None)` when there is no true colour object. A `properties` that is not an
      object has no colour object. */
  function JsUpdateConfig(config: Dict<Json>, mappings: seq<Mapping>): (r: Result<Option<Dict<Json>>>)
    requires WellFormed(JObj(config))
    ensures r.Success? && r.value.Some? ==> r.value.value.Valid()
  {
    var f := JsWithDefault(config, "properties", JObj(EmptyDict()));
    var properties := f.entries["properties"];
    var colors := if properties.JObj? then Member(properties.members, ColorsProperty) else None;
    if !JsTruthy(colors) then Success(None)
    else if !colors.value.JObj? then Failure("TypeError")
    else
      assert WellFormed(properties) && WellFormed(colors.value);
      match JsUpdateColors(colors.value.members, mappings)
      case Failure(e) => Failure(e)
      case Success(k) => Success(Some(Put(f, "properties", JObj(Put(properties.members, ColorsProperty, JObj(k))))))
  }

  /** The colour object: `properties` filled in when false, then the descriptors added. */
  function JsUpdateColors(colors: Dict<Json>, mappings: seq<Mapping>): (r: Result<Dict<Json>>)
    requires WellFormed(JObj(colors))
    ensures r.Success? ==> r.value.Valid()
  {
    var k := JsWithDefault(colors, "properties", JObj(EmptyDict()));
    var q := k.entries["properties"];
    if !q.JObj? then Failure("TypeError")
    else
      assert WellFormed(q);
      Success(Put(k, "properties", JObj(JsSynced(q.members, mappings))))
  }

  method UpdatePackageJson(pkg: Json, mappings: seq<Mapping>) returns (r: Result<Option<Json>>)
    requires WellFormed(pkg)
    ensures r == JsUpdatePackageJson(pkg, mappings)
  {
    if pkg.JArr? {
      return Success(None);
    }
    if !pkg.JObj? {
      return Failure("TypeError");
    }
    var top := pkg.members;
    if !JsTruthy(Member(top, "contributes")) {
      top := Put(top, "contributes", JObj(EmptyDict()));
    }
    var contributes := top.entries["contributes"];
    if contributes.JArr? {
      return Success(None);
    }
    if !contributes.JObj? {
      return Failure("TypeError");
    }
    assert WellFormed(contributes);
    var c := contributes.members;
    if !JsTruthy(Member(c, "configuration")) {
      c := Put(c, "configuration", JArr([]));
    }
    var configuration := c.entries["configuration"];
    var config := JsIndexZero(configuration);
    if !JsTruthy(config) || config.value.JArr? {
      return Success(None);
    }
    if !config.value.JObj? {
      return Failure("TypeError");
    }
    assert WellFormed(configuration);
    var f := UpdateConfig(config.value.members, mappings);
    if f.Failure? {
      return Failure(f.error);
    }
    if f.value.None? {
      return Success(None);
    }
    r := Success(Some(JsPutConfig(top, c, configuration, f.value.value)));
  }

  method UpdateConfig(config: Dict<Json>, mappings: seq<Mapping>) returns (r: Result<Option<Dict<Json>>>)
    requires WellFormed(JObj(config))
    ensures r == JsUpdateConfig(config, mappings)
  {
    var f := config;
    if !JsTruthy(Member(f, "properties")) {
      f := Put(f, "properties", JObj(EmptyDict()));
    }
    var properties := f.entries["properties"];
    var colors := if properties.JObj? then Member(properties.members, ColorsProperty) else None;
    if !JsTruthy(colors) {
      return Success(None);
    }
    if !colors.value.JObj? {
      return Failure("TypeError");
    }
    assert WellFormed(properties) && WellFormed(colors.value);
    var k := UpdateColors(colors.value.members, mappings);
    if k.Failure? {
      return Failure(k.error);
    }
    r := Success(Some(Put(f, "properties", JObj(Put(properties.members, ColorsProperty, JObj(k.value))))));
  }

  method UpdateColors(colors: Dict<Json>, mappings: seq<Mapping>) returns (r: Result<Dict<Json>>)
    requires WellFormed(JObj(colors))
    ensures r == JsUpdateColors(colors, mappings)
  {
    var k := colors;
    if !JsTruthy(Member(k, "properties")) {
      k := Put(k, "properties", JObj(EmptyDict()));
    }
    var q := k.entries["properties"];
    if !q.JObj? {
      return Failure("TypeError");
    }
    assert WellFormed(q);
    var synced := AddMissingDescriptors(q.members, mappings);
    r := Success(Put(k, "properties", JObj(synced)));
  }

  /** The `forEach` over the mappings that adds a descriptor where the property is false. */
  method AddMissingDescriptors(props: Dict<Json>, mappings: seq<Mapping>) returns (d: Dict<Json>)
    requires props.Valid()
    ensures d == JsSynced(props, mappings)
  {
    ghost var keys := ConfigKeys(mappings);
    d := props;
    var i := 0;
    assert keys[..0] == [];
    while i < |mappings|
      invariant 0 <= i <= |mappings|
      invariant d.Valid()
      invariant d == AddDescriptors(props, keys[..i], JsTruthy)
    {
      var configKey := mappings[i].configKey;
      assert keys[..i + 1][..i] == keys[..i] && keys[..i + 1][i] == configKey;
      if !JsTruthy(Member(d, configKey)) {
        d := Put(d, configKey, Descriptor(configKey));
      }
      i := i + 1;
    }
    assert keys[..i] == keys;
  }

  /** A manifest without `contributes` gets `{contributes: {configuration: []}}` filled in and
      then returns `undefined`, where the Python script fails on the empty list. */
  lemma JsPackageJsonNoContributes(pkg: Json, mappings: seq<Mapping>)
    requires pkg.JObj? && WellFormed(pkg) && !JsTruthy(Member(pkg.members, "contributes"))
    ensures JsUpdatePackageJson(pkg, mappings) == Success(None)
  {
  }

  /** The objects on the way to a configuration entry JavaScript finds. */
  lemma JsConfigEntryPath(pkg: Json)
    requires WellFormed(pkg) && JsConfigEntry(pkg).Some?
    ensures pkg.JObj? && pkg.members.Valid() && "contributes" in pkg.members.entries
    ensures pkg.members.entries["contributes"].JObj? && WellFormed(pkg.members.entries["contributes"])
    ensures "configuration" in pkg.members.entries["contributes"].members.entries
    ensures WellFormed(pkg.members.entries["contributes"].members.entries["configuration"])
    ensures JsConfigEntry(pkg) == JsIndexZero(pkg.members.entries["contributes"].members.entries["configuration"])
  {
    assert WellFormed(pkg.members.entries["contributes"]);
  }

  /** With `contributes` an object, a configuration whose `[0]` is missing or false returns
      `undefined`: a false entry of a list, an empty list, an object without a true member `"0"`,
      a number, a boolean, or no configuration at all. */
  lemma JsPackageJsonFalsyConfig(pkg: Json, mappings: seq<Mapping>)
    requires WellFormed(pkg) && ObjMember(Some(pkg), "contributes").Some? && ObjMember(Some(pkg), "contributes").value.JObj?
    requires !JsTruthy(JsConfigEntry(pkg))
    ensures JsUpdatePackageJson(pkg, mappings) == Success(None)
  {
    assert WellFormed(pkg.members.entries["contributes"]);
  }

  /** An object as configuration entry that `JsUpdateConfig` fails on or finds no colour object
      in makes the whole result fail or be `undefined` the same way. */
  lemma JsPackageJsonEntryNone(pkg: Json, mappings: seq<Mapping>)
    requires WellFormed(pkg) && JsConfigEntry(pkg).Some? && JsConfigEntry(pkg).value.JObj?
    ensures WellFormed(JObj(JsConfigEntry(pkg).value.members))
    ensures JsUpdateConfig(JsConfigEntry(pkg).value.members, mappings).Failure? ==> JsUpdatePackageJson(pkg, mappings).Failure?
    ensures JsUpdateConfig(JsConfigEntry(pkg).value.members, mappings) == Success(None) ==>
      JsUpdatePackageJson(pkg, mappings) == Success(None)
  {
    JsConfigEntryPath(pkg);
  }

  /** Otherwise the entry is written back where it was read, as the first element of a list or
      the member `"0"` of an object, every other top-level member staying as it was. */
  lemma JsPackageJsonEntry(pkg: Json, mappings: seq<Mapping>, f: Dict<Json>)
    requires WellFormed(pkg) && JsConfigEntry(pkg).Some? && JsConfigEntry(pkg).value.JObj?
    requires WellFormed(JObj(JsConfigEntry(pkg).value.members))
    requires JsUpdateConfig(JsConfigEntry(pkg).value.members, mappings) == Success(Some(f))
    ensures JsIndexable(ObjMember(ObjMember(Some(pkg), "contributes"), "configuration").value)
    ensures match JsUpdatePackageJson(pkg, mappings)
      case Success(Some(out)) =>
        && out.JObj? && out.members.keys == pkg.members.keys
        && ObjMember(ObjMember(Some(out), "contributes"), "configuration")
          == Some(JsSetIndexZero(ObjMember(ObjMember(Some(pkg), "contributes"), "configuration").value, f))
        && JsConfigEntry(out) == Some(JObj(f))
        && (ConfigEntry(pkg).Some? ==> ConfigEntry(out) == Some(JObj(f)))
        && forall k | k != "contributes" :: Member(out.members, k) == Member(pkg.members, k)
      case _ => false
  {
    JsConfigEntryPath(pkg);
    var contributes := pkg.members.entries["contributes"].members;
    var configuration := contributes.entries["configuration"];
    JsPackageJsonAt(pkg.members, contributes, configuration, JsConfigEntry(pkg).value.members, mappings, f);
    if ConfigEntry(pkg).Some? {
      ConfigEntryPath(pkg);
    }
    JsPutConfigKeeps(pkg.members, contributes, configuration, f);
  }

  /** Writing the entry back leaves the top-level keys and every other top-level member as they
      were, and makes it the entry JavaScript (and, for a list, `ConfigEntry`) reads. */
  lemma JsPutConfigKeeps(top: Dict<Json>, contributes: Dict<Json>, configuration: Json, config: Dict<Json>)
    requires top.Valid() && contributes.Valid() && JsIndexable(configuration) && "contributes" in top.entries
    ensures var out := JsPutConfig(top, contributes, configuration, config);
      && out.members.keys == top.keys
      && ObjMember(ObjMember(Some(out), "contributes"), "configuration") == Some(JsSetIndexZero(configuration, config))
      && JsConfigEntry(out) == Some(JObj(config))
      && (configuration.JArr? ==> ConfigEntry(out) == Some(JObj(config)))
      && forall k | k != "contributes" :: Member(out.members, k) == Member(top, k)
  {
  }

  lemma JsPackageJsonAt(top: Dict<Json>, contributes: Dict<Json>, configuration: Json, config: Dict<Json>,
                        mappings: seq<Mapping>, f: Dict<Json>)
    requires WellFormed(JObj(top))
    requires "contributes" in top.entries && top.entries["contributes"] == JObj(contributes)
    requires "configuration" in contributes.entries && contributes.entries["configuration"] == configuration
    requires JsIndexZero(configuration) == Some(JObj(config)) && WellFormed(JObj(config))
    requires JsUpdateConfig(config, mappings) == Success(Some(f))
    ensures contributes.Valid() && JsIndexable(configuration)
    ensures JsUpdatePackageJson(JObj(top), mappings) == Success(Some(JsPutConfig(top, contributes, configuration, f)))
  {
    assert WellFormed(JObj(contributes));
    assert WellFormed(configuration);
    assert JsWithDefault(top, "contributes", JObj(EmptyDict())) == top;
    assert JsWithDefault(contributes, "configuration", JArr([])) == contributes;
  }

  /** The colour object's `properties` get their descriptors added. */
  lemma JsColorsSynced(colors: Dict<Json>, mappings: seq<Mapping>, q: Dict<Json>)
    requires WellFormed(JObj(colors)) && "properties" in colors.entries && colors.entries["properties"] == JObj(q)
    ensures q.Valid() && JsUpdateColors(colors, mappings).Success?
    ensures ObjMember(Some(JObj(JsUpdateColors(colors, mappings).value)), "properties") == Some(JObj(JsSynced(q, mappings)))
  {
  }

  /** A configuration entry whose colour object has `properties` gets them synced. */
  lemma JsConfigSynced(config: Dict<Json>, properties: Dict<Json>, colors: Dict<Json>, mappings: seq<Mapping>, q: Dict<Json>)
    requires WellFormed(JObj(config))
    requires "properties" in config.entries && config.entries["properties"] == JObj(properties)
    requires ColorsProperty in properties.entries && properties.entries[ColorsProperty] == JObj(colors)
    requires "properties" in colors.entries && colors.entries["properties"] == JObj(q) && q.Valid()
    ensures JsUpdateConfig(config, mappings).Success? && JsUpdateConfig(config, mappings).value.Some?
    ensures EntryColorProps(JObj(JsUpdateConfig(config, mappings).value.value)) == Some(JsSynced(q, mappings))
  {
    assert WellFormed(JObj(properties));
    assert WellFormed(JObj(colors));
    JsColorsSynced(colors, mappings, q);
    var k := JsUpdateColors(colors, mappings).value;
    assert JsUpdateConfig(config, mappings) == Success(Some(Put(config, "properties", JObj(Put(properties, ColorsProperty, JObj(k))))));
    EntryColorPropsPut(config, properties, k, JsSynced(q, mappings));
  }

  /** When the configuration entry JavaScript reads has colour properties, the result is a
      manifest with the descriptors added in their place (and, by `JsPackageJsonEntry`, every
      other top-level member unchanged). */
  lemma JsPackageJsonSynced(pkg: Json, mappings: seq<Mapping>, q: Dict<Json>) returns (out: Json)
    requires WellFormed(pkg) && JsConfigEntry(pkg).Some? && EntryColorProps(JsConfigEntry(pkg).value) == Some(q)
    ensures JsUpdatePackageJson(pkg, mappings) == Success(Some(out))
    ensures JsConfigEntry(out).Some? && EntryColorProps(JsConfigEntry(out).value) == Some(JsSynced(q, mappings))
    ensures ConfigEntry(pkg).Some? ==> ColorProps(out) == Some(JsSynced(q, mappings))
  {
    var config := JsConfigEntry(pkg).value;
    EntryColorPropsPath(config, q);
    var properties := config.members.entries["properties"].members;
    var colors := properties.entries[ColorsProperty].members;
    JsConfigSynced(config.members, properties, colors, mappings, q);
    JsPackageJsonEntry(pkg, mappings, JsUpdateConfig(config.members, mappings).value.value);
    out := JsUpdatePackageJson(pkg, mappings).value.value;
  }

  /** A configuration entry without a true colour object makes the script return `undefined`. */
  lemma JsConfigNoColors(config: Dict<Json>, mappings: seq<Mapping>)
    requires WellFormed(JObj(config))
    requires !JsTruthy(ObjMember(ObjMember(Some(JObj(config)), "properties"), ColorsProperty))
    ensures JsUpdateConfig(config, mappings) == Success(None)
  {
  }

  /** A manifest whose configuration entry has no true colour object returns `undefined`. */
  lemma JsPackageJsonNoColors(pkg: Json, mappings: seq<Mapping>)
    requires WellFormed(pkg) && JsConfigEntry(pkg).Some? && JsConfigEntry(pkg).value.JObj?
    requires !JsTruthy(ObjMember(ObjMember(JsConfigEntry(pkg), "properties"), ColorsProperty))
    ensures JsUpdatePackageJson(pkg, mappings) == Success(None)
  {
    JsPackageJsonEntryNone(pkg, mappings);
    JsConfigNoColors(JsConfigEntry(pkg).value.members, mappings);
  }

  // NLS tables.

  /** `updatePackageNls` on the parsed table: each mapping in turn sets its description key to
      its scope, unless an earlier mapping had that key (`seen`) or the table's value is true. */
  function JsNls(nls: Dict<Json>, ms: seq<Mapping>): (r: Dict<Json>)
    requires nls.Valid()
    ensures r.Valid()
    decreases |ms|
  {
    if ms == [] then nls
    else
      var n := |ms| - 1;
      var d := JsNls(nls, ms[..n]);
      var k := NlsKey(ms[n].configKey);
      if k !in DescriptionKeys(ms[..n]) && !JsTruthy(Member(d, k)) then Put(d, k, JStr(ms[n].scope)) else d
  }

  /** The scope of the first mapping whose description key is `k`. */
  function FirstScope(ms: seq<Mapping>, k: string): string
    requires k in DescriptionKeys(ms)
    decreases |ms|
  {
    var n := |ms| - 1;
    if k in DescriptionKeys(ms[..n]) then FirstScope(ms[..n], k)
    else ms[n].scope
  }

  /** `FirstScope` is the scope of the mapping that names `k` before any other does. */
  lemma {:induction false} FirstScopeAt(ms: seq<Mapping>, k: string, i: nat)
    requires i < |ms| && NlsKey(ms[i].configKey) == k
    requires forall j | 0 <= j < i :: NlsKey(ms[j].configKey) != k
    ensures k in DescriptionKeys(ms) && FirstScope(ms, k) == ms[i].scope
    decreases |ms|
  {
    var n := |ms| - 1;
    if i < n {
      var a := ms[..n];
      assert a[i] == ms[i];
      assert k in DescriptionKeys(a);
      assert forall j | 0 <= j < i :: a[j] == ms[j];
      FirstScopeAt(a, k, i);
    } else {
      assert k !in DescriptionKeys(ms[..n]) by {
        assert forall j | 0 <= j < n :: ms[..n][j] == ms[j];
      }
    }
  }

  /** The old keys keep their slots and any added key comes after them. */
  lemma {:induction false} JsNlsKeys(nls: Dict<Json>, ms: seq<Mapping>)
    requires nls.Valid()
    ensures |nls.keys| <= |JsNls(nls, ms).keys| && JsNls(nls, ms).keys[..|nls.keys|] == nls.keys
    decreases |ms|
  {
    if ms != [] {
      var n := |ms| - 1;
      var d := JsNls(nls, ms[..n]);
      JsNlsKeys(nls, ms[..n]);
      var r := JsNls(nls, ms);
      assert r.keys[..|d.keys|] == d.keys;
      assert r.keys[..|nls.keys|] == d.keys[..|nls.keys|];
    }
  }

  /** The entry for one key: it is present when it was or a mapping names it, and a description
      key gets the scope of its first mapping exactly when its old value was missing or false. */
  lemma {:induction false} JsNlsAt(nls: Dict<Json>, ms: seq<Mapping>, k: string)
    requires nls.Valid()
    ensures k in JsNls(nls, ms).entries <==> k in nls.entries || k in DescriptionKeys(ms)
    ensures k in JsNls(nls, ms).entries ==>
      JsNls(nls, ms).entries[k]
        == if k in DescriptionKeys(ms) && !JsTruthy(Member(nls, k)) then JStr(FirstScope(ms, k)) else nls.entries[k]
    decreases |ms|
  {
    if ms != [] {
      var n := |ms| - 1;
      var a := ms[..n];
      JsNlsAt(nls, a, k);
      DescriptionKeysStep(ms, n);
      assert ms[..n + 1] == ms;
      var k0 := NlsKey(ms[n].configKey);
      if k in DescriptionKeys(a) {
        assert FirstScope(ms, k) == FirstScope(a, k);
      } else if k == k0 {
        assert Member(JsNls(nls, a), k) == Member(nls, k);
        assert FirstScope(ms, k) == ms[n].scope;
      }
    }
  }

  /** `JsNls` for every key at once: no key is removed, the old keys keep their slots, and only
      the description keys with a missing or false value change, each to the scope of its first
      mapping. */
  lemma JsNlsContents(nls: Dict<Json>, ms: seq<Mapping>)
    requires nls.Valid()
    ensures |nls.keys| <= |JsNls(nls, ms).keys| && JsNls(nls, ms).keys[..|nls.keys|] == nls.keys
    ensures forall k :: k in JsNls(nls, ms).entries <==> k in nls.entries || k in DescriptionKeys(ms)
    ensures forall k | k in JsNls(nls, ms).entries ::
      JsNls(nls, ms).entries[k]
        == if k in DescriptionKeys(ms) && !JsTruthy(Member(nls, k)) then JStr(FirstScope(ms, k)) else nls.entries[k]
  {
    JsNlsKeys(nls, ms);
    forall k ensures k in JsNls(nls, ms).entries <==> k in nls.entries || k in DescriptionKeys(ms) {
      JsNlsAt(nls, ms, k);
    }
    forall k | k in JsNls(nls, ms).entries
      ensures JsNls(nls, ms).entries[k]
        == if k in DescriptionKeys(ms) && !JsTruthy(Member(nls, k)) then JStr(FirstScope(ms, k)) else nls.entries[k]
    {
      JsNlsAt(nls, ms, k);
    }
  }

  /** A table the mappings leave alone: each mapping's key is present, and unless an earlier
      mapping has the same key its value is true or already the mapping's scope. */
  ghost predicate NlsSettled(d: Dict<Json>, ms: seq<Mapping>) {
    forall i | 0 <= i < |ms| ::
      && NlsKey(ms[i].configKey) in d.entries
      && (|| JsTruthy(Member(d, NlsKey(ms[i].configKey)))
          || NlsKey(ms[i].configKey) in DescriptionKeys(ms[..i])
          || d.entries[NlsKey(ms[i].configKey)] == JStr(ms[i].scope))
  }

  /** On a settled table the update changes nothing. */
  lemma {:induction false} JsNlsNoop(d: Dict<Json>, ms: seq<Mapping>)
    requires d.Valid() && NlsSettled(d, ms)
    ensures JsNls(d, ms) == d
    decreases |ms|
  {
    if ms != [] {
      var n := |ms| - 1;
      var a := ms[..n];
      forall i | 0 <= i < |a| ensures a[i] == ms[i] && a[..i] == ms[..i] { }
      JsNlsNoop(d, a);
      var k := NlsKey(ms[n].configKey);
      assert ms[..n] == a;
      if k !in DescriptionKeys(a) && !JsTruthy(Member(d, k)) {
        assert d.entries[k := JStr(ms[n].scope)] == d.entries;
      }
    }
  }

  /** Running the update a second time with the same mappings changes nothing. */
  lemma JsNlsIdempotent(nls: Dict<Json>, ms: seq<Mapping>)
    requires nls.Valid()
    ensures JsNls(JsNls(nls, ms), ms) == JsNls(nls, ms)
  {
    var r := JsNls(nls, ms);
    forall i | 0 <= i < |ms|
      ensures var k := NlsKey(ms[i].configKey);
        && k in r.entries
        && (JsTruthy(Member(r, k)) || k in DescriptionKeys(ms[..i]) || r.entries[k] == JStr(ms[i].scope))
    {
      var k := NlsKey(ms[i].configKey);
      assert k in DescriptionKeys(ms);
      JsNlsAt(nls, ms, k);
      if k !in DescriptionKeys(ms[..i]) {
        forall j | 0 <= j < i ensures NlsKey(ms[j].configKey) != k {
          assert ms[..i][j] == ms[j];
        }
        FirstScopeAt(ms, k, i);
      }
    }
    JsNlsNoop(r, ms);
  }

  /** `updatePackageNls` / `updatePackageNlsJa`: the `forEach` over the mappings with its `seen`
      set. */
  method UpdatePackageNls(nls: Dict<Json>, mappings: seq<Mapping>) returns (r: Dict<Json>)
    requires nls.Valid()
    ensures r == JsNls(nls, mappings)
  {
    r := nls;
    var seen: set<string> := {};
    var i := 0;
    assert mappings[..0] == [];
    assert DescriptionKeys(mappings[..0]) == {};
    while i < |mappings|
      invariant 0 <= i <= |mappings|
      invariant r.Valid() && r == JsNls(nls, mappings[..i])
      invariant seen == DescriptionKeys(mappings[..i])
    {
      DescriptionKeysStep(mappings, i);
      assert mappings[..i + 1][..i] == mappings[..i] && mappings[..i + 1][i] == mappings[i];
      var nlsKey := ColorsPrefix + mappings[i].configKey + DescriptionSuffix;
      if nlsKey !in seen && !JsTruthy(Member(r, nlsKey)) {
        r := Put(r, nlsKey, JStr(mappings[i].scope));
      }
      seen := seen + {nlsKey};
      i := i + 1;
    }
    assert mappings[..i] == mappings;
  }
}
