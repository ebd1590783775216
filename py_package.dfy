/** `update_package_json` of the Python sync script: the colour properties of the extension
    manifest brought in line with the mapping list. */
module PyPackage {
  import opened Collections
  import opened Text
  import opened Sequences
  import opened Sorting
  import opened Manifest
  import opened Schema

  /** `config_key not in colors_obj["properties"]` decides whether a descriptor is added. */
  predicate PyPresent(o: Option<Json>) {
    o.Some?
  }

  /** The colour properties after `update_package_json`: a descriptor added for each config key
      not yet present, the keys no mapping names removed, then the keys in order. */
  function PySynced(props: Dict<Json>, mappings: seq<Mapping>): (r: Dict<Json>)
    requires props.Valid()
    ensures r.Valid()
  {
    var keys := ConfigKeys(mappings);
    SortKeys(Prune(AddDescriptors(props, keys, PyPresent), keys))
  }

  method AddMissingDescriptors(props: Dict<Json>, mappings: seq<Mapping>) returns (d: Dict<Json>, seen: set<string>)
    requires props.Valid()
    ensures d == AddDescriptors(props, ConfigKeys(mappings), PyPresent)
    ensures forall k :: k in seen <==> k in ConfigKeys(mappings)
  {
    d, seen := props, {};
    var i := 0;
    while i < |mappings|
      invariant 0 <= i <= |mappings|
      invariant d == AddDescriptors(props, ConfigKeys(mappings)[..i], PyPresent)
      invariant forall k :: k in seen <==> k in ConfigKeys(mappings)[..i]
    {
      var configKey := mappings[i].configKey;
      assert ConfigKeys(mappings)[..i + 1] == ConfigKeys(mappings)[..i] + [configKey];
      seen := seen + {configKey};
      if configKey !in d.entries {
        d := Put(d, configKey, Descriptor(configKey));
      }
      i := i + 1;
    }
    assert ConfigKeys(mappings)[..i] == ConfigKeys(mappings);
  }

  /** `for key in keys_to_remove: del colors_obj["properties"][key]`. */
  method RemoveKeys(d: Dict<Json>, keysToRemove: seq<string>) returns (e: Dict<Json>)
    requires d.Valid()
    ensures e == Drop(d, keysToRemove)
  {
    e := d;
    DropNone(d);
    var j := 0;
    while j < |keysToRemove|
      invariant 0 <= j <= |keysToRemove|
      invariant e == Drop(d, keysToRemove[..j])
    {
      DropStep(d, keysToRemove[..j], keysToRemove[j]);
      assert keysToRemove[..j] + [keysToRemove[j]] == keysToRemove[..j + 1];
      e := Remove(e, keysToRemove[j]);
      j := j + 1;
    }
    assert keysToRemove[..j] == keysToRemove;
  }

  method SyncColorProperties(props: Dict<Json>, mappings: seq<Mapping>) returns (r: Dict<Json>)
    requires props.Valid()
    ensures r == PySynced(props, mappings)
  {
    var d, seen := AddMissingDescriptors(props, mappings);
    var keysToRemove := Filter(d.keys, k => k !in seen);
    var e := RemoveKeys(d, keysToRemove);
    DropUnseen(d, ConfigKeys(mappings), seen);
    r := SortKeys(e);
  }

  /** After the sync the colour properties hold exactly the mappings' config keys, in strictly
      increasing order; a key that was there keeps its value and a new one gets a descriptor. */
  lemma PySyncedContents(props: Dict<Json>, mappings: seq<Mapping>)
    requires props.Valid()
    ensures forall k :: k in PySynced(props, mappings).entries <==> k in ConfigKeys(mappings)
    ensures forall k | k in PySynced(props, mappings).entries ::
      PySynced(props, mappings).entries[k] == if k in props.entries then props.entries[k] else Descriptor(k)
    ensures forall i, j | 0 <= i < j < |PySynced(props, mappings).keys| ::
      StrLt(PySynced(props, mappings).keys[i], PySynced(props, mappings).keys[j])
  {
    var keys := ConfigKeys(mappings);
    var d := AddDescriptors(props, keys, PyPresent);
    AddDescriptorsKeys(props, keys, PyPresent);
    AddDescriptorsValues(props, keys, PyPresent);
    var e := Prune(d, keys);
    SortBySorted(e.keys, Self);
    var r := PySynced(props, mappings);
    assert r.keys == SortBy(e.keys, Self);
  }

  /** Syncing the properties a second time with the same mappings changes nothing. */
  lemma PySyncedIdempotent(props: Dict<Json>, mappings: seq<Mapping>)
    requires props.Valid()
    ensures PySynced(PySynced(props, mappings), mappings) == PySynced(props, mappings)
  {
    var keys := ConfigKeys(mappings);
    var r := PySynced(props, mappings);
    PySyncedContents(props, mappings);
    AddDescriptorsNoop(r, keys, PyPresent);
    PruneIdentity(r, keys);
    var e := Prune(AddDescriptors(props, keys, PyPresent), keys);
    SortBySorted(e.keys, Self);
    SortKeysIdentity(r);
  }

  // package.json.

  /** `d` with `k` set to `{}` unless it is already there (`if k not in d: d[k] = {}`). */
  function WithDefault(d: Dict<Json>, k: string, v: Json): (r: Dict<Json>)
    requires d.Valid()
    ensures r.Valid() && k in r.entries
  {
    if k in d.entries then d else Put(d, k, v)
  }

  /** `update_package_json` on the parsed manifest: the defaults it fills in on the way, the
      early returns, and the sync of `contributes.configuration[0].properties` /
      `cisco-config-highlight.colors` / `properties`. Where a value has a shape Python cannot
      index or iterate the result is a `Failure`; the objects are edited in place, so the
      returned manifest carries every default filled in before the point of return. */
  function PyUpdatePackageJson(pkg: Json, mappings: seq<Mapping>): Result<Json>
    requires WellFormed(pkg)
  {
    if !pkg.JObj? then Failure("TypeError")
    else
      var top := WithDefault(pkg.members, "contributes", JObj(EmptyDict()));
      var contributes := top.entries["contributes"];
      if !contributes.JObj? then Failure("TypeError")
      else
        assert WellFormed(contributes);
        var c := WithDefault(contributes.members, "configuration", JArr([]));
        var configuration := c.entries["configuration"];
        // `[0]` on an object looks up the integer key 0, which no JSON object has.
        if configuration.JObj? then Failure("KeyError: 0")
        else if configuration == JStr([]) then Failure("IndexError: string index out of range")
        // A number, a boolean or `null` cannot be indexed; the first character of a string is
        // true and cannot take a `properties` item.
        else if !configuration.JArr? then Failure("TypeError")
        else if configuration.items == [] then Failure("IndexError: list index out of range")
        else
          var config := configuration.items[0];
          if !PyTruthy(config) then Success(JObj(Put(top, "contributes", JObj(c))))
          else if !config.JObj? then Failure("TypeError")
          else
            assert WellFormed(configuration);
            match PyUpdateConfig(config.members, mappings)
            case Failure(e) => Failure(e)
            case Success(f) => Success(PutConfig(top, c, configuration.items, f))
  }

  /** The first configuration entry after `update_package_json`: `properties` filled in, and
      the colour object synced when it is there and true. */
  function PyUpdateConfig(config: Dict<Json>, mappings: seq<Mapping>): (r: Result<Dict<Json>>)
    requires WellFormed(JObj(config))
    ensures r.Success? ==> r.value.Valid()
  {
    var f := WithDefault(config, "properties", JObj(EmptyDict()));
    var properties := f.entries["properties"];
    if !properties.JObj? then Failure("AttributeError")
    else
      assert WellFormed(properties);
      var colors := Member(properties.members, ColorsProperty);
      if colors.None? || !PyTruthy(colors.value) then Success(f)
      else if !colors.value.JObj? then Failure("TypeError")
      else
        match PyUpdateColors(colors.value.members, mappings)
        case Failure(e) => Failure(e)
        case Success(k) => Success(Put(f, "properties", JObj(Put(properties.members, ColorsProperty, JObj(k)))))
  }

  /** The colour object after `update_package_json`: `properties` filled in, then synced. */
  function PyUpdateColors(colors: Dict<Json>, mappings: seq<Mapping>): (r: Result<Dict<Json>>)
    requires WellFormed(JObj(colors))
    ensures r.Success? ==> r.value.Valid()
  {
    var k := WithDefault(colors, "properties", JObj(EmptyDict()));
    var q := k.entries["properties"];
    if !q.JObj? then Failure("TypeError")
    else
      assert WellFormed(q);
      Success(Put(k, "properties", JObj(PySynced(q.members, mappings))))
  }

  /** `update_package_json` on the parsed manifest. */
  method UpdatePackageJson(pkg: Json, mappings: seq<Mapping>) returns (r: Result<Json>)
    requires WellFormed(pkg)
    ensures r == PyUpdatePackageJson(pkg, mappings)
  {
    if !pkg.JObj? {
      return Failure("TypeError");
    }
    var top := pkg.members;
    if "contributes" !in top.entries {
      top := Put(top, "contributes", JObj(EmptyDict()));
    }
    var contributes := top.entries["contributes"];
    if !contributes.JObj? {
      return Failure("TypeError");
    }
    assert WellFormed(contributes);
    var c := contributes.members;
    if "configuration" !in c.entries {
      c := Put(c, "configuration", JArr([]));
    }
    var configuration := c.entries["configuration"];
    if configuration.JObj? {
      return Failure("KeyError: 0");
    }
    if configuration == JStr([]) {
      return Failure("IndexError: string index out of range");
    }
    if !configuration.JArr? {
      return Failure("TypeError");
    }
    if configuration.items == [] {
      return Failure("IndexError: list index out of range");
    }
    var config := configuration.items[0];
    if !PyTruthy(config) {
      return Success(JObj(Put(top, "contributes", JObj(c))));
    }
    if !config.JObj? {
      return Failure("TypeError");
    }
    assert WellFormed(configuration);
    var f := UpdateConfig(config.members, mappings);
    if f.Failure? {
      return Failure(f.error);
    }
    r := Success(PutConfig(top, c, configuration.items, f.value));
  }

  method UpdateConfig(config: Dict<Json>, mappings: seq<Mapping>) returns (r: Result<Dict<Json>>)
    requires WellFormed(JObj(config))
    ensures r == PyUpdateConfig(config, mappings)
  {
    var f := config;
    if "properties" !in f.entries {
      f := Put(f, "properties", JObj(EmptyDict()));
    }
    var properties := f.entries["properties"];
    if !properties.JObj? {
      return Failure("AttributeError");
    }
    assert WellFormed(properties);
    var colors := Member(properties.members, ColorsProperty);
    if colors.None? || !PyTruthy(colors.value) {
      return Success(f);
    }
    if !colors.value.JObj? {
      return Failure("TypeError");
    }
    var k := UpdateColors(colors.value.members, mappings);
    if k.Failure? {
      return Failure(k.error);
    }
    r := Success(Put(f, "properties", JObj(Put(properties.members, ColorsProperty, JObj(k.value)))));
  }

  method UpdateColors(colors: Dict<Json>, mappings: seq<Mapping>) returns (r: Result<Dict<Json>>)
    requires WellFormed(JObj(colors))
    ensures r == PyUpdateColors(colors, mappings)
  {
    var k := colors;
    if "properties" !in k.entries {
      k := Put(k, "properties", JObj(EmptyDict()));
    }
    var q := k.entries["properties"];
    if !q.JObj? {
      return Failure("TypeError");
    }
    assert WellFormed(q);
    var synced := SyncColorProperties(q.members, mappings);
    r := Success(Put(k, "properties", JObj(synced)));
  }

  /** A manifest without a configuration list gets the empty list filled in and then fails on
      reading its first entry. */
  lemma PyPackageJsonNoConfiguration(pkg: Json, mappings: seq<Mapping>)
    requires WellFormed(pkg) && pkg.JObj?
    requires ObjMember(ObjMember(Some(pkg), "contributes"), "configuration").None?
    requires Member(pkg.members, "contributes").Some? ==> pkg.members.entries["contributes"].JObj?
    ensures PyUpdatePackageJson(pkg, mappings) == Failure("IndexError: list index out of range")
  {
  }

  /** A configuration that is not a list fails on `[0]` with Python's own error: `KeyError: 0`
      for an object, `IndexError` for the empty string, `TypeError` for anything else. */
  lemma PyPackageJsonConfigurationErrors(pkg: Json, mappings: seq<Mapping>, configuration: Json)
    requires WellFormed(pkg) && ObjMember(Some(pkg), "contributes").Some? && ObjMember(Some(pkg), "contributes").value.JObj?
    requires ObjMember(ObjMember(Some(pkg), "contributes"), "configuration") == Some(configuration)
    ensures configuration.JObj? ==> PyUpdatePackageJson(pkg, mappings) == Failure("KeyError: 0")
    ensures configuration == JStr([]) ==> PyUpdatePackageJson(pkg, mappings) == Failure("IndexError: string index out of range")
    ensures !configuration.JObj? && !configuration.JArr? && configuration != JStr([]) ==>
      PyUpdatePackageJson(pkg, mappings) == Failure("TypeError")
  {
  }

  /** A false first configuration entry returns the manifest as it was read. */
  lemma PyPackageJsonFalsyConfig(pkg: Json, mappings: seq<Mapping>)
    requires WellFormed(pkg)
    requires ConfigEntry(pkg).Some? && !PyTruthy(ConfigEntry(pkg).value)
    ensures PyUpdatePackageJson(pkg, mappings) == Success(pkg)
  {
    var top := pkg.members;
    var contributes := top.entries["contributes"];
    assert Put(contributes.members, "configuration", contributes.members.entries["configuration"]) == contributes.members;
    assert Put(top, "contributes", contributes) == top;
  }

  /** A true object as first configuration entry is replaced by what `PyUpdateConfig` makes of
      it; every other top-level member stays as it was. */
  lemma PyPackageJsonEntry(pkg: Json, mappings: seq<Mapping>)
    requires WellFormed(pkg) && ConfigEntry(pkg).Some?
    requires ConfigEntry(pkg).value.JObj? && PyTruthy(ConfigEntry(pkg).value)
    ensures WellFormed(JObj(ConfigEntry(pkg).value.members))
    ensures PyUpdatePackageJson(pkg, mappings).Success? == PyUpdateConfig(ConfigEntry(pkg).value.members, mappings).Success?
    ensures PyUpdatePackageJson(pkg, mappings).Success? ==>
      var out := PyUpdatePackageJson(pkg, mappings).value;
      && out.JObj? && out.members.keys == pkg.members.keys
      && ConfigEntry(out) == Some(JObj(PyUpdateConfig(ConfigEntry(pkg).value.members, mappings).value))
      && forall k | k in pkg.members.entries && k != "contributes" :: out.members.entries[k] == pkg.members.entries[k]
  {
    ConfigEntryPath(pkg);
    var config := ConfigEntry(pkg).value;
    var contributes := pkg.members.entries["contributes"].members;
    var items := contributes.entries["configuration"].items;
    assert WellFormed(JArr(items));
    if PyUpdateConfig(config.members, mappings).Success? {
      var f := PyUpdateConfig(config.members, mappings).value;
      assert PyUpdatePackageJson(pkg, mappings) == Success(PutConfig(pkg.members, contributes, items, f));
      ConfigEntryPutConfig(pkg.members, contributes, items, f);
    }
  }

  /** When the manifest has colour properties, the result has the synced ones in their place
      (and, by `PyPackageJsonEntry`, every other top-level member unchanged). */
  lemma PyPackageJsonSynced(pkg: Json, mappings: seq<Mapping>, q: Dict<Json>)
    requires WellFormed(pkg) && ColorProps(pkg) == Some(q)
    ensures PyUpdatePackageJson(pkg, mappings).Success?
    ensures ColorProps(PyUpdatePackageJson(pkg, mappings).value) == Some(PySynced(q, mappings))
  {
    var config := ConfigEntry(pkg).value;
    EntryColorPropsPath(config, q);
    var properties := config.members.entries["properties"].members;
    var colors := properties.entries[ColorsProperty].members;
    PyConfigSynced(config.members, properties, colors, mappings, q);
    PyPackageJsonEntry(pkg, mappings);
    var f := PyUpdateConfig(config.members, mappings).value;
    assert ConfigEntry(PyUpdatePackageJson(pkg, mappings).value) == Some(JObj(f));
  }

  /** The colour object's `properties` are replaced by their synced form. */
  lemma PyColorsSynced(colors: Dict<Json>, mappings: seq<Mapping>, q: Dict<Json>)
    requires WellFormed(JObj(colors)) && "properties" in colors.entries && colors.entries["properties"] == JObj(q)
    ensures q.Valid() && PyUpdateColors(colors, mappings).Success?
    ensures ObjMember(Some(JObj(PyUpdateColors(colors, mappings).value)), "properties") == Some(JObj(PySynced(q, mappings)))
  {
  }

  /** A configuration entry whose colour object has `properties` gets them synced. */
  lemma PyConfigSynced(config: Dict<Json>, properties: Dict<Json>, colors: Dict<Json>, mappings: seq<Mapping>, q: Dict<Json>)
    requires WellFormed(JObj(config))
    requires "properties" in config.entries && config.entries["properties"] == JObj(properties)
    requires ColorsProperty in properties.entries && properties.entries[ColorsProperty] == JObj(colors)
    requires "properties" in colors.entries && colors.entries["properties"] == JObj(q) && q.Valid()
    ensures PyUpdateConfig(config, mappings).Success?
    ensures EntryColorProps(JObj(PyUpdateConfig(config, mappings).value)) == Some(PySynced(q, mappings))
  {
    assert WellFormed(JObj(properties));
    assert WellFormed(JObj(colors));
    PyColorsSynced(colors, mappings, q);
    var k := PyUpdateColors(colors, mappings).value;
    assert PyUpdateConfig(config, mappings) == Success(Put(config, "properties", JObj(Put(properties, ColorsProperty, JObj(k)))));
    EntryColorPropsPut(config, properties, k, PySynced(q, mappings));
  }

  /** A configuration entry without `properties` gets an empty one and is otherwise kept. */
  lemma PyConfigPropertiesAdded(config: Dict<Json>, mappings: seq<Mapping>)
    requires WellFormed(JObj(config)) && "properties" !in config.entries
    ensures PyUpdateConfig(config, mappings) == Success(Put(config, "properties", JObj(EmptyDict())))
  {
  }

  /** A true first configuration entry without `properties` gets an empty one, which stays in the
      result even though there is no colour object to sync. */
  lemma PyPackageJsonPropertiesAdded(pkg: Json, mappings: seq<Mapping>)
    requires WellFormed(pkg)
    requires ConfigEntry(pkg).Some? && ConfigEntry(pkg).value.JObj? && PyTruthy(ConfigEntry(pkg).value)
    requires "properties" !in ConfigEntry(pkg).value.members.entries
    ensures PyUpdatePackageJson(pkg, mappings).Success?
    ensures ConfigEntry(PyUpdatePackageJson(pkg, mappings).value)
      == Some(JObj(Put(ConfigEntry(pkg).value.members, "properties", JObj(EmptyDict()))))
  {
    PyPackageJsonEntry(pkg, mappings);
    PyConfigPropertiesAdded(ConfigEntry(pkg).value.members, mappings);
  }
}
