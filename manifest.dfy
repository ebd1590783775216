/** The parsed JSON documents the two sync scripts read and write: the extension manifest
    `package.json`, the NLS string tables `package.nls*.json` and the scope-mapping list. */
module Manifest {
  import opened Collections
  import opened Text
  import opened Sorting

  /** A parsed JSON value. Objects keep their members in insertion order, as both Python's `dict`
      and a JavaScript object with non-numeric keys do; numbers only matter for truthiness. */
  datatype Json =
    | JNull
    | JBool(b: bool)
    | JNum(n: int)
    | JStr(s: string)
    | JArr(items: seq<Json>)
    | JObj(members: Dict<Json>)

  /** Python's `bool(x)`: `None`, `False`, `0`, `""`, `[]` and `{}` are false. */
  predicate PyTruthy(j: Json) {
    match j
    case JNull => false
    case JBool(b) => b
    case JNum(n) => n != 0
    case JStr(s) => s != ""
    case JArr(items) => items != []
    case JObj(members) => members.keys != []
  }

  /** JavaScript's `!!x` on a parsed value or `undefined` (`None`): every array and object is
      true, even an empty one. */
  predicate JsTruthy(j: Option<Json>) {
    match j
    case None => false
    case Some(JNull) => false
    case Some(JBool(b)) => b
    case Some(JNum(n)) => n != 0
    case Some(JStr(s)) => s != ""
    case Some(_) => true
  }

  /** A member read `o[k]` / `o.k`: `None` when absent (`undefined` in JavaScript). */
  function Member(d: Dict<Json>, k: string): Option<Json> {
    if k in d.entries then Some(d.entries[k]) else None
  }

  /** One entry of `config/scopeMappings.json`. */
  datatype Mapping = Mapping(configKey: string, scope: string)

  /** The prefix every colour key of the NLS tables starts with. */
  const ColorsPrefix: string := "configuration.properties.colors."

  const DescriptionSuffix: string := ".description"

  /** `f"configuration.properties.colors.{config_key}.description"`. */
  function NlsKey(configKey: string): (k: string)
    ensures StartsWith(k, ColorsPrefix) && EndsWith(k, DescriptionSuffix)
    ensures |k| == |ColorsPrefix| + |configKey| + |DescriptionSuffix|
  {
    var k := ColorsPrefix + configKey + DescriptionSuffix;
    assert k[..|ColorsPrefix|] == ColorsPrefix;
    assert k[|k| - |DescriptionSuffix|..] == DescriptionSuffix;
    k
  }

  /** Distinct config keys have distinct NLS keys, so an NLS key names one config key. */
  lemma NlsKeyInjective(a: string, b: string)
    requires NlsKey(a) == NlsKey(b)
    ensures a == b
  {
    assert a == NlsKey(a)[|ColorsPrefix|..|ColorsPrefix| + |a|];
    assert b == NlsKey(b)[|ColorsPrefix|..|ColorsPrefix| + |b|];
  }

  /** The NLS keys of the mappings' descriptions (`valid_color_keys`, and the `seen` set once
      every mapping has been visited). */
  function DescriptionKeys(ms: seq<Mapping>): set<string> {
    set i | 0 <= i < |ms| :: NlsKey(ms[i].configKey)
  }

  lemma DescriptionKeysStep(ms: seq<Mapping>, i: nat)
    requires i < |ms|
    ensures DescriptionKeys(ms[..i + 1]) == DescriptionKeys(ms[..i]) + {NlsKey(ms[i].configKey)}
  {
    var a, b := ms[..i + 1], ms[..i];
    forall k ensures k in DescriptionKeys(a) <==> k in DescriptionKeys(b) || k == NlsKey(ms[i].configKey) {
      if k in DescriptionKeys(a) && k != NlsKey(ms[i].configKey) {
        var j :| 0 <= j < |a| && NlsKey(a[j].configKey) == k;
        assert b[j] == a[j];
      }
      if k in DescriptionKeys(b) {
        var j :| 0 <= j < |b| && NlsKey(b[j].configKey) == k;
        assert a[j] == b[j];
      }
      if k == NlsKey(ms[i].configKey) {
        assert a[i] == ms[i];
      }
    }
  }

  /** The schema property added for a new colour key:
      `{"type": "string", "format": "color", "markdownDescription": "%<nls key>%"}`. */
  function Descriptor(configKey: string): (d: Json)
    ensures d.JObj?
  {
    JObj(Dict(["type", "format", "markdownDescription"],
              map["type" := JStr("string"), "format" := JStr("color"),
                  "markdownDescription" := JStr("%" + NlsKey(configKey) + "%")]))
  }

  /** A new descriptor is a colour-typed string whose description refers to the key's NLS
      entry, and it counts as true in both languages. */
  lemma DescriptorShape(configKey: string)
    ensures Descriptor(configKey).members.Valid()
    ensures Member(Descriptor(configKey).members, "markdownDescription") == Some(JStr("%" + NlsKey(configKey) + "%"))
    ensures Member(Descriptor(configKey).members, "format") == Some(JStr("color"))
    ensures PyTruthy(Descriptor(configKey)) && JsTruthy(Some(Descriptor(configKey)))
  {
    var ks := ["type", "format", "markdownDescription"];
    assert ks[0] != ks[1] && ks[0] != ks[2] && ks[1] != ks[2] by {
      assert ks[0][0] != ks[1][0] && ks[0][0] != ks[2][0] && ks[1][0] != ks[2][0];
    }
  }

  /** The config keys of the mappings, in order. */
  function ConfigKeys(ms: seq<Mapping>): (ks: seq<string>)
    ensures |ks| == |ms|
    ensures forall i | 0 <= i < |ms| :: ks[i] == ms[i].configKey
  {
    seq(|ms|, i requires 0 <= i < |ms| => ms[i].configKey)
  }

  /** The key the schema groups its colour properties under. */
  const ColorsProperty: string := "cisco-config-highlight.colors"

  /** The member names the manifest edits are distinct strings. */
  lemma MemberNamesDiffer()
    ensures ColorsProperty != "properties" && ColorsProperty != "contributes" && ColorsProperty != "configuration"
    ensures "properties" != "contributes" && "properties" != "configuration" && "contributes" != "configuration"
  {
    assert ColorsProperty[0] != "properties"[0];
    assert "properties"[0] != "contributes"[0] && "properties"[0] != "configuration"[0];
    assert "contributes"[3] != "configuration"[3];
  }

  function ScopeOf(m: Mapping): string {
    m.scope
  }

  function ConfigKeyOf(m: Mapping): string {
    m.configKey
  }

  /** The `(scope, configKey)` pairs of the existing mappings, in order. */
  function ScopePairs(existing: seq<Mapping>): (ps: seq<(string, string)>)
    ensures |ps| == |existing|
    ensures forall i | 0 <= i < |existing| :: ps[i] == (existing[i].scope, existing[i].configKey)
  {
    seq(|existing|, i requires 0 <= i < |existing| => (existing[i].scope, existing[i].configKey))
  }

  /** `{m["scope"]: m["configKey"] for m in existing}` and
      `new Map(existing.map(m => [m.scope, m.configKey]))`. */
  function KnownKeys(existing: seq<Mapping>): (d: Dict<string>)
    ensures d.Valid()
  {
    PutAll(EmptyDict(), ScopePairs(existing))
  }

  /** A scope is known by the config key of the last existing mapping that names it. */
  lemma KnownKeysLast(existing: seq<Mapping>, i: nat)
    requires i < |existing|
    requires forall j | i < j < |existing| :: existing[j].scope != existing[i].scope
    ensures existing[i].scope in KnownKeys(existing).entries
    ensures KnownKeys(existing).entries[existing[i].scope] == existing[i].configKey
  {
    var ps := ScopePairs(existing);
    var s := existing[i].scope;
    assert KeysOf(ps)[i] == s;
    PutAllKeys(EmptyDict(), ps);
    PutAllValues(EmptyDict(), ps);
    var l := LastIndex(ps, s);
    assert l == i;
  }

  /** A scope no existing mapping names is unknown. */
  lemma KnownKeysAbsent(existing: seq<Mapping>, s: string)
    requires forall j | 0 <= j < |existing| :: existing[j].scope != s
    ensures s !in KnownKeys(existing).entries
  {
    var ps := ScopePairs(existing);
    PutAllKeys(EmptyDict(), ps);
  }

  /** In mappings built one per scope of a duplicate-free scope list, a scope has exactly one
      mapping when it is listed and none otherwise. */
  lemma {:induction false} OnePerScope(ks: seq<string>, ms: seq<Mapping>, s: string, m: Mapping)
    requires Distinct(ks) && |ms| == |ks|
    requires forall i | 0 <= i < |ks| :: ms[i].scope == ks[i]
    requires forall i | 0 <= i < |ks| && ks[i] == s :: ms[i] == m
    ensures WithKey(ms, ScopeOf, s) == if s in ks then [m] else []
    decreases |ks|
  {
    if ks != [] {
      OnePerScope(ks[1..], ms[1..], s, m);
      if ks[0] == s {
        assert s !in ks[1..] by {
          forall j | 0 <= j < |ks[1..]| ensures ks[1..][j] != s {
            assert ks[1..][j] == ks[j + 1];
          }
        }
      }
    }
  }
}
