/** The older JavaScript sync script: its scope-to-config-key inference, its mapping list and its
    add-only updates of `package.json` and the NLS tables. */
module JsSync {
  import opened Collections
  import opened Text
  import opened Sequences
  import opened Sorting
  import opened Manifest
  import opened Schema
  import PySync

  // Config-key inference.

  /** `generateConfigKeyFromScope`: the prefix tests in the order written, the first that
      matches wins, and `String.prototype.replace` with a string pattern rewrites the first
      occurrence only. The `keyword.other.` test comes before the two longer prefixes that start
      with it. */
  function JsConfigKey(scope: string): string {
    if StartsWith(scope, "entity.name.tag.") then ReplaceFirst(scope, "entity.name.tag.", "")
    else if StartsWith(scope, "entity.name.class.") then ReplaceFirst(scope, "entity.name.class.", "")
    else if StartsWith(scope, "entity.other.") then ReplaceFirst(scope, "entity.other.", "")
    else if StartsWith(scope, "keyword.other.") then ReplaceFirst(scope, "keyword.other.", "")
    else if StartsWith(scope, "keyword.other.config-keyword.") then
      ReplaceFirst(scope, "keyword.other.config-keyword.", "keyword.")
    else if StartsWith(scope, "keyword.other.group.") then ReplaceFirst(scope, "keyword.other.group.", "group.")
    else if StartsWith(scope, "meta.function-call.") then ReplaceFirst(scope, "meta.function-call.", "")
    else if StartsWith(scope, "string.other.") then ReplaceFirst(scope, "string.other.", "string.")
    else if StartsWith(scope, "constant.") then ReplaceFirst(scope, "constant.", "")
    else if StartsWith(scope, "comment.") then
      ReplaceFirst(ReplaceFirst(scope, "comment.block.", "comment."), "comment.line.config", "comment.line")
    else if StartsWith(scope, "punctuation.") then ReplaceFirst(scope, "punctuation.", "")
    else scope
  }

  /** The prefixes `JsConfigKey` tests, in order. */
  const JsPrefixes: seq<string> := [
    "entity.name.tag.", "entity.name.class.", "entity.other.", "keyword.other.",
    "keyword.other.config-keyword.", "keyword.other.group.", "meta.function-call.",
    "string.other.", "constant.", "comment.", "punctuation."
  ]

  /** A scope that starts with none of the prefixes is its own config key. */
  lemma JsConfigKeyUnmatched(scope: string)
    requires forall i | 0 <= i < |JsPrefixes| :: !StartsWith(scope, JsPrefixes[i])
    ensures JsConfigKey(scope) == scope
  {
    assert !StartsWith(scope, JsPrefixes[0]) && !StartsWith(scope, JsPrefixes[1]);
    assert !StartsWith(scope, JsPrefixes[2]) && !StartsWith(scope, JsPrefixes[3]);
    assert !StartsWith(scope, JsPrefixes[4]) && !StartsWith(scope, JsPrefixes[5]);
    assert !StartsWith(scope, JsPrefixes[6]) && !StartsWith(scope, JsPrefixes[7]);
    assert !StartsWith(scope, JsPrefixes[8]) && !StartsWith(scope, JsPrefixes[9]);
    assert !StartsWith(scope, JsPrefixes[10]);
  }

  /** The two longer `keyword.other.` prefixes are never tested: any scope they match already
      matched `keyword.other.`. */
  lemma JsKeywordBranchesShadowed(scope: string)
    requires StartsWith(scope, "keyword.other.config-keyword.") || StartsWith(scope, "keyword.other.group.")
    ensures StartsWith(scope, "keyword.other.")
  {
    if StartsWith(scope, "keyword.other.config-keyword.") {
      assert scope[..14] == "keyword.other.config-keyword."[..14];
    } else {
      assert scope[..14] == "keyword.other.group."[..14];
    }
  }

  /** `entity.name.tag.X` becomes `X`. */
  lemma JsEntityNameTag(x: string)
    ensures JsConfigKey("entity.name.tag." + x) == x
  {
    StartsWithAppend("entity.name.tag.", x);
    ReplaceFirstAtStart("entity.name.tag.", x, "");
  }

  /** `keyword.other.X` becomes `X`, whatever follows the prefix, and only its first occurrence
      is removed. */
  lemma JsKeywordOther(x: string)
    ensures JsConfigKey("keyword.other." + x) == x
  {
    var s := "keyword.other." + x;
    StartsWithDiffers(s, "entity.name.tag.", 0);
    StartsWithDiffers(s, "entity.name.class.", 0);
    StartsWithDiffers(s, "entity.other.", 0);
    StartsWithAppend("keyword.other.", x);
    ReplaceFirstAtStart("keyword.other.", x, "");
  }

  /** `keyword.other.config-keyword.X` becomes `config-keyword.X`, not `keyword.X`. */
  lemma JsConfigKeyword(x: string)
    ensures JsConfigKey("keyword.other.config-keyword." + x) == "config-keyword." + x
  {
    var t := "config-keyword." + x;
    JsKeywordOther(t);
    ConfigKeywordPrefix();
    KeywordPrefixSplit("keyword.other.config-keyword.", "config-keyword.", x);
  }

  lemma ConfigKeywordPrefix()
    ensures "keyword.other.config-keyword." == "keyword.other." + "config-keyword."
  {
  }

  /** `keyword.other.group.X` becomes `group.X` through the `keyword.other.` branch. */
  lemma JsGroupKeyword(x: string)
    ensures JsConfigKey("keyword.other.group." + x) == "group." + x
  {
    var t := "group." + x;
    JsKeywordOther(t);
    KeywordPrefixSplit("keyword.other.group.", "group.", x);
  }

  /** A longer prefix that is `keyword.other.` followed by `tail`, then `x`, is `keyword.other.`
      followed by `tail + x`. */
  lemma KeywordPrefixSplit(long: string, tail: string, x: string)
    requires long == "keyword.other." + tail
    ensures long + x == "keyword.other." + (tail + x)
  {
    Sequences.Associate3("keyword.other.", tail, x);
  }

  /** The two scripts give every `keyword.other.config-keyword.` scope different config keys. */
  lemma ConfigKeywordScriptsDiffer(x: string)
    ensures PySync.PyConfigKey("keyword.other.config-keyword." + x) != JsConfigKey("keyword.other.config-keyword." + x)
  {
    PySync.PyConfigKeyword(x);
    JsConfigKeyword(x);
    var p := "keyword." + ReplaceAll(x, "keyword.other.config-keyword.", "keyword.");
    var j := "config-keyword." + x;
    assert p[0] != j[0];
  }

  /** The first example in the function's own comment. */
  lemma JsConfigKeyCryptoMap()
    ensures JsConfigKey("entity.name.tag.crypto.crypto-map.name") == "crypto.crypto-map.name"
  {
    CryptoMapScope();
    JsEntityNameTag("crypto.crypto-map.name");
  }

  lemma CryptoMapScope()
    ensures "entity.name.tag." + "crypto.crypto-map.name" == "entity.name.tag.crypto.crypto-map.name"
  {
  }

  /** The third example in the function's own comment. */
  lemma JsConfigKeyAclProtocol()
    ensures JsConfigKey("keyword.other.acl.protocol") == "acl.protocol"
  {
    AclProtocolScope();
    JsKeywordOther("acl.protocol");
  }

  lemma AclProtocolScope()
    ensures "keyword.other." + "acl.protocol" == "keyword.other.acl.protocol"
  {
  }

  /** The second example in the function's own comment. */
  lemma JsConfigKeyBanner()
    ensures JsConfigKey("comment.block.banner") == "comment.banner"
  {
    BannerScope();
    JsBlockComment("banner");
  }

  lemma BannerScope()
    ensures "comment.block." + "banner" == "comment.block.banner"
    ensures "comment." + "banner" == "comment.banner"
  {
  }

  /** A scope that reaches the comment branch: two first-occurrence rewrites, block comments
      first. */
  lemma JsCommentBranch(scope: string)
    requires forall i | 0 <= i < 9 :: !StartsWith(scope, JsPrefixes[i])
    requires StartsWith(scope, "comment.")
    ensures JsConfigKey(scope)
      == ReplaceFirst(ReplaceFirst(scope, "comment.block.", "comment."), "comment.line.config", "comment.line")
  {
    assert !StartsWith(scope, JsPrefixes[0]) && !StartsWith(scope, JsPrefixes[1]);
    assert !StartsWith(scope, JsPrefixes[2]) && !StartsWith(scope, JsPrefixes[3]);
    assert !StartsWith(scope, JsPrefixes[4]) && !StartsWith(scope, JsPrefixes[5]);
    assert !StartsWith(scope, JsPrefixes[6]) && !StartsWith(scope, JsPrefixes[7]);
    assert !StartsWith(scope, JsPrefixes[8]);
  }

  lemma BlockCommentReachesBranch(x: string)
    ensures forall i | 0 <= i < 9 :: !StartsWith("comment.block." + x, JsPrefixes[i])
    ensures StartsWith("comment.block." + x, "comment.")
  {
    var s := "comment.block." + x;
    forall i | 0 <= i < 9 ensures !StartsWith(s, JsPrefixes[i]) {
      if i < 8 {
        StartsWithDiffers(s, JsPrefixes[i], 0);
      } else {
        StartsWithDiffers(s, JsPrefixes[i], 2);
      }
    }
    assert s == "comment." + ("block." + x);
    StartsWithAppend("comment.", "block." + x);
  }

  lemma BlockCommentRewrites(x: string)
    requires 'l' !in x
    ensures ReplaceFirst(ReplaceFirst("comment.block." + x, "comment.block.", "comment."), "comment.line.config", "comment.line")
      == "comment." + x
  {
    ReplaceFirstAtStart("comment.block.", x, "comment.");
    var t := "comment." + x;
    forall i | 0 <= i < |t| ensures t[i] != 'l' {
      if i >= 8 {
        assert t[i] == x[i - 8];
      }
    }
    NotContainsByChar(t, "comment.line.config", 'l');
  }

  /** `comment.block.X` becomes `comment.X` when `X` has no `l`, so that the second rewrite finds
      nothing. */
  lemma JsBlockComment(x: string)
    requires 'l' !in x
    ensures JsConfigKey("comment.block." + x) == "comment." + x
  {
    BlockCommentReachesBranch(x);
    JsCommentBranch("comment.block." + x);
    BlockCommentRewrites(x);
  }

  // Mapping generation.

  /** `existingMap.get(scope) || generateConfigKeyFromScope(scope)`: the known key, unless there
      is none or it is empty. */
  function JsKeyFor(known: Dict<string>, scope: string): string {
    if scope in known.entries && known.entries[scope] != "" then known.entries[scope] else JsConfigKey(scope)
  }

  /** One mapping per scope, in the order of the scopes. */
  function JsUnsorted(known: Dict<string>, scopes: seq<string>): (ms: seq<Mapping>)
    ensures |ms| == |scopes|
    ensures forall i | 0 <= i < |scopes| :: ms[i] == Mapping(JsKeyFor(known, scopes[i]), scopes[i])
  {
    seq(|scopes|, i requires 0 <= i < |scopes| => Mapping(JsKeyFor(known, scopes[i]), scopes[i]))
  }

  /** The list `generateScopeMappings` returns: sorted by config key. */
  function JsMappings(scopeColors: Dict<string>, existing: seq<Mapping>): seq<Mapping> {
    SortBy(JsUnsorted(KnownKeys(existing), scopeColors.keys), ConfigKeyOf)
  }

  method GenerateScopeMappings(scopeColors: Dict<string>, existing: seq<Mapping>) returns (mappings: seq<Mapping>)
    ensures mappings == JsMappings(scopeColors, existing)
  {
    var known := KnownKeys(existing);
    var ms: seq<Mapping> := [];
    var i := 0;
    while i < |scopeColors.keys|
      invariant 0 <= i <= |scopeColors.keys|
      invariant |ms| == i
      invariant forall j | 0 <= j < i :: ms[j] == Mapping(JsKeyFor(known, scopeColors.keys[j]), scopeColors.keys[j])
    {
      var scope := scopeColors.keys[i];
      var configKey;
      if scope in known.entries && known.entries[scope] != "" {
        configKey := known.entries[scope];
      } else {
        configKey := JsConfigKey(scope);
      }
      ms := ms + [Mapping(configKey, scope)];
      i := i + 1;
    }
    assert ms == JsUnsorted(known, scopeColors.keys);
    mappings := SortBy(ms, ConfigKeyOf);
  }

  /** The mappings come out sorted by config key. */
  lemma JsMappingsSorted(scopeColors: Dict<string>, existing: seq<Mapping>)
    ensures SortedBy(JsMappings(scopeColors, existing), ConfigKeyOf)
  {
    SortBySorted(JsUnsorted(KnownKeys(existing), scopeColors.keys), ConfigKeyOf);
  }

  /** Every extracted scope has exactly one mapping, with the key `JsKeyFor` gives it, and no
      other scope has any. */
  lemma JsMappingsPerScope(scopeColors: Dict<string>, existing: seq<Mapping>)
    requires scopeColors.Valid()
    ensures |JsMappings(scopeColors, existing)| == |scopeColors.keys|
    ensures forall m :: m in JsMappings(scopeColors, existing) <==>
      m.scope in scopeColors.entries && m.configKey == JsKeyFor(KnownKeys(existing), m.scope)
    ensures forall i, j | 0 <= i < j < |JsMappings(scopeColors, existing)| ::
      JsMappings(scopeColors, existing)[i].scope != JsMappings(scopeColors, existing)[j].scope
  {
    var known := KnownKeys(existing);
    var ms := JsUnsorted(known, scopeColors.keys);
    var r := JsMappings(scopeColors, existing);
    assert |multiset(r)| == |multiset(ms)|;
    forall m ensures m in r <==> m in ms {
      assert m in r <==> m in multiset(r);
      assert m in ms <==> m in multiset(ms);
    }
    forall m ensures m in ms <==> m.scope in scopeColors.entries && m.configKey == JsKeyFor(known, m.scope) {
      if m.scope in scopeColors.entries && m.configKey == JsKeyFor(known, m.scope) {
        var t :| 0 <= t < |scopeColors.keys| && scopeColors.keys[t] == m.scope;
        assert ms[t] == m;
      }
    }
    assert Distinct(ms) by {
      forall i, j | 0 <= i < j < |ms| ensures ms[i] != ms[j] {
        assert ms[i].scope == scopeColors.keys[i] && ms[j].scope == scopeColors.keys[j];
      }
    }
    PermutationDistinct(ms, r);
    forall i, j | 0 <= i < j < |r| ensures r[i].scope != r[j].scope {
      assert r[i] in r && r[j] in r;
    }
  }

  /** A scope the mapping file already lists keeps the config key of its last entry there,
      unless that key is empty, when it is inferred afresh. */
  lemma JsKeyFromExisting(existing: seq<Mapping>, i: nat)
    requires i < |existing|
    requires forall j | i < j < |existing| :: existing[j].scope != existing[i].scope
    ensures JsKeyFor(KnownKeys(existing), existing[i].scope)
      == if existing[i].configKey != "" then existing[i].configKey else JsConfigKey(existing[i].scope)
  {
    KnownKeysLast(existing, i);
  }
}
