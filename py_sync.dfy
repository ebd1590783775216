/** The Python sync script apart from its line patchers: the scope-to-config-key inference, the
    mapping list, the schema sync of `package.json` and the NLS diff. */
module PySync {
  import opened Collections
  import opened Text
  import opened Sequences
  import opened Sorting
  import opened Manifest
  import opened NlsInsert

  // Config-key inference.

  /** `generate_config_key_from_scope`: the prefix tests in the order written, the first that
      matches wins, and `str.replace` rewrites every occurrence of the prefix, not only the
      leading one. */
  function PyConfigKey(scope: string): string {
    if StartsWith(scope, "entity.name.tag.") then ReplaceAll(scope, "entity.name.tag.", "")
    else if StartsWith(scope, "entity.name.class.") then ReplaceAll(scope, "entity.name.class.", "")
    else if StartsWith(scope, "entity.other.") then ReplaceAll(scope, "entity.other.", "")
    else if StartsWith(scope, "keyword.other.config-keyword.") then
      ReplaceAll(scope, "keyword.other.config-keyword.", "keyword.")
    else if StartsWith(scope, "keyword.other.group.") then ReplaceAll(scope, "keyword.other.group.", "group.")
    else if StartsWith(scope, "keyword.other.address.") then ReplaceAll(scope, "keyword.other.", "")
    else if StartsWith(scope, "keyword.other.") then ReplaceAll(scope, "keyword.other.", "")
    else if StartsWith(scope, "meta.function-call.") then ReplaceAll(scope, "meta.function-call.", "")
    else if StartsWith(scope, "string.other.") then ReplaceAll(scope, "string.other.", "string.")
    else if StartsWith(scope, "constant.") then ReplaceAll(scope, "constant.", "")
    else if StartsWith(scope, "comment.") then
      ReplaceAll(ReplaceAll(scope, "comment.block.", "comment."), "comment.line.config", "comment.line")
    else if StartsWith(scope, "punctuation.") then ReplaceAll(scope, "punctuation.", "")
    else scope
  }

  /** The prefixes `PyConfigKey` tests, in order. */
  const PyPrefixes: seq<string> := [
    "entity.name.tag.", "entity.name.class.", "entity.other.", "keyword.other.config-keyword.",
    "keyword.other.group.", "keyword.other.address.", "keyword.other.", "meta.function-call.",
    "string.other.", "constant.", "comment.", "punctuation."
  ]

  /** A scope that starts with none of the prefixes is its own config key. */
  lemma PyConfigKeyUnmatched(scope: string)
    requires forall i | 0 <= i < |PyPrefixes| :: !StartsWith(scope, PyPrefixes[i])
    ensures PyConfigKey(scope) == scope
  {
    assert !StartsWith(scope, PyPrefixes[0]) && !StartsWith(scope, PyPrefixes[1]);
    assert !StartsWith(scope, PyPrefixes[2]) && !StartsWith(scope, PyPrefixes[3]);
    assert !StartsWith(scope, PyPrefixes[4]) && !StartsWith(scope, PyPrefixes[5]);
    assert !StartsWith(scope, PyPrefixes[6]) && !StartsWith(scope, PyPrefixes[7]);
    assert !StartsWith(scope, PyPrefixes[8]) && !StartsWith(scope, PyPrefixes[9]);
    assert !StartsWith(scope, PyPrefixes[10]) && !StartsWith(scope, PyPrefixes[11]);
  }

  /** `keyword.other.config-keyword.X` becomes `keyword.X`, with any later occurrence of the
      prefix inside `X` rewritten as well. */
  lemma PyConfigKeyword(x: string)
    ensures PyConfigKey("keyword.other.config-keyword." + x)
      == "keyword." + ReplaceAll(x, "keyword.other.config-keyword.", "keyword.")
  {
    var s := "keyword.other.config-keyword." + x;
    StartsWithDiffers(s, "entity.name.tag.", 0);
    StartsWithDiffers(s, "entity.name.class.", 0);
    StartsWithDiffers(s, "entity.other.", 0);
    StartsWithAppend("keyword.other.config-keyword.", x);
    ReplaceAllAtStart("keyword.other.config-keyword.", x, "keyword.");
  }

  /** A scope that reaches the comment branch: two rewrites, block comments first. */
  lemma PyCommentBranch(scope: string)
    requires forall i | 0 <= i < 10 :: !StartsWith(scope, PyPrefixes[i])
    requires StartsWith(scope, "comment.")
    ensures PyConfigKey(scope)
      == ReplaceAll(ReplaceAll(scope, "comment.block.", "comment."), "comment.line.config", "comment.line")
  {
    assert !StartsWith(scope, PyPrefixes[0]) && !StartsWith(scope, PyPrefixes[1]);
    assert !StartsWith(scope, PyPrefixes[2]) && !StartsWith(scope, PyPrefixes[3]);
    assert !StartsWith(scope, PyPrefixes[4]) && !StartsWith(scope, PyPrefixes[5]);
    assert !StartsWith(scope, PyPrefixes[6]) && !StartsWith(scope, PyPrefixes[7]);
    assert !StartsWith(scope, PyPrefixes[8]) && !StartsWith(scope, PyPrefixes[9]);
  }

  /** The line-comment scope of configuration lines gets the short key `comment.line`. */
  lemma PyCommentLineConfig(s: string)
    requires s == "comment.line.config"
    ensures PyConfigKey(s) == "comment.line"
  {
    CommentLineReachesBranch(s);
    PyCommentBranch(s);
    CommentLineRewrites(s);
  }

  lemma CommentLineReachesBranch(s: string)
    requires s == "comment.line.config"
    ensures forall i | 0 <= i < 10 :: !StartsWith(s, PyPrefixes[i])
    ensures StartsWith(s, "comment.")
  {
    forall i | 0 <= i < 10 ensures !StartsWith(s, PyPrefixes[i]) {
      if i < 9 {
        StartsWithDiffers(s, PyPrefixes[i], 0);
      } else {
        StartsWithDiffers(s, PyPrefixes[i], 2);
      }
    }
    StartsWithAppend("comment.", "line.config");
  }

  lemma CommentLineRewrites(s: string)
    requires s == "comment.line.config"
    ensures ReplaceAll(ReplaceAll(s, "comment.block.", "comment."), "comment.line.config", "comment.line") == "comment.line"
  {
    NotContainsByChar(s, "comment.block.", 'b');
    assert s + "" == s;
    ReplaceAllAtStart(s, "", "comment.line");
  }

  // Mapping generation.

  /** `existing_map.get(scope) or generate_config_key_from_scope(scope)`: the known key, unless
      there is none or it is empty. */
  function PyKeyFor(known: Dict<string>, scope: string): string {
    if scope in known.entries && known.entries[scope] != "" then known.entries[scope] else PyConfigKey(scope)
  }

  /** One mapping per scope, in the order of the scopes. */
  function PyUnsorted(known: Dict<string>, scopes: seq<string>): (ms: seq<Mapping>)
    ensures |ms| == |scopes|
    ensures forall i | 0 <= i < |scopes| :: ms[i] == Mapping(PyKeyFor(known, scopes[i]), scopes[i])
  {
    seq(|scopes|, i requires 0 <= i < |scopes| => Mapping(PyKeyFor(known, scopes[i]), scopes[i]))
  }

  /** The list `generate_scope_mappings` returns for the extracted scope colours and the
      mappings already on disk: sorted by scope. */
  function PyMappings(scopeColors: Dict<string>, existing: seq<Mapping>): seq<Mapping> {
    SortBy(PyUnsorted(KnownKeys(existing), scopeColors.keys), ScopeOf)
  }

  method GenerateScopeMappings(scopeColors: Dict<string>, existing: seq<Mapping>) returns (mappings: seq<Mapping>)
    ensures mappings == PyMappings(scopeColors, existing)
  {
    var known := KnownKeys(existing);
    var ms: seq<Mapping> := [];
    var i := 0;
    while i < |scopeColors.keys|
      invariant 0 <= i <= |scopeColors.keys|
      invariant |ms| == i
      invariant forall j | 0 <= j < i :: ms[j] == Mapping(PyKeyFor(known, scopeColors.keys[j]), scopeColors.keys[j])
    {
      var scope := scopeColors.keys[i];
      var configKey;
      if scope in known.entries && known.entries[scope] != "" {
        configKey := known.entries[scope];
      } else {
        configKey := PyConfigKey(scope);
      }
      ms := ms + [Mapping(configKey, scope)];
      i := i + 1;
    }
    assert ms == PyUnsorted(known, scopeColors.keys);
    mappings := SortBy(ms, ScopeOf);
  }

  /** The mappings come out sorted by scope. */
  lemma PyMappingsSorted(scopeColors: Dict<string>, existing: seq<Mapping>)
    ensures SortedBy(PyMappings(scopeColors, existing), ScopeOf)
  {
    SortBySorted(PyUnsorted(KnownKeys(existing), scopeColors.keys), ScopeOf);
  }

  /** Every extracted scope has exactly one mapping and no other scope has any. */
  lemma PyMappingsPerScope(scopeColors: Dict<string>, existing: seq<Mapping>, s: string)
    requires scopeColors.Valid()
    ensures |PyMappings(scopeColors, existing)| == |scopeColors.keys|
    ensures WithKey(PyMappings(scopeColors, existing), ScopeOf, s)
      == if s in scopeColors.entries then [Mapping(PyKeyFor(KnownKeys(existing), s), s)] else []
  {
    var ms := PyUnsorted(KnownKeys(existing), scopeColors.keys);
    assert |multiset(PyMappings(scopeColors, existing))| == |multiset(ms)|;
    SortByStable(ms, ScopeOf, s);
    OnePerScope(scopeColors.keys, ms, s, Mapping(PyKeyFor(KnownKeys(existing), s), s));
  }

  /** A scope the mapping file already lists keeps the config key of its last entry there,
      unless that key is empty, when it is inferred afresh. */
  lemma PyKeyFromExisting(existing: seq<Mapping>, i: nat)
    requires i < |existing|
    requires forall j | i < j < |existing| :: existing[j].scope != existing[i].scope
    ensures PyKeyFor(KnownKeys(existing), existing[i].scope)
      == if existing[i].configKey != "" then existing[i].configKey else PyConfigKey(existing[i].scope)
  {
    KnownKeysLast(existing, i);
  }

  /** A scope the mapping file does not list has its config key inferred. */
  lemma PyKeyInferred(existing: seq<Mapping>, s: string)
    requires forall j | 0 <= j < |existing| :: existing[j].scope != s
    ensures PyKeyFor(KnownKeys(existing), s) == PyConfigKey(s)
  {
    KnownKeysAbsent(existing, s);
  }
}
