# Cisco Config Highlight — token colours and their sync scripts, in Dafny

This project models two parts of the VS Code extension for Cisco configuration files.

- **The colour merger** (`src/registerTokenColors.ts`). The user's `cisco-config-highlight.colors.*`
  settings become TextMate rules. Each rule has a `scope`, which is one name or a list of names,
  and a `foreground` colour. The extension builds them through its fixed table of 137
  config-key/scope rows. It then merges them with the user's existing `textMateRules` and, when
  `applyAllTokenRules` is set, with the bundled default rules. A rule is identified by
  `getScopeKey`. Existing rules whose key the table manages are dropped. When two rules share a
  key, the configured rule beats the default, and the default beats the user's own rule. Keys
  stay in the order of their first insertion, because the merge is a JavaScript `Map`.
- **The two sync scripts** (`update-token/update-token-colors.py` and its older JavaScript sibling
  `update-token/update-token-colors.js`). They read the default rules file and work through
  these steps:
  - extract a scope-to-colour dictionary;
  - infer a config key for every scope from its prefix, unless the mapping file already names one;
  - sort the mappings, by scope in Python and by config key in JavaScript;
  - synchronise the colour properties of `package.json`;
  - synchronise the description strings of `package.nls.json` and `package.nls.ja.json`.

  The Python script computes an NLS diff. It then patches the catalogue file line by line, so
  the hand-made layout survives. The layout is the `_comment_colors_*` section headers, blank
  lines and comma placement. The JavaScript script only ever adds entries, and writes JSON back.

Modules follow the program:

- `Collections`: insertion-ordered dictionaries, which stand for a Python `dict`, a JavaScript
  object or a `Map`.
- `Text`: Python whitespace and `strip`, `str.replace`, JavaScript's `String.prototype.replace`
  with a string pattern, join and split.
- `Sequences`: filters, the blank-line collapse, the backward and forward line scans, and
  `Splice`, which inserts a block of lines as `s[..p] + t + s[p..]` does.
- `Sorting`: a stable sort by key.
- `TextMate`: rules, and the extraction both scripts share.
- `TokenColors`: the merger.
- `Manifest` and `Schema`: the parsed JSON shapes and their paths.
- `NlsPatcher` and `NlsInsert`: the three line passes.
- `PySync`, `PyPackage` and `PyNls`: the rest of the Python script.
- `JsSync` and `JsPackage`: the JavaScript script.

Where a source operation changes state step by step, the model is a method with a loop. Each
such method is proved equal to a specification function. The lemmas state what the source
promises about that function.

Some behaviour is pinned down by lemmas:

- **JavaScript key inference.** The JavaScript script tests `keyword.other.` before its two
  longer `keyword.other.*` prefixes. So `keyword.other.config-keyword.X` becomes
  `config-keyword.X` there and `keyword.X` in Python (`JsSync.JsKeywordBranchesShadowed`,
  `JsSync.ConfigKeywordScriptsDiffer`).
- **Python duplicates.** The Python NLS diff lists a key twice when two mappings share a config
  key (`PyNls.PyNlsSharedConfigKey`). The JavaScript update keeps the first mapping's scope
  through its `seen` set.
- **Merge idempotence.** The merge is idempotent when every default and configured key is
  managed. Otherwise a rerun keeps the same rules but may reorder them
  (`TokenColors.MergeRerunReorders`).

## Model

| member | source | states |
|---|---|---|
| TextMate.ExtractScopeColors | update-token/update-token-colors.py:232-247 | the loop over the rules fills the dictionary exactly as `PutAll` of the rules' assignments does, and the dictionary holds a scope exactly when some rule colours it, with the colour of the last such rule; the JavaScript `extractScopesFromTextMateRules` (update-token-colors.js lines 25-41) is the same loop |
| TextMate.ExtractedColours | update-token/update-token-colors.py:238-245 | a scope is in the dictionary iff some rule with a non-empty foreground lists it (a string scope counts as a one-element list), and its value is the colour of the last such rule |
| TokenColors.ScopeKey | src/registerTokenColors.ts:566-567 | a string scope is its own key; a one-element list has its element as key |
| TokenColors.ScopeKeyListRoundTrip | src/registerTokenColors.ts:566-567 | splitting a list scope's key at `\|` gives the list back, order included, when no element holds `\|` |
| TokenColors.ScopeKeyOrderMatters | src/registerTokenColors.ts:566-567 | two list scopes with the same two elements in opposite order get different keys |
| TokenColors.ScopeKeySingleton | src/registerTokenColors.ts:566-567 | `[s]` and `s` share a key |
| TokenColors.AddColorRule | src/registerTokenColors.ts:614-624 | a rule `{scope, settings: {foreground: color}}` is appended exactly when the setting holds a non-empty string; otherwise the list is unchanged |
| TokenColors.BuildTokenRulesFromConfig | src/registerTokenColors.ts:626-637 | the loop over the table yields `ColorRules`: the rows' rules in table order |
| TokenColors.ColorRulesAppend | src/registerTokenColors.ts:632-634 | building over two tables in a row is building over each and concatenating |
| TokenColors.ColorRulesMembership | src/registerTokenColors.ts:620-623 | a rule is emitted iff some row's setting is a non-empty colour and the rule is that row's scope with that colour |
| TokenColors.ColorRulesAllSet | src/registerTokenColors.ts:626-637 | with every setting set, one rule per row, row by row |
| TokenColors.ColorRulesNoneSet | src/registerTokenColors.ts:626-637 | with no setting set, no rules |
| TokenColors.ColorRulesSingleSetting | src/registerTokenColors.ts:626-637 | with one setting set, one rule per row that uses it, in table order |
| TokenColors.ColorRulesManaged | src/registerTokenColors.ts:569-569 | every emitted rule's key is a managed key |
| TokenColors.MergeRules | src/registerTokenColors.ts:569-591 | the three passes over the `Map` (unmanaged existing rules, defaults, configured rules) yield `MergedRules`, the map's values |
| TokenColors.MergedAsMap | src/registerTokenColors.ts:570-591 | the merged rules' keys are the map's keys in insertion order, and each rule is the last one set under its key |
| TokenColors.WinnerIsLastInsertion | src/registerTokenColors.ts:572-588 | the last rule set under a key is the last configured rule, otherwise the last default, otherwise (for an unmanaged key only) the last existing rule |
| TokenColors.MergedNoDuplicates | src/registerTokenColors.ts:570-591 | no key appears twice in the output |
| TokenColors.MergedPresence | src/registerTokenColors.ts:572-588 | a key is in the output iff it is an unmanaged existing key, a default key or a configured key |
| TokenColors.MergedPrecedence | src/registerTokenColors.ts:580-588 | each output rule is the winner for its key: configured over default over the user's own unmanaged rule |
| TokenColors.LastWithKeyOfMerged | src/registerTokenColors.ts:580-588 | the output's rule for a key is the winner for that key |
| TokenColors.MergedOrder | src/registerTokenColors.ts:570-591 | output keys are in strictly increasing order of their first insertion: an overridden key keeps its first slot |
| TokenColors.MergeTwoAgain | src/registerTokenColors.ts:570-588 | setting a key that is already in the map keeps its slot (`Map.prototype.set`) |
| TokenColors.ForeignRuleKept | src/registerTokenColors.ts:572-578 | a user rule whose key the table does not manage survives the merge |
| TokenColors.SingleSettingScenario | src/registerTokenColors.ts:562-591 | no existing rules, flag off, one setting used by exactly one row: the output is that row's rule alone |
| TokenColors.AclProtocolScenario | src/registerTokenColors.ts:304-304 | with the table rows `acl.protocol` and `comment.banner` and only `acl.protocol` set to `#FF0000`, the output is the single rule for `keyword.other.acl.protocol` |
| TokenColors.AddressIpv6TwoRules | src/registerTokenColors.ts:317-324 | the table's two `address.ipv6` rows make one colour produce rules for both ipv6 scopes |
| TokenColors.FirstPassUnmanaged | src/registerTokenColors.ts:572-578 | after the first pass the map holds only unmanaged keys, each under its own rule's key |
| TokenColors.UnmanagedOfMerged | src/registerTokenColors.ts:572-591 | when defaults and configured rules are managed, the output's unmanaged rules are what the first pass kept |
| TokenColors.MergeRerunSameRules | src/registerTokenColors.ts:562-591 | feeding the output back as the existing rules gives the same set of rules, without duplicate keys |
| TokenColors.MergeIdempotent | src/registerTokenColors.ts:562-591 | when every default and configured key is managed, a second run gives the output back unchanged |
| TokenColors.MergeRerunReorders | src/registerTokenColors.ts:570-591 | with an unmanaged default key a second run reorders the output: concrete two-rule case |
| TokenColors.ApplyTokenColors | src/registerTokenColors.ts:549-598 | the written value keeps the other customisation members and sets `textMateRules` to the merge of existing, default (only when `applyAll`) and configured rules; with the flag off a key is present iff it is an unmanaged existing key or a configured key |
| NlsPatcher.RemoveOrderedWrite | update-token/update-token-colors.py:30-55 | the two loops yield the lines without those naming a removed key, then with runs of blank lines collapsed to one |
| NlsPatcher.RemovePass | update-token/update-token-colors.py:35-52 | no output line names a removed key, every output line is an input line, the non-blank lines are exactly the kept ones in order, no two blank lines are adjacent, and collapsing again changes nothing |
| NlsPatcher.RemoveLine | update-token/update-token-colors.py:38-42 | a line is dropped exactly when its leading key is to be removed, independently of its neighbours |
| NlsPatcher.LeadingKeyOfQuoted | update-token/update-token-colors.py:39-39 | a line of whitespace, a quoted key without quotes and a colon has that key as its leading key |
| NlsPatcher.UpdateOrderedWrite | update-token/update-token-colors.py:58-74 | the loop applies the `re.sub` of each update in order |
| NlsPatcher.ValueAtQuotes | update-token/update-token-colors.py:69-69 | in a match the only quotes before the value are the two around the key, and the value holds none |
| NlsPatcher.ValueAtOfReplaced | update-token/update-token-colors.py:69-71 | replacing a matched value by a quote-free one leaves a match around the new value |
| NlsPatcher.SubstituteAbsent | update-token/update-token-colors.py:69-71 | text without `"<key>":` is unchanged |
| NlsPatcher.SubstituteAllAbsent | update-token/update-token-colors.py:63-71 | a batch whose keys do not occur leaves the text unchanged |
| NlsPatcher.SubstituteMatch | update-token/update-token-colors.py:69-71 | at a match the value is replaced, the key and quotes kept, and the scan resumes after the closing quote |
| NlsPatcher.SubstituteTwice | update-token/update-token-colors.py:69-71 | rewriting a key's values twice is rewriting them once with the second value |
| NlsPatcher.SubstituteIdempotent | update-token/update-token-colors.py:69-71 | applying the same update twice is applying it once |
| NlsPatcher.SubstituteOnlyValues | update-token/update-token-colors.py:69-71 | only the values change: blanking the key's values before or after the update gives the same text |
| NlsInsert.SegmentOf | update-token/update-token-colors.py:105-107 | a key `configuration.properties.colors.<seg>.<rest>` with a dot-free non-empty segment matches with that segment |
| NlsInsert.CategoryOfKnown | update-token/update-token-colors.py:105-109 | such a key lands in its segment's category when the category exists |
| NlsInsert.CategoryOfUnknown | update-token/update-token-colors.py:105-113 | and in `other` when it does not |
| NlsInsert.Categorize | update-token/update-token-colors.py:103-113 | every category's list is the bucket of its keys, in input order |
| NlsInsert.BucketPartition | update-token/update-token-colors.py:103-113 | every new entry is in exactly one bucket, the one of its category |
| NlsInsert.PlainHeading | update-token/update-token-colors.py:120-150 | a one-word category without an override gets `_comment_colors_<category>` and its capitalised name |
| NlsInsert.CommaGained | update-token/update-token-colors.py:177-177 | the comma rewrite makes a non-blank line end (before trailing whitespace) with a comma, adds exactly one when missing and changes nothing when present |
| NlsInsert.NeedsCommaExactly | update-token/update-token-colors.py:213-213 | the guard holds iff the line is non-blank and does not end in a comma |
| NlsInsert.EntryLinesCommas | update-token/update-token-colors.py:185-190 | one line per entry with its key and value; every line but the last ends with a comma, the last as asked |
| NlsInsert.EntryLineShape | update-token/update-token-colors.py:188-190 | an entry line is `  "key": "value"` followed by `,\n` exactly when a comma is asked for |
| NlsInsert.SectionIndexFirst | update-token/update-token-colors.py:151-156 | the section index is the first line mentioning the quoted marker, or -1 when none does |
| NlsInsert.FindInsertIndex | update-token/update-token-colors.py:160-162 | the backward scan stops at the last `}` line after the first line, or at the first line |
| NlsInsert.NewSectionIndexBounds | update-token/update-token-colors.py:160-162 | that line starts with `}` (unless it is the first line) and no later line does |
| NlsInsert.FindPreviousKey | update-token/update-token-colors.py:164-169 | the backward scan skips blank and `}` lines down to line 1 |
| NlsInsert.PreviousKeyBounds | update-token/update-token-colors.py:164-169 | the previous key is before the insertion point, is neither blank nor `}` unless it is line 0, and only blank or `}` lines lie between; with insertion point 0 it is the last line, as Python's `lines[-1]` reads it |
| NlsInsert.NewSectionLines | update-token/update-token-colors.py:181-190 | a blank line, the heading and the entries, no comma after the last |
| NlsInsert.InsertNewSection | update-token/update-token-colors.py:158-192 | the new-section branch yields `NewSection`, failing on an empty file as the script's indexing does |
| NlsInsert.NewSectionSucceeds | update-token/update-token-colors.py:158-192 | a new section fails exactly on an empty file |
| NlsInsert.FixedBeforeSectionElsewhere | update-token/update-token-colors.py:171-177 | the comma fix touches only the previous key's line |
| NlsInsert.PreviousKeyGainsComma | update-token/update-token-colors.py:171-177 | the previous key gains exactly one comma when it is non-blank, has none and is not a `"_comment` heading, and is kept otherwise |
| NlsInsert.NewSectionKeeps | update-token/update-token-colors.py:192-192 | every other line is kept, those at or after the insertion point shifted by the new section's length |
| NlsInsert.NewSectionBatch | update-token/update-token-colors.py:181-192 | the inserted block is the blank line, the heading and the entries with no comma after the last |
| NlsInsert.HeaderLineKey | update-token/update-token-colors.py:183-183 | a section heading names its marker and is not blank |
| NlsInsert.NewSectionRemoveKeepsHeading | update-token/update-token-colors.py:30-55 | adding keys under a new heading and removing them again keeps the heading, so the file does not come back |
| NlsInsert.InsertRemoveExample | update-token/update-token-colors.py:158-192 | the same on the file `{`, `"a": "x"`, `}` with one added key |
| NlsInsert.FindSectionEnd | update-token/update-token-colors.py:195-200 | the forward scan stops at the next `"_comment` or `}` line, or the end |
| NlsInsert.SectionEndBounds | update-token/update-token-colors.py:195-200 | the section end is such a line and no line of the section is |
| NlsInsert.FindLastContent | update-token/update-token-colors.py:203-205 | the backward scan stops inside the section, at a non-blank line or at the heading; every line it passes over is blank; its result is the backward scan `ScanBack` from the line before the section's end |
| NlsInsert.LastContentBounds | update-token/update-token-colors.py:203-205 | that line is non-blank (unless it is the heading) and only blank lines follow it in the section |
| NlsInsert.FixLastEntry | update-token/update-token-colors.py:210-214 | the comma fix is applied to the last entry, never to the heading |
| NlsInsert.FixedLinesElsewhere | update-token/update-token-colors.py:210-214 | it touches only that line |
| NlsInsert.LastEntryGainsComma | update-token/update-token-colors.py:210-214 | the section's last entry ends with a comma afterwards, gained only when missing; the heading is never changed |
| NlsInsert.NextLine | update-token/update-token-colors.py:221-221 | the line after the section, `}` at the end of the file, decides the last comma |
| NlsInsert.SectionEntryLines | update-token/update-token-colors.py:217-225 | the entries with commas, the last without one exactly when the section closes the object |
| NlsInsert.ExtendExistingSection | update-token/update-token-colors.py:193-226 | the existing-section branch yields `ExtendSection` |
| NlsInsert.ExtendSectionKeeps | update-token/update-token-colors.py:208-226 | lines before the last entry are kept, later lines are shifted by the batch size |
| NlsInsert.ExtendSectionBatch | update-token/update-token-colors.py:216-226 | the batch follows the section's last content line, one line per entry |
| NlsInsert.InsertCategoryLines | update-token/update-token-colors.py:116-226 | one category's iteration: skipped when empty, else the branch the marker search selects |
| NlsInsert.InsertAllFailed | update-token/update-token-colors.py:116-226 | an error ends the pass: later categories change nothing |
| NlsInsert.PreserveOrderedWrite | update-token/update-token-colors.py:77-229 | the whole pass: bucket the entries, then process the categories in the dictionary's order |
| Manifest.NlsKey | update-token/update-token-colors.py:361-361 | a description key starts with the colour prefix, ends with `.description` and has the config key in between |
| Manifest.NlsKeyInjective | update-token/update-token-colors.py:361-361 | distinct config keys have distinct description keys |
| Manifest.DescriptorShape | update-token/update-token-colors.py:330-334 | a new descriptor is a colour-typed string referring to its NLS key, true in both languages |
| Manifest.KnownKeysLast | update-token/update-token-colors.py:293-293 | the dictionary of existing mappings gives a scope the config key of its last entry |
| Manifest.KnownKeysAbsent | update-token/update-token-colors.py:293-293 | a scope not listed is absent from it |
| PySync.PyConfigKeyUnmatched | update-token/update-token-colors.py:250-279 | a scope with none of the tested prefixes is its own config key |
| PySync.PyConfigKeyword | update-token/update-token-colors.py:258-259 | `keyword.other.config-keyword.X` becomes `keyword.X`, later occurrences of the prefix rewritten too |
| PySync.PyCommentBranch | update-token/update-token-colors.py:273-276 | a comment scope gets both rewrites, block comments first |
| PySync.PyCommentLineConfig | update-token/update-token-colors.py:273-276 | `comment.line.config` becomes `comment.line` |
| PySync.GenerateScopeMappings | update-token/update-token-colors.py:290-302 | the loop and the sort yield `PyMappings` |
| PySync.PyMappingsSorted | update-token/update-token-colors.py:300-301 | the mappings are sorted by scope |
| PySync.PyMappingsPerScope | update-token/update-token-colors.py:295-298 | one mapping per extracted scope, none for any other scope |
| PySync.PyKeyFromExisting | update-token/update-token-colors.py:293-297 | a scope the mapping file lists gets the config key of its last entry there, or the inferred key when that one is empty |
| PySync.PyKeyInferred | update-token/update-token-colors.py:297-297 | a scope the mapping file does not list gets the inferred key |
| Sorting.SortBySorted | update-token/update-token-colors.py:301-301 | the sort's output is sorted by its key |
| Sorting.SortByStable | update-token/update-token-colors.js:102-102 | the sort is stable: the elements with one key keep their relative order |
| PyPackage.AddMissingDescriptors | update-token/update-token-colors.py:325-334 | a descriptor is added for each config key not yet present, and `seen` is the set of config keys |
| PyPackage.RemoveKeys | update-token/update-token-colors.py:342-343 | the deletion loop drops exactly the listed keys |
| PyPackage.SyncColorProperties | update-token/update-token-colors.py:325-346 | add, prune and sort give `PySynced` |
| PyPackage.PySyncedContents | update-token/update-token-colors.py:325-346 | the properties hold exactly the config keys, in strictly ascending order, each value kept or a new descriptor |
| PyPackage.PySyncedIdempotent | update-token/update-token-colors.py:325-346 | a second sync with the same mappings changes nothing |
| PyPackage.UpdatePackageJson | update-token/update-token-colors.py:305-348 | the method computes `PyUpdatePackageJson`, the errors Python raises included |
| PyPackage.UpdateConfig | update-token/update-token-colors.py:317-346 | the configuration-entry part computes `PyUpdateConfig` |
| PyPackage.UpdateColors | update-token/update-token-colors.py:322-346 | the colour-object part computes `PyUpdateColors` |
| PyPackage.PyPackageJsonNoConfiguration | update-token/update-token-colors.py:310-313 | with no configuration list the empty one is filled in and indexing it fails |
| PyPackage.PyPackageJsonConfigurationErrors | update-token/update-token-colors.py:313-313 | a configuration that is not a list fails on `[0]` with Python's error: `KeyError: 0` for an object, `IndexError` for the empty string, `TypeError` otherwise |
| PyPackage.PyPackageJsonFalsyConfig | update-token/update-token-colors.py:313-315 | a false first configuration entry returns the manifest unchanged |
| PyPackage.PyPackageJsonEntry | update-token/update-token-colors.py:313-348 | a true object entry is replaced in place by `PyUpdateConfig`'s result; success iff that succeeds, the top-level keys and every other top-level member unchanged |
| PyPackage.PyPackageJsonSynced | update-token/update-token-colors.py:305-348 | a manifest with colour properties succeeds with the synced properties in their place |
| PyPackage.PyColorsSynced | update-token/update-token-colors.py:322-346 | the colour object's properties become their synced form |
| PyPackage.PyConfigSynced | update-token/update-token-colors.py:317-346 | a configuration entry's colour properties become their synced form |
| PyPackage.PyConfigPropertiesAdded | update-token/update-token-colors.py:317-321 | an entry without `properties` gets an empty one and is otherwise returned as is |
| PyPackage.PyPackageJsonPropertiesAdded | update-token/update-token-colors.py:317-321 | and the manifest keeps it |
| PyNls.UpdatePackageNls | update-token/update-token-colors.py:351-386 | the three loops give `PyNlsDiff`; the `_ja` variant (lines 389-424) is the same function |
| PyNls.ValidColorKeys | update-token/update-token-colors.py:359-362 | the set of the mappings' description keys |
| PyNls.DiffMappings | update-token/update-token-colors.py:365-370 | the new and the changed entries, in mapping order |
| PyNls.ObsoleteKeys | update-token/update-token-colors.py:373-379 | the table keys matching the pattern that no mapping asks for, in table order |
| PyNls.NlsKeyMatches | update-token/update-token-colors.py:375-375 | a mapping's description key matches the pattern iff its config key is non-empty and newline-free |
| PyNls.BareKeyNeverMatches | update-token/update-token-colors.py:375-376 | the heading key never matches, so its explicit test never decides anything |
| PyNls.PyNlsDiffMembers | update-token/update-token-colors.py:351-386 | an entry is new iff its key is absent, to update iff present with another value; a key is removed iff present, matching and asked for by no mapping |
| PyNls.PyNlsRemoveDisjoint | update-token/update-token-colors.py:359-379 | no key a mapping asks for is removed, and none is removed twice |
| PyNls.PyNlsEntryClassified | update-token/update-token-colors.py:365-370 | each mapping's entry is exactly one of new, to update or current |
| PyNls.PyNlsSharedConfigKey | update-token/update-token-colors.py:365-368 | two mappings with one config key are both listed as new |
| JsSync.JsConfigKeyUnmatched | update-token/update-token-colors.js:43-81 | a scope with none of the tested prefixes is its own config key |
| JsSync.JsKeywordBranchesShadowed | update-token/update-token-colors.js:60-65 | any scope the two longer `keyword.other.` tests match already passes the shorter one, so those branches never run |
| JsSync.JsEntityNameTag | update-token/update-token-colors.js:54-55 | `entity.name.tag.X` becomes `X` |
| JsSync.JsKeywordOther | update-token/update-token-colors.js:60-61 | `keyword.other.X` becomes `X`, only the first occurrence removed |
| JsSync.JsConfigKeyword | update-token/update-token-colors.js:60-63 | `keyword.other.config-keyword.X` becomes `config-keyword.X` |
| JsSync.JsGroupKeyword | update-token/update-token-colors.js:60-65 | `keyword.other.group.X` becomes `group.X` |
| JsSync.ConfigKeywordScriptsDiffer | update-token/update-token-colors.js:60-63 | the Python and JavaScript keys of every `keyword.other.config-keyword.` scope differ |
| JsSync.JsConfigKeyCryptoMap | update-token/update-token-colors.js:45-45 | the comment's first example holds |
| JsSync.JsConfigKeyBanner | update-token/update-token-colors.js:46-46 | the comment's second example holds |
| JsSync.JsConfigKeyAclProtocol | update-token/update-token-colors.js:47-47 | the comment's third example holds |
| JsSync.JsCommentBranch | update-token/update-token-colors.js:72-75 | a comment scope gets both first-occurrence rewrites |
| JsSync.JsBlockComment | update-token/update-token-colors.js:72-75 | `comment.block.X` becomes `comment.X` when `X` has no `l` |
| JsSync.GenerateScopeMappings | update-token/update-token-colors.js:91-105 | the loop and the sort yield `JsMappings` |
| JsSync.JsMappingsSorted | update-token/update-token-colors.js:101-102 | the mappings are sorted by config key |
| JsSync.JsMappingsPerScope | update-token/update-token-colors.js:95-99 | one mapping per extracted scope with the key `JsKeyFor` gives it, no other mapping, no scope twice |
| JsSync.JsKeyFromExisting | update-token/update-token-colors.js:93-97 | a scope the mapping file lists gets the config key of its last entry there, or the inferred key when that one is empty |
| JsPackage.AddMissingDescriptors | update-token/update-token-colors.js:120-130 | the loop adds a descriptor wherever the property is false |
| JsPackage.JsSyncedContents | update-token/update-token-colors.js:120-130 | no key removed, old keys keep their slots, new keys after them; a config key's value is replaced by a descriptor exactly when it was false; every config key ends up true |
| JsPackage.JsSyncedIdempotent | update-token/update-token-colors.js:120-130 | a second sync with the same mappings changes nothing |
| JsPackage.JsIndexZero | update-token/update-token-colors.js:112-112 | `configuration[0]` as JavaScript reads it: only an array, an object or a string yields a value, and that value is part of the well-formed manifest it was read from |
| JsPackage.JsSetIndexZero | update-token/update-token-colors.js:112-130 | writing the entry back to `[0]` makes `[0]` read it, and every other element or member is unchanged |
| JsPackage.JsConfigEntry | update-token/update-token-colors.js:112-112 | the entry JavaScript reads agrees with `ConfigEntry` whenever the configuration is a non-empty list |
| JsPackage.UpdatePackageJson | update-token/update-token-colors.js:107-133 | the method computes `JsUpdatePackageJson`: `undefined` returns, an array manifest, `contributes` or entry taking the defaults with nothing to sync, and type errors included |
| JsPackage.JsConfigEntryPath | update-token/update-token-colors.js:109-112 | an entry JavaScript finds lies under a `contributes` object and is `JsIndexZero` of its configuration |
| JsPackage.JsPutConfigKeeps | update-token/update-token-colors.js:107-133 | writing the entry back keeps the top-level keys and every other top-level member, stores it at `[0]` of the configuration, and makes it the entry read from the result |
| JsPackage.UpdateConfig | update-token/update-token-colors.js:115-130 | the configuration-entry part computes `JsUpdateConfig` |
| JsPackage.UpdateColors | update-token/update-token-colors.js:118-130 | the colour-object part computes `JsUpdateColors` |
| JsPackage.JsPackageJsonNoContributes | update-token/update-token-colors.js:109-113 | without `contributes` the script returns `undefined` |
| JsPackage.JsPackageJsonFalsyConfig | update-token/update-token-colors.js:111-113 | with an object `contributes`, a configuration whose `[0]` is missing or false returns `undefined`: `{}`, a number, `true`, an empty list or a false first element |
| JsPackage.JsPackageJsonEntryNone | update-token/update-token-colors.js:112-117 | when the entry's update fails or finds no colour object, so does the whole update |
| JsPackage.JsPackageJsonEntry | update-token/update-token-colors.js:107-133 | otherwise the entry is written back where it was read, the first element of a list or member `"0"` of an object, with the top-level keys and every other top-level member unchanged |
| JsPackage.JsPackageJsonAt | update-token/update-token-colors.js:107-133 | the same, for a manifest given by its nested objects |
| JsPackage.JsColorsSynced | update-token/update-token-colors.js:118-130 | the colour object's properties get the descriptors added |
| JsPackage.JsConfigSynced | update-token/update-token-colors.js:115-130 | a configuration entry's colour properties get them |
| JsPackage.JsPackageJsonSynced | update-token/update-token-colors.js:107-133 | a manifest whose entry, as JavaScript reads it, has colour properties gets its synced properties in their place |
| JsPackage.JsConfigNoColors | update-token/update-token-colors.js:115-117 | an entry without a true colour object returns `undefined` |
| JsPackage.JsPackageJsonNoColors | update-token/update-token-colors.js:115-117 | and so does the whole update |
| JsPackage.UpdatePackageNls | update-token/update-token-colors.js:135-148 | the loop with its `seen` set computes `JsNls`; `updatePackageNlsJa` (lines 150-164) is the same |
| JsPackage.FirstScopeAt | update-token/update-token-colors.js:139-145 | the scope recorded for a key is that of the first mapping naming it |
| JsPackage.JsNlsKeys | update-token/update-token-colors.js:139-145 | old keys keep their slots, new keys follow |
| JsPackage.JsNlsAt | update-token/update-token-colors.js:139-145 | a key is present iff it was or a mapping names it; it takes the first mapping's scope exactly when its old value was missing or false |
| JsPackage.JsNlsContents | update-token/update-token-colors.js:135-148 | the same for every key at once |
| JsPackage.JsNlsNoop | update-token/update-token-colors.js:139-145 | a table where each key is present and true or its first mapping's scope is left unchanged |
| JsPackage.JsNlsIdempotent | update-token/update-token-colors.js:135-148 | a second update with the same mappings changes nothing |

## Left out

- Reading and writing files, `json.dump`/`JSON.stringify` formatting, the dry-run output and
  `main` of both scripts: the model works on parsed values and line sequences. The
  JavaScript `main` writes whatever `updatePackageJson` returns, `undefined` included. That is
  modelled as `Success(None)` and not followed further.
- The VS Code host calls of `registerTokenColorCustomization` and `applyTokenColors`:
  activation, the configuration-change listener, the command and `workspaceConfig.update`.
  The configuration reads become parameters of `ApplyTokenColors`.
- `loadDefaultTokenRules`. Its file read and its fall-back to `[]` on any error become the
  `fileDefaults` parameter.
- `load_existing_scope_mappings` / `loadExistingScopeMappings`. The parsed mapping file is the
  `existing` parameter, and a read error is the caller passing `[]`.
- JsSync.JsMappings: `localeCompare` is modelled as code-point order (`StrLt`). Locale collation
  is not modelled.
- JsPackage.JsUpdateConfig: a true colour object that is not an object, or a true
  `properties` of it that is not an object (in `JsUpdateColors`), stops with a `TypeError` in
  the model. JavaScript ignores the assignments on a string, number or `true`, takes them as
  named properties on an array (which `JSON.stringify` drops), and so fails only where it then
  reads a member of `undefined`. Numbers are reduced to their truthiness.
- PyPackage.PyUpdateColors: a `properties` of the colour object that is not an object fails
  with `TypeError`. Python raises `AttributeError` instead in corner cases: an empty list or
  string with no mappings, or a list or string that already holds every config key.
- NlsPatcher.UpdateOrderedWrite: the value is required to be a literal `re.sub` template. It
  has no backslash, and it does not start with a digit, which Python would read as part of the
  `\1` group reference before it. Group references and escapes in a value are not modelled.
- Insertion then removal. Removing the keys just inserted does not give the file back, in the
  script or in the model. Removal drops only the lines that name a removed
  key. A new section leaves its blank line and heading, and the comma the previous key gained;
  an existing section leaves the comma its former last entry gained
  (`NlsInsert.NewSectionRemoveKeepsHeading`, `NlsInsert.InsertRemoveExample`).
- TokenColors.ApplyTokenColors: the other members of the current customisation are a
  `map<string, string>`. Their order and members whose value is not a string are not modelled.
- JSON objects in JavaScript. A parsed object is an insertion-ordered dictionary of its own
  members. Members inherited from `Object.prototype` (a key named `constructor` reads as true
  in JavaScript) and the placement of integer-like keys first in JavaScript's own-key order
  are not modelled.
- NlsInsert.PlainHeading: `str.capitalize` is modelled for ASCII letters only.
- NlsInsert.PreserveOrderedWrite: the heading of every category is computed by the same
  functions, but only the one-word, override-free case is stated as a lemma. The literal
  lookups in the sixteen-entry override table are not unfolded.
- TextMate.ExtractScopeColors: a rule always has a `scope`. A rule without one (`[]` in Python,
  `[undefined]` in JavaScript) and a scope that is neither a string nor an array are not
  modelled.
- The unused `seenKeys` set of the JavaScript `updatePackageJson`, and the unused `parts` of
  `generateConfigKeyFromScope`.
- TypeScript types are assumed to hold at run time: a `settings.foreground` that is not a
  string is not modelled.
