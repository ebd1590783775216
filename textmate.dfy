/** TextMate colour rules, the shape read from the editor's `textMateRules` setting and from
    the default rules file, and the scope-to-colour extraction that both sync scripts run
    over the default rules file. */
module TextMate {
  import opened Collections

  /** A rule's `scope`: one scope name or a list of them. */
  datatype Scope = Name(name: string) | Names(names: seq<string>)

  datatype Settings = Settings(foreground: Option<string>, fontStyle: Option<string>)

  datatype Rule = Rule(scope: Scope, settings: Settings)

  /** `Array.isArray(scope) ? scope : [scope]` and `[scopes] if isinstance(scopes, str)`. */
  function ScopeList(s: Scope): seq<string> {
    match s
    case Name(n) => [n]
    case Names(ns) => ns
  }

  /** A colour that passes `if (color)` / `if color:`: present and not the empty string. */
  predicate Truthy(c: Option<string>) {
    c.Some? && c.value != ""
  }

  /** Rule `r` assigns a colour to scope `k`. */
  predicate Colours(r: Rule, k: string) {
    Truthy(r.settings.foreground) && k in ScopeList(r.scope)
  }

  /** The colour of the last rule that colours `k`, if any. */
  function ColourOf(rules: seq<Rule>, k: string): Option<string>
    decreases |rules|
  {
    if rules == [] then None
    else
      var n := |rules| - 1;
      if Colours(rules[n], k) then rules[n].settings.foreground else ColourOf(rules[..n], k)
  }

  /** The `scope_color_map[scope] = color` assignments one rule performs. */
  function RuleAssignments(r: Rule): seq<(string, string)> {
    if Truthy(r.settings.foreground) then
      var ss := ScopeList(r.scope);
      seq(|ss|, i requires 0 <= i < |ss| => (ss[i], r.settings.foreground.value))
    else []
  }

  /** Every assignment the extraction performs, in order. */
  function Assignments(rules: seq<Rule>): seq<(string, string)>
    decreases |rules|
  {
    if rules == [] then [] else Assignments(rules[..|rules| - 1]) + RuleAssignments(rules[|rules| - 1])
  }

  /** `extract_scopes_from_text_mate_rules` / `extractScopesFromTextMateRules` on the parsed
      `textMateRules` array: a scope-to-colour dictionary filled rule by rule. */
  method ExtractScopeColors(rules: seq<Rule>) returns (scopeColors: Dict<string>)
    ensures scopeColors.Valid()
    ensures scopeColors == PutAll(EmptyDict(), Assignments(rules))
    ensures forall k :: k in scopeColors.entries <==> ColourOf(rules, k).Some?
    ensures forall k | k in scopeColors.entries :: Some(scopeColors.entries[k]) == ColourOf(rules, k)
  {
    scopeColors := EmptyDict();
    var i := 0;
    while i < |rules|
      invariant 0 <= i <= |rules|
      invariant scopeColors.Valid()
      invariant scopeColors == PutAll(EmptyDict(), Assignments(rules[..i]))
    {
      var rule := rules[i];
      var scopes := ScopeList(rule.scope);
      var color := rule.settings.foreground;
      ghost var before := scopeColors;
      if Truthy(color) {
        var j := 0;
        while j < |scopes|
          invariant 0 <= j <= |scopes|
          invariant scopeColors.Valid()
          invariant scopeColors == PutAll(before, RuleAssignments(rule)[..j])
        {
          RuleAssignmentsStep(rule, j);
          PutAllSnoc(before, RuleAssignments(rule)[..j], (scopes[j], color.value));
          scopeColors := Put(scopeColors, scopes[j], color.value);
          j := j + 1;
        }
        assert RuleAssignments(rule)[..j] == RuleAssignments(rule);
      } else {
        assert RuleAssignments(rule) == [];
      }
      AssignmentsStep(rules, i);
      i := i + 1;
    }
    assert rules[..i] == rules;
    ExtractedColours(rules);
  }

  lemma RuleAssignmentsStep(r: Rule, j: nat)
    requires Truthy(r.settings.foreground) && j < |ScopeList(r.scope)|
    ensures RuleAssignments(r)[..j + 1]
      == RuleAssignments(r)[..j] + [(ScopeList(r.scope)[j], r.settings.foreground.value)]
  {
  }

  lemma AssignmentsStep(rules: seq<Rule>, i: nat)
    requires i < |rules|
    ensures PutAll(EmptyDict(), Assignments(rules[..i + 1]))
      == PutAll(PutAll(EmptyDict(), Assignments(rules[..i])), RuleAssignments(rules[i]))
  {
    assert rules[..i + 1][..i] == rules[..i];
    PutAllSplit(EmptyDict(), Assignments(rules[..i]), RuleAssignments(rules[i]));
  }

  /** The dictionary holds exactly the scopes some rule colours, each with the colour of the
      last rule that colours it: a string scope counts as a one-element list, and a rule
      without a non-empty foreground contributes nothing. */
  lemma {:induction false} ExtractedColours(rules: seq<Rule>)
    ensures var d := PutAll(EmptyDict(), Assignments(rules));
      && (forall k :: k in d.entries <==> ColourOf(rules, k).Some?)
      && (forall k | k in d.entries :: Some(d.entries[k]) == ColourOf(rules, k))
    decreases |rules|
  {
    if rules != [] {
      var n := |rules| - 1;
      var ps := RuleAssignments(rules[n]);
      ExtractedColours(rules[..n]);
      var d0 := PutAll(EmptyDict(), Assignments(rules[..n]));
      PutAllSplit(EmptyDict(), Assignments(rules[..n]), ps);
      PutAllKeys(d0, ps);
      PutAllValues(d0, ps);
      PutAllUntouched(d0, ps);
      ColoursStep(rules, d0.entries, PutAll(d0, ps).entries);
    }
  }

  /** One more rule: the scopes it colours take its colour, the others keep theirs. */
  lemma ColoursStep(rules: seq<Rule>, e0: map<string, string>, e: map<string, string>)
    requires rules != []
    requires var n := |rules| - 1;
      && (forall k :: k in e0 <==> ColourOf(rules[..n], k).Some?)
      && (forall k | k in e0 :: Some(e0[k]) == ColourOf(rules[..n], k))
    requires var ps := RuleAssignments(rules[|rules| - 1]);
      && (forall k :: k in e <==> k in e0 || k in KeysOf(ps))
      && (forall k | k in e && k in KeysOf(ps) :: e[k] == LastValue(ps, k))
      && (forall k | k in e0 && k !in KeysOf(ps) :: k in e && e[k] == e0[k])
    ensures forall k :: k in e <==> ColourOf(rules, k).Some?
    ensures forall k | k in e :: Some(e[k]) == ColourOf(rules, k)
  {
    var n := |rules| - 1;
    var r := rules[n];
    forall k ensures (k in e <==> ColourOf(rules, k).Some?) && (k in e ==> Some(e[k]) == ColourOf(rules, k)) {
      RuleAssignmentsAt(r, k);
      assert ColourOf(rules, k) == if Colours(r, k) then r.settings.foreground else ColourOf(rules[..n], k);
    }
  }

  /** A rule assigns its colour to exactly the scopes it colours. */
  lemma RuleAssignmentsAt(r: Rule, k: string)
    ensures k in KeysOf(RuleAssignments(r)) <==> Colours(r, k)
    ensures k in KeysOf(RuleAssignments(r)) ==> LastValue(RuleAssignments(r), k) == r.settings.foreground.value
  {
    var ps := RuleAssignments(r);
    if k in KeysOf(ps) {
      var t :| 0 <= t < |ps| && KeysOf(ps)[t] == k;
      assert ScopeList(r.scope)[t] == k;
    }
    if Colours(r, k) {
      var t :| 0 <= t < |ScopeList(r.scope)| && ScopeList(r.scope)[t] == k;
      assert KeysOf(ps)[t] == k;
    }
  }
}
