/** The three passes that patch a message-catalogue file (`package.nls.json`) as a sequence of
    lines, each line with its own line ending, so that the file keeps its hand-made layout:
    removing obsolete keys, rewriting the value of existing keys, and inserting new keys into
    the `_comment_colors_*` section of their category. */
module NlsPatcher {
  import opened Collections
  import opened Text
  import opened Sequences

  // ---------------------------------------------------------------------------------------
  // Remove pass

  /** The key a line starts with: optional whitespace, a double quote, one or more
      characters other than a double quote, a double quote and a colon, the prefix the
      pattern `\s*"([^"]+)":\s*` asks of a line. */
  function LeadingKey(line: string): (k: Option<string>)
    ensures k.Some? ==> |k.value| > 0 && '"' !in k.value
  {
    QuotedKey(TrimStart(line))
  }

  /** The key `t` starts with: a double quote, one or more characters other than a double
      quote, a double quote and a colon. */
  function QuotedKey(t: string): (k: Option<string>)
    ensures k.Some? ==> |k.value| > 0 && '"' !in k.value
  {
    if |t| > 0 && t[0] == '"' then
      var j := IndexOf(t[1..], '"');
      IndexOfFirst(t[1..], '"');
      if 0 < j && j + 2 < |t| && t[j + 2] == ':' then
        assert forall x | 0 <= x < j :: t[1..j + 1][x] == t[1..][x];
        Some(t[1..j + 1])
      else None
    else None
  }

  /** The line names one of the keys to remove. */
  predicate Removed(line: string, remove: set<string>) {
    LeadingKey(line).Some? && LeadingKey(line).value in remove
  }

  function KeepLine(remove: set<string>): string -> bool {
    line => !Removed(line, remove)
  }

  /** `remove_ordered_write` on the file's lines: the lines whose key is to be removed are
      dropped, then every blank line that directly follows a blank line is dropped. */
  method RemoveOrderedWrite(lines: seq<string>, keysToRemove: seq<string>) returns (cleaned: seq<string>)
    ensures cleaned == Collapse(Filter(lines, KeepLine(set k | k in keysToRemove)), IsBlank)
  {
    var removeSet := set k | k in keysToRemove;
    var filtered: seq<string> := [];
    var i := 0;
    while i < |lines|
      invariant 0 <= i <= |lines|
      invariant filtered == Filter(lines[..i], KeepLine(removeSet))
    {
      var line := lines[i];
      FilterStep(lines, i, KeepLine(removeSet));
      var m := LeadingKey(line);
      if m.Some? && m.value in removeSet {
        i := i + 1;
        continue;
      }
      filtered := filtered + [line];
      i := i + 1;
    }
    assert lines[..i] == lines;
    cleaned := [];
    var lastWasBlank := false;
    i := 0;
    while i < |filtered|
      invariant 0 <= i <= |filtered|
      invariant cleaned == Collapse(filtered[..i], IsBlank)
      invariant lastWasBlank == (i > 0 && IsBlank(filtered[i - 1]))
    {
      var line := filtered[i];
      CollapseStep(filtered, i, IsBlank);
      var isBlank := IsBlank(line);
      if isBlank && lastWasBlank {
        i := i + 1;
        continue;
      }
      cleaned := cleaned + [line];
      lastWasBlank := isBlank;
      i := i + 1;
    }
    assert filtered[..i] == filtered;
  }

  /** What the remove pass promises: no line of the result names a removed key; every line of
      the input that names no removed key and is not blank is still there, in the same order;
      and no two neighbouring lines are blank, whether a removal left them so or they already
      were. Running the clean-up again changes nothing. */
  lemma RemovePass(lines: seq<string>, remove: set<string>)
    ensures var out := Collapse(Filter(lines, KeepLine(remove)), IsBlank);
      && (forall l | l in out :: l in lines && !Removed(l, remove))
      && Filter(out, Not(IsBlank)) == Filter(Filter(lines, KeepLine(remove)), Not(IsBlank))
      && NoRepeats(out, IsBlank)
      && Collapse(out, IsBlank) == out
  {
    var kept := Filter(lines, KeepLine(remove));
    FilterMembers(lines, KeepLine(remove));
    CollapseSubset(kept, IsBlank);
    CollapseKeepsOthers(kept, IsBlank);
    CollapseNoRepeats(kept, IsBlank);
    CollapseIdempotent(kept, IsBlank);
  }

  /** A line is dropped by the first step exactly when it names a key to remove. */
  lemma RemoveLine(before: seq<string>, line: string, after: seq<string>, remove: set<string>)
    ensures Filter(before + [line] + after, KeepLine(remove))
      == Filter(before, KeepLine(remove)) + (if Removed(line, remove) then [] else [line]) + Filter(after, KeepLine(remove))
  {
    FilterAppend(before + [line], after, KeepLine(remove));
    FilterAppend(before, [line], KeepLine(remove));
    FilterSingle(line, KeepLine(remove));
  }

  lemma QuotedKeyOf(key: string, rest: string)
    requires |key| > 0 && '"' !in key
    ensures QuotedKey("\"" + key + "\":" + rest) == Some(key)
  {
    var t := "\"" + key + "\":" + rest;
    assert t[1..] == key + ['"'] + (":" + rest);
    IndexOfAfter(key, '"', ":" + rest);
    assert t[|key| + 2] == ':';
    assert t[1..|key| + 1] == key;
  }

  /** A line made of whitespace, a quoted key without quotes, a colon and anything names
      that key. */
  lemma LeadingKeyOfQuoted(w: string, key: string, rest: string)
    requires AllSpace(w) && |key| > 0 && '"' !in key
    ensures LeadingKey(w + "\"" + key + "\":" + rest) == Some(key)
  {
    var t := "\"" + key + "\":" + rest;
    assert w + "\"" + key + "\":" + rest == w + t;
    TrimStartAfterSpace(w, t);
    QuotedKeyOf(key, rest);
  }

  // ---------------------------------------------------------------------------------------
  // Update pass

  /** `"<key>":`, the literal start of the pattern `("<key>":\s*")([^"]*?)(")` once the key
      is escaped. */
  function KeyHead(key: string): string {
    "\"" + key + "\":"
  }

  /** The end of the whitespace run that starts at `i`. */
  function SpaceEnd(s: string, i: nat): (e: nat)
    requires i <= |s|
    ensures i <= e <= |s|
    ensures e < |s| ==> !IsSpace(s[e])
    decreases |s| - i
  {
    if i < |s| && IsSpace(s[i]) then SpaceEnd(s, i + 1) else i
  }

  /** The first position at or after `i` that holds `ch`, or `|s|`. */
  function FindFrom(s: string, i: nat, ch: char): (e: nat)
    requires i <= |s|
    ensures i <= e <= |s|
    ensures e < |s| ==> s[e] == ch
    decreases |s| - i
  {
    if i == |s| || s[i] == ch then i else FindFrom(s, i + 1, ch)
  }

  /** Where the pattern matches at the start of `s`: the positions of the quote that opens the
      value and of the quote that closes it. The value is the shortest run of characters other
      than a double quote, so it ends at the first quote. */
  function ValueAt(s: string, key: string): (m: Option<(nat, nat)>)
    ensures m.Some? ==>
      |KeyHead(key)| <= m.value.0 < m.value.1 < |s| && s[m.value.0] == '"' && s[m.value.1] == '"'
  {
    var h := KeyHead(key);
    if StartsWith(s, h) then
      var o := SpaceEnd(s, |h|);
      if o < |s| && s[o] == '"' then
        var c := FindFrom(s, o + 1, '"');
        if c < |s| then Some((o, c)) else None
      else None
    else None
  }

  /** Python's `re.sub(pattern, r'\1<value>\3', s)` for that pattern: scanning left to right,
      every match has its value replaced, and the scan resumes after the closing quote. */
  function Substitute(s: string, key: string, value: string): string
    decreases |s|
  {
    if s == [] then []
    else
      match ValueAt(s, key)
      case Some((o, c)) => s[..o + 1] + value + "\"" + Substitute(s[c + 1..], key, value)
      case None => [s[0]] + Substitute(s[1..], key, value)
  }

  /** A replacement value that `re.sub` copies literally: no backslash, which would start an
      escape, and no leading digit, which would extend the group reference `\1`. */
  predicate TemplateSafe(value: string) {
    '\\' !in value && (value == [] || !('0' <= value[0] <= '9'))
  }

  /** The updates of a batch applied one after the other. */
  function SubstituteAll(content: string, updates: seq<(string, string)>): string
    decreases |updates|
  {
    if updates == [] then content
    else
      var n := |updates| - 1;
      Substitute(SubstituteAll(content, updates[..n]), updates[n].0, updates[n].1)
  }

  /** `update_ordered_write` on the file's text: each `(key, value)` rewrites the value of
      every `"key": "..."` in turn. */
  method UpdateOrderedWrite(content: string, keysToUpdate: seq<(string, string)>) returns (updated: string)
    requires forall i | 0 <= i < |keysToUpdate| :: TemplateSafe(keysToUpdate[i].1)
    ensures updated == SubstituteAll(content, keysToUpdate)
  {
    updated := content;
    var i := 0;
    while i < |keysToUpdate|
      invariant 0 <= i <= |keysToUpdate|
      invariant updated == SubstituteAll(content, keysToUpdate[..i])
    {
      var key := keysToUpdate[i].0;
      var value := keysToUpdate[i].1;
      assert keysToUpdate[..i + 1][..i] == keysToUpdate[..i];
      updated := Substitute(updated, key, value);
      i := i + 1;
    }
    assert keysToUpdate[..i] == keysToUpdate;
  }

  /** A key that does not occur leaves the text unchanged. */
  lemma {:induction false} SubstituteAbsent(s: string, key: string, value: string)
    requires !Contains(s, KeyHead(key))
    ensures Substitute(s, key, value) == s
    decreases |s|
  {
    if s != [] {
      SubstituteAbsent(s[1..], key, value);
      assert [s[0]] + s[1..] == s;
    }
  }

  /** A batch whose keys do not occur leaves the text unchanged. */
  lemma {:induction false} SubstituteAllAbsent(content: string, updates: seq<(string, string)>)
    requires forall i | 0 <= i < |updates| :: !Contains(content, KeyHead(updates[i].0))
    ensures SubstituteAll(content, updates) == content
    decreases |updates|
  {
    if updates != [] {
      var n := |updates| - 1;
      SubstituteAllAbsent(content, updates[..n]);
      SubstituteAbsent(content, updates[n].0, updates[n].1);
    }
  }

  lemma {:induction false} SpaceEndSpace(s: string, i: nat)
    requires i <= |s|
    ensures forall j | i <= j < SpaceEnd(s, i) :: IsSpace(s[j])
    decreases |s| - i
  {
    if i < |s| && IsSpace(s[i]) {
      SpaceEndSpace(s, i + 1);
    }
  }

  lemma {:induction false} FindFromFirst(s: string, i: nat, ch: char)
    requires i <= |s|
    ensures forall j | i <= j < FindFrom(s, i, ch) :: s[j] != ch
    decreases |s| - i
  {
    if i < |s| && s[i] != ch {
      FindFromFirst(s, i + 1, ch);
    }
  }

  /** The whitespace run is decided by its own characters and the one after it. */
  lemma {:induction false} SpaceEndPrefix(x: string, y: string, i: nat)
    requires i <= |x| && i <= |y| && SpaceEnd(x, i) < |x| && SpaceEnd(x, i) < |y|
    requires forall j | i <= j <= SpaceEnd(x, i) :: x[j] == y[j]
    ensures SpaceEnd(y, i) == SpaceEnd(x, i)
    decreases |x| - i
  {
    if IsSpace(x[i]) {
      SpaceEndPrefix(x, y, i + 1);
    }
  }

  /** The first occurrence is decided by the characters up to it. */
  lemma {:induction false} FindFromPrefix(x: string, y: string, i: nat, ch: char)
    requires i <= |x| && i <= |y| && FindFrom(x, i, ch) < |x| && FindFrom(x, i, ch) < |y|
    requires forall j | i <= j <= FindFrom(x, i, ch) :: x[j] == y[j]
    ensures FindFrom(y, i, ch) == FindFrom(x, i, ch)
    decreases |x| - i
  {
    if x[i] != ch {
      FindFromPrefix(x, y, i + 1, ch);
    }
  }

  /** A match is decided by the text up to its closing quote. */
  lemma ValueAtPrefix(x: string, y: string, key: string, n: nat)
    requires ValueAt(x, key).Some? && ValueAt(x, key).value.1 < n <= |x| && n <= |y|
    requires forall i | 0 <= i < n :: x[i] == y[i]
    ensures ValueAt(y, key) == ValueAt(x, key)
  {
    var h := KeyHead(key);
    var (o, c) := ValueAt(x, key).value;
    assert StartsWith(y, h) by {
      assert y[..|h|] == x[..|h|];
    }
    SpaceEndPrefix(x, y, |h|);
    FindFromPrefix(x, y, o + 1, '"');
  }

  /** Inside a match the only double quotes before the value are the two around the key, and
      the value holds none. */
  lemma ValueAtQuotes(x: string, key: string)
    requires '"' !in key
    requires ValueAt(x, key).Some?
    ensures forall q | 0 < q < ValueAt(x, key).value.0 && x[q] == '"' :: q == |key| + 1
    ensures forall q | ValueAt(x, key).value.0 < q < ValueAt(x, key).value.1 :: x[q] != '"'
  {
    var h := KeyHead(key);
    var (o, c) := ValueAt(x, key).value;
    assert x[..|h|] == h;
    SpaceEndSpace(x, |h|);
    FindFromFirst(x, o + 1, '"');
    forall q | 0 < q <= |key| ensures x[q] != '"' {
      assert x[q] == h[q];
    }
    assert x[|key| + 2] == h[|key| + 2];
    assert !IsSpace('"');
  }

  lemma {:induction false} FindFromAt(s: string, i: nat, ch: char, j: nat)
    requires i <= j < |s| && s[j] == ch
    requires forall k | i <= k < j :: s[k] != ch
    ensures FindFrom(s, i, ch) == j
    decreases j - i
  {
    if i < j {
      FindFromAt(s, i + 1, ch, j);
    }
  }

  lemma {:induction false} FindFromBound(s: string, i: nat, ch: char, j: nat)
    requires i <= j < |s| && s[j] == ch
    ensures FindFrom(s, i, ch) <= j
    decreases j - i
  {
    if i < j && s[i] != ch {
      FindFromBound(s, i + 1, ch, j);
    }
  }

  /** Text that agrees with a match up to its opening quote and has a quote later matches too. */
  lemma OpenMatch(x: string, y: string, key: string, j: nat)
    requires ValueAt(x, key).Some?
    requires ValueAt(x, key).value.0 < j < |y| && y[j] == '"'
    requires forall i | 0 <= i <= ValueAt(x, key).value.0 :: x[i] == y[i]
    ensures ValueAt(y, key).Some?
  {
    var h := KeyHead(key);
    var o := ValueAt(x, key).value.0;
    assert StartsWith(y, h) by {
      assert y[..|h|] == x[..|h|];
    }
    SpaceEndPrefix(x, y, |h|);
    FindFromBound(y, o + 1, '"', j);
  }

  /** Replacing the value of a match by one without quotes leaves a match around the new value. */
  lemma ValueAtOfReplaced(s: string, key: string, v: string, rest: string)
    requires ValueAt(s, key).Some? && '"' !in v
    ensures var (o, c) := ValueAt(s, key).value;
      ValueAt(s[..o + 1] + v + "\"" + rest, key) == Some((o, o + 1 + |v|))
  {
    var h := KeyHead(key);
    var (o, c) := ValueAt(s, key).value;
    var y := s[..o + 1] + v + "\"" + rest;
    assert StartsWith(y, h) by {
      assert y[..|h|] == s[..|h|];
    }
    SpaceEndPrefix(s, y, |h|);
    forall k | o + 1 <= k < o + 1 + |v| ensures y[k] != '"' {
      assert y[k] == v[k - o - 1];
    }
    FindFromAt(y, o + 1, '"', o + 1 + |v|);
  }

  /** Without a match at the start, `Substitute` copies the first character. */
  lemma SubstituteNoMatch(s: string, key: string, value: string)
    requires s != [] && ValueAt(s, key).None?
    ensures Substitute(s, key, value) == [s[0]] + Substitute(s[1..], key, value)
  {
  }

  /** The first position from which `t` matches, and `Substitute` copies everything before it. */
  lemma {:induction false} FirstMatch(t: string, key: string, value: string) returns (m: nat, found: bool)
    ensures !found ==> Substitute(t, key, value) == t
    ensures found ==>
      m < |t| && ValueAt(t[m..], key).Some? && Substitute(t, key, value) == t[..m] + Substitute(t[m..], key, value)
    decreases |t|
  {
    if t == [] {
      m, found := 0, false;
    } else if ValueAt(t, key).Some? {
      m, found := 0, true;
      assert t[0..] == t;
    } else {
      SubstituteNoMatch(t, key, value);
      var t' := t[1..];
      var m', found' := FirstMatch(t', key, value);
      found := found';
      m := m' + 1;
      if found {
        ConsPrefix(t, m', Substitute(t, key, value), Substitute(t', key, value), Substitute(t[m..], key, value));
      } else {
        assert [t[0]] + t' == t;
      }
    }
  }

  /** At a match `Substitute` rewrites the value and resumes after the closing quote. */
  lemma SubstituteMatch(s: string, key: string, value: string, o: nat, c: nat)
    requires ValueAt(s, key) == Some((o, c))
    ensures Substitute(s, key, value) == s[..o + 1] + value + "\"" + Substitute(s[c + 1..], key, value)
  {
  }

  /** Where the original text has no match, neither has the output of `Substitute`. */
  lemma NoNewMatch(s: string, key: string, v: string)
    requires '"' !in key && s != [] && ValueAt(s, key).None?
    ensures ValueAt([s[0]] + Substitute(s[1..], key, v), key).None?
  {
    var t := s[1..];
    var m, found := FirstMatch(t, key, v);
    if !found {
      assert [s[0]] + t == s;
    } else {
      NoMatchBeforeSplice(s, key, v, m, [s[0]] + Substitute(t, key, v));
    }
  }

  /** The output of `Substitute` agrees with the text up to the opening quote of its first match
      and has a quote after it; a match there would have been a match of the original text. */
  lemma NoMatchBeforeSplice(s: string, key: string, v: string, m: nat, out: string)
    requires '"' !in key && s != [] && ValueAt(s, key).None?
    requires m < |s| - 1 && ValueAt(s[1..][m..], key).Some?
    requires out == [s[0]] + (s[1..][..m] + Substitute(s[1..][m..], key, v))
    ensures ValueAt(out, key).None?
  {
    var u := s[1..][m..];
    var oo, cc := ValueAt(u, key).value.0, ValueAt(u, key).value.1;
    var n := m + oo + 2;
    assert s[m + 1 + oo] == '"' && s[m + 1 + cc] == '"' by {
      assert u[oo] == s[m + 1 + oo] && u[cc] == s[m + 1 + cc];
    }
    SubstituteMatch(u, key, v, oo, cc);
    var tail := v + "\"" + Substitute(u[cc + 1..], key, v);
    Associate(u[..oo + 1], v, "\"", Substitute(u[cc + 1..], key, v));
    SpliceAgrees(s, m, oo + 1, out, s[1..][..m] + Substitute(u, key, v), Substitute(u, key, v), tail);
    if ValueAt(out, key).Some? {
      if ValueAt(out, key).value.0 < n {
        OpenMatch(out, s, key, m + 1 + cc);
        assert false;
      } else {
        ValueAtQuotes(out, key);
        assert false;
      }
    }
  }

  /** Rewriting the values of a key twice is rewriting them once with the second value. */
  lemma {:induction false} SubstituteTwice(s: string, key: string, v: string, w: string)
    requires '"' !in key && '"' !in v
    ensures Substitute(Substitute(s, key, v), key, w) == Substitute(s, key, w)
    decreases |s|
  {
    if s != [] {
      match ValueAt(s, key)
      case Some((o, c)) =>
        var rest := Substitute(s[c + 1..], key, v);
        var out := s[..o + 1] + v + "\"" + rest;
        ValueAtOfReplaced(s, key, v, rest);
        assert out[..o + 1] == s[..o + 1];
        assert out[o + 1 + |v| + 1..] == rest;
        SubstituteTwice(s[c + 1..], key, v, w);
      case None =>
        NoNewMatch(s, key, v);
        var out := [s[0]] + Substitute(s[1..], key, v);
        assert out[1..] == Substitute(s[1..], key, v);
        SubstituteTwice(s[1..], key, v, w);
    }
  }

  /** Applying the same update twice is applying it once. */
  lemma SubstituteIdempotent(s: string, key: string, value: string)
    requires '"' !in key && '"' !in value
    ensures Substitute(Substitute(s, key, value), key, value) == Substitute(s, key, value)
  {
    SubstituteTwice(s, key, value, value);
  }

  /** Only the values change: blanking every value of the key gives the same text before and
      after the update. */
  lemma SubstituteOnlyValues(s: string, key: string, value: string)
    requires '"' !in key && '"' !in value
    ensures Substitute(Substitute(s, key, value), key, "") == Substitute(s, key, "")
  {
    SubstituteTwice(s, key, value, "");
  }
}
