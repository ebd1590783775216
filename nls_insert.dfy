/** The third line pass of `update-token/update-token-colors.py`, `preserve_ordered_write`:
    new NLS entries are grouped by the category their key names and appended to that
    category's `_comment_colors_*` section of the file, or to a new section when the file has
    none, with the trailing commas of the JSON text fixed up around them. */
module NlsInsert {
  import opened Collections
  import opened Text
  import opened Sequences
  import opened Manifest
  import NlsPatcher

  /** One `{"key": ..., "value": ...}` item of `new_keys`. */
  datatype Entry = Entry(key: string, value: string)

  /** The categories in the order the script's dictionary lists them, which is the order in
      which their sections are written. */
  const Categories: seq<string> := [
    "command-disable", "comment", "interface", "vrf", "string", "config-string", "group", "acl",
    "crypto", "address", "arp-insp-val", "command_hostname", "numeric", "separator", "bgp",
    "keyword", "other"
  ]

  /** The group of `^configuration\.properties\.colors\.([^.]+)\.`: the dot-free, non-empty
      segment after the prefix, provided a dot follows it. */
  function Segment(key: string): Option<string> {
    if StartsWith(key, ColorsPrefix) then
      var rest := key[|ColorsPrefix|..];
      var i := IndexOf(rest, '.');
      if 0 < i < |rest| then Some(rest[..i]) else None
    else None
  }

  /** What the pattern matched: the prefix, a non-empty segment without dots, and a dot. */
  lemma SegmentShape(key: string)
    requires Segment(key).Some?
    ensures var seg := Segment(key).value;
      seg != [] && '.' !in seg && StartsWith(key, ColorsPrefix + seg + ".")
  {
    var rest := key[|ColorsPrefix|..];
    var seg := rest[..IndexOf(rest, '.')];
    IndexOfFirst(rest, '.');
    assert key[..|ColorsPrefix| + |seg| + 1] == ColorsPrefix + seg + ".";
  }

  /** Every key of that shape matches, with its own segment. */
  lemma SegmentOf(seg: string, rest: string)
    requires seg != [] && '.' !in seg
    ensures Segment(ColorsPrefix + seg + "." + rest) == Some(seg)
  {
    var key := ColorsPrefix + seg + "." + rest;
    assert key[..|ColorsPrefix|] == ColorsPrefix;
    var tail := seg + ['.'] + rest;
    assert key[|ColorsPrefix|..] == tail;
    IndexOfAfter(seg, '.', rest);
    assert tail[..|seg|] == seg;
  }

  /** The bucket a key lands in: its segment when that names a category, `other` otherwise. */
  function CategoryOf(key: string): (c: string)
    ensures c in Categories
  {
    match Segment(key)
    case Some(prefix) => if prefix in Categories then prefix else "other"
    case None => "other"
  }

  lemma CategoryOfKnown(seg: string, rest: string)
    requires seg != [] && '.' !in seg && seg in Categories
    ensures CategoryOf(ColorsPrefix + seg + "." + rest) == seg
  {
    SegmentOf(seg, rest);
  }

  lemma CategoryOfUnknown(seg: string, rest: string)
    requires seg != [] && '.' !in seg && seg !in Categories
    ensures CategoryOf(ColorsPrefix + seg + "." + rest) == "other"
  {
    SegmentOf(seg, rest);
  }

  function InCategory(c: string): Entry -> bool {
    (e: Entry) => CategoryOf(e.key) == c
  }

  /** The entries of category `c`, in the order they were given. */
  function Bucket(newKeys: seq<Entry>, c: string): seq<Entry> {
    Filter(newKeys, InCategory(c))
  }

  /** Every new entry lands in exactly one bucket, the one of its own category. */
  lemma BucketPartition(newKeys: seq<Entry>, e: Entry, c: string)
    ensures e in Bucket(newKeys, c) <==> e in newKeys && c == CategoryOf(e.key)
  {
    FilterMembers(newKeys, InCategory(c));
  }

  /** The first loop of `preserve_ordered_write`: each item is appended to its category's list. */
  method Categorize(newKeys: seq<Entry>) returns (categories: map<string, seq<Entry>>)
    ensures forall c | c in Categories :: c in categories && categories[c] == Bucket(newKeys, c)
  {
    categories := map c | c in Categories :: [];
    var i := 0;
    while i < |newKeys|
      invariant 0 <= i <= |newKeys|
      invariant forall c | c in Categories :: c in categories
      invariant forall c | c in categories :: categories[c] == Bucket(newKeys[..i], c)
    {
      var item := newKeys[i];
      var category: string;
      var m := Segment(item.key);
      if m.Some? {
        if m.value in Categories {
          category := m.value;
        } else {
          category := "other";
        }
      } else {
        category := "other";
      }
      BucketStep(categories, newKeys, i, category);
      categories := categories[category := categories[category] + [item]];
      i := i + 1;
      assert forall c | c in categories :: categories[c] == Bucket(newKeys[..i], c);
    }
    assert newKeys[..i] == newKeys;
  }

  /** One item appended to its category's list: every list is again the bucket of the longer prefix. */
  lemma BucketStep(categories: map<string, seq<Entry>>, newKeys: seq<Entry>, i: nat, category: string)
    requires i < |newKeys| && category == CategoryOf(newKeys[i].key) && category in categories
    requires forall c | c in categories :: categories[c] == Bucket(newKeys[..i], c)
    ensures var next := categories[category := categories[category] + [newKeys[i]]];
      forall c | c in next :: next[c] == Bucket(newKeys[..i + 1], c)
  {
    forall c | c in categories
      ensures Bucket(newKeys[..i + 1], c) == Bucket(newKeys[..i], c) + (if category == c then [newKeys[i]] else [])
    {
      FilterStep(newKeys, i, InCategory(c));
    }
  }

  /** The section names that differ from the generic `_comment_colors_<category>` / capitalised
      label, chosen to match the section names already in the NLS files. */
  const Overrides: seq<(string, (string, string))> := [
    ("separator", ("_comment_colors_separator", "Separator")),
    ("comment", ("_comment_colors_comments", "Comments")),
    ("address", ("_comment_colors_addresses", "Addresses")),
    ("numeric", ("_comment_colors_numeric", "Numeric")),
    ("interface", ("_comment_colors_interfaces", "Interfaces")),
    ("keyword", ("_comment_colors_keywords", "Keywords")),
    ("vrf", ("_comment_colors_vrf", "VRF")),
    ("string", ("_comment_colors_strings", "Strings")),
    ("config-string", ("_comment_colors_config_strings", "Config Strings")),
    ("bgp", ("_comment_colors_bgp", "BGP")),
    ("group", ("_comment_colors_groups", "Groups")),
    ("acl", ("_comment_colors_acl", "ACL")),
    ("crypto", ("_comment_colors_crypto", "Crypto")),
    ("arp-insp-val", ("_comment_colors_arp", "ARP")),
    ("command_hostname", ("_comment_colors_command", "Command Hostname")),
    ("command-disable", ("_comment_colors_command_disable", "Command Disable"))
  ]

  function Lookup(table: seq<(string, (string, string))>, k: string): (r: Option<(string, string)>)
    decreases |table|
  {
    if table == [] then None
    else if table[0].0 == k then Some(table[0].1)
    else
      Lookup(table[1..], k)
  }

  /** The section marker and label of a category whose first new key is `sampleKey`. */
  function Heading(category: string, sampleKey: string): (string, string) {
    if category == "group" && Contains(sampleKey, ".group.qos.") then
      ("_comment_colors_groups_extended", "Groups Extended")
    else
      match Lookup(Overrides, category)
      case Some(names) => names
      case None =>
        ("_comment_colors_" + ReplaceAll(category, "_", "-"), Join(Words(Split(category, '-')), " "))
  }

  /** A one-word category without an override, such as `other`: the section is named after the
      category and labelled with the capitalised word. */
  lemma PlainHeading(category: string, sampleKey: string)
    requires Lookup(Overrides, category) == None && category != "group"
    requires '_' !in category && '-' !in category
    ensures Heading(category, sampleKey) == ("_comment_colors_" + category, Capitalize(category))
  {
    assert ReplaceAll(category, "_", "-") == category by {
      NotContainsChar(category, '_');
    }
    assert Split(category, '-') == [category] by {
      IndexOfAbsent(category, '-');
    }
    assert Words([category]) == [Capitalize(category)];
  }

  /** `line.strip().startswith("}")`. */
  predicate IsClose(line: string) {
    StartsWith(Trim(line), "}")
  }

  /** `line.strip() == "" or line.strip() == "}"`. */
  predicate BlankOrBrace(line: string) {
    IsBlank(line) || Trim(line) == "}"
  }

  /** The line after a section's last entry: the next `"_comment...` heading or a `}`. */
  predicate IsSectionEnd(line: string) {
    StartsWith(Trim(line), "\"_comment") || StartsWith(Trim(line), "}")
  }

  function Mentions(pattern: string): string -> bool {
    line => Contains(line, pattern)
  }

  /** `re.sub(r"([^,\s])(\s*)$", r"\1,\2", line)`: a comma after the last non-whitespace
      character, unless that character is already a comma or there is none. */
  function AddComma(line: string): string {
    var t := TrimEnd(line);
    if t != [] && t[|t| - 1] != ',' then t + "," + line[|t|..] else line
  }

  /** A non-blank line ends, before its trailing whitespace, with a comma afterwards; the comma
      is the only change, and there is none when the comma was already there. */
  lemma CommaGained(line: string)
    requires !IsBlank(line)
    ensures EndsWith(TrimEnd(AddComma(line)), ",")
    ensures EndsWith(TrimEnd(line), ",") ==> AddComma(line) == line
    ensures !EndsWith(TrimEnd(line), ",") ==> TrimEnd(AddComma(line)) == TrimEnd(line) + ","
  {
    var t := TrimEnd(line);
    TrimEndSpace(line);
    if t[|t| - 1] != ',' {
      TrimEndBeforeSpace(t + ",", line[|t|..]);
    }
  }

  /** The guard `line.strip() and not line.strip().endswith(",")`: as its last visible character
      is tested, it holds exactly when `AddComma` has something to do. */
  predicate NeedsComma(line: string) {
    Trim(line) != "" && !EndsWith(Trim(line), ",")
  }

  lemma NeedsCommaExactly(line: string)
    ensures NeedsComma(line) <==> !IsBlank(line) && !EndsWith(TrimEnd(line), ",")
  {
    BlankIsStripEmpty(line);
    if !IsBlank(line) {
      StripLast(line);
      EndsWithLast(Trim(line), ',');
      EndsWithLast(TrimEnd(line), ',');
    }
  }

  /** `f'  "{key}": "{value}",\n'`, or without the comma. */
  function EntryLine(e: Entry, comma: bool): string {
    "  \"" + e.key + "\": \"" + e.value + "\"" + (if comma then ",\n" else "\n")
  }

  /** `f'  "{section_marker}": "Token Colors - {category_label}",\n'`. */
  function HeaderLine(marker: string, caption: string): string {
    "  \"" + marker + "\": \"Token Colors - " + caption + "\",\n"
  }

  /** The entry lines of a batch: every entry but the last carries a comma, the last one only
      when `lastComma` holds. */
  function EntryLines(es: seq<Entry>, lastComma: bool): (r: seq<string>)
    ensures |r| == |es|
  {
    seq(|es|, i requires 0 <= i < |es| => EntryLine(es[i], i < |es| - 1 || lastComma))
  }

  /** One line per entry, holding its key and value; the comma ends every line but the last,
      and the last one exactly when `lastComma` holds. */
  lemma EntryLinesCommas(es: seq<Entry>, lastComma: bool)
    ensures forall i | 0 <= i < |es| ::
      StartsWith(EntryLines(es, lastComma)[i], "  \"" + es[i].key + "\": \"" + es[i].value + "\"")
    ensures forall i | 0 <= i < |es| ::
      EndsWith(EntryLines(es, lastComma)[i], ",\n") <==> i < |es| - 1 || lastComma
  {
    forall i | 0 <= i < |es| ensures
      && StartsWith(EntryLines(es, lastComma)[i], "  \"" + es[i].key + "\": \"" + es[i].value + "\"")
      && (EndsWith(EntryLines(es, lastComma)[i], ",\n") <==> i < |es| - 1 || lastComma)
    {
      EntryLineShape(es[i], i < |es| - 1 || lastComma);
    }
  }

  lemma EntryLineShape(e: Entry, comma: bool)
    ensures StartsWith(EntryLine(e, comma), "  \"" + e.key + "\": \"" + e.value + "\"")
    ensures EndsWith(EntryLine(e, comma), ",\n") <==> comma
  {
    var h := "  \"" + e.key + "\": \"" + e.value + "\"";
    var t := if comma then ",\n" else "\n";
    assert EntryLine(e, comma) == h + t;
    assert (h + t)[..|h|] == h;
    if !comma {
      var l := h + t;
      assert l[|l| - 1] == '\n' && l[|l| - 2] == '"';
      assert l[|l| - 2..] != ",\n" by {
        assert l[|l| - 2..][0] == '"';
      }
    }
  }

  lemma EntryLinesStep(es: seq<Entry>, lastComma: bool, idx: nat)
    requires idx < |es|
    ensures EntryLines(es, lastComma)[..idx + 1]
      == EntryLines(es, lastComma)[..idx] + [EntryLine(es[idx], idx < |es| - 1 || lastComma)]
  {
    TakeStep(EntryLines(es, lastComma), idx);
  }

  /** The first line that mentions `"<marker>"`, or -1. */
  function SectionIndex(lines: seq<string>, marker: string): (s: int)
    ensures -1 <= s < |lines|
  {
    var i := ScanForward(lines, 0, Mentions("\"" + marker + "\""));
    if i == |lines| then -1 else i
  }

  lemma SectionIndexFirst(lines: seq<string>, marker: string)
    ensures var s := SectionIndex(lines, marker);
      && (s >= 0 ==> Contains(lines[s], "\"" + marker + "\""))
      && forall i | 0 <= i < |lines| && (s == -1 || i < s) :: !Contains(lines[i], "\"" + marker + "\"")
  {
    ScanForwardPassed(lines, 0, Mentions("\"" + marker + "\""));
  }

  // A new section.

  /** `insert_index`: the last line after the first that starts with `}`, or the first line. */
  function NewSectionIndex(lines: seq<string>): (ii: nat)
    requires |lines| > 0
    ensures ii < |lines|
  {
    ScanBack(lines, |lines| - 1, 0, Not(IsClose))
  }

  /** `last_key_index`, read as a Python index: the last line before `insert_index` (after the
      first) that is neither blank nor `}`, else the first line; -1 stands for the last line. */
  function PreviousKey(lines: seq<string>): (k: nat)
    requires |lines| > 0
    ensures k < |lines|
  {
    var j := ScanBack(lines, NewSectionIndex(lines) - 1, 0, BlankOrBrace);
    if j < 0 then |lines| + j else j
  }

  /** The guard before the comma fix of the previous key: non-blank, no trailing comma, and not
      a `"_comment...` heading. */
  predicate NeedsCommaBeforeSection(line: string) {
    NeedsComma(line) && !StartsWith(Trim(line), "\"_comment")
  }

  /** The blank separator line, the heading and the entries of a new section. */
  function SectionLines(marker: string, caption: string, es: seq<Entry>): seq<string> {
    ["\n", HeaderLine(marker, caption)] + EntryLines(es, false)
  }

  /** The new-section branch. `NewSectionIndex` and `PreviousKey` are defined on a non-empty
      file; on an empty one `lines[last_key_index]` raises `IndexError`. */
  function NewSection(lines: seq<string>, marker: string, caption: string, es: seq<Entry>): Result<seq<string>> {
    if |lines| == 0 then Failure("IndexError: list index out of range")
    else
      var ii := NewSectionIndex(lines);
      Success(Splice(FixedBeforeSection(lines), ii, SectionLines(marker, caption, es)))
  }

  /** The lines with the comma after the previous key. */
  function FixedBeforeSection(lines: seq<string>): (r: seq<string>)
    requires |lines| > 0
    ensures |r| == |lines|
  {
    var k := PreviousKey(lines);
    if NeedsCommaBeforeSection(lines[k]) then lines[k := AddComma(lines[k])] else lines
  }

  // An existing section.

  /** `end_index`: the first line after the heading that starts with `"_comment` or `}`. */
  function SectionEnd(lines: seq<string>, s: nat): (e: nat)
    requires s < |lines|
    ensures s < e <= |lines|
  {
    ScanForward(lines, s + 1, IsSectionEnd)
  }

  /** `last_key_index`: the last non-blank line of the section, or the heading. */
  function LastContent(lines: seq<string>, s: nat): (k: nat)
    requires s < |lines|
    ensures s <= k < SectionEnd(lines, s)
  {
    ScanBack(lines, SectionEnd(lines, s) - 1, s, IsBlank)
  }

  /** The final new entry keeps its comma unless the section closes the object, that is unless
      it is followed by a `}` line or by the end of the file. */
  predicate LastEntryComma(lines: seq<string>, e: nat) {
    e < |lines| && !IsClose(lines[e])
  }

  /** The lines with the comma after the section's last entry. */
  function FixedLines(lines: seq<string>, s: nat): (r: seq<string>)
    requires s < |lines|
    ensures |r| == |lines|
  {
    var k := LastContent(lines, s);
    if k > s && NeedsComma(lines[k]) then lines[k := AddComma(lines[k])] else lines
  }

  function ExtendSection(lines: seq<string>, s: nat, es: seq<Entry>): seq<string>
    requires s < |lines|
  {
    Splice(FixedLines(lines, s), LastContent(lines, s) + 1, EntryLines(es, LastEntryComma(lines, SectionEnd(lines, s))))
  }

  // The whole pass.

  /** One iteration of the second loop of `preserve_ordered_write`. */
  function InsertCategory(lines: seq<string>, category: string, es: seq<Entry>): Result<seq<string>> {
    if es == [] then Success(lines)
    else
      var (marker, caption) := Heading(category, es[0].key);
      var s := SectionIndex(lines, marker);
      if s == -1 then NewSection(lines, marker, caption, es) else Success(ExtendSection(lines, s, es))
  }

  /** The first `j` categories processed in order; an error ends the pass. */
  function InsertAll(lines: seq<string>, newKeys: seq<Entry>, j: nat): Result<seq<string>>
    requires j <= |Categories|
  {
    if j == 0 then Success(lines)
    else
      match InsertAll(lines, newKeys, j - 1)
      case Failure(err) => Failure(err)
      case Success(current) => InsertCategory(current, Categories[j - 1], Bucket(newKeys, Categories[j - 1]))
  }

  /** An error stops the pass: later categories are not processed. */
  lemma {:induction false} InsertAllFailed(lines: seq<string>, newKeys: seq<Entry>, j: nat, k: nat)
    requires j <= k <= |Categories| && InsertAll(lines, newKeys, j).Failure?
    ensures InsertAll(lines, newKeys, k) == InsertAll(lines, newKeys, j)
    decreases k
  {
    if j < k {
      InsertAllFailed(lines, newKeys, j, k - 1);
    }
  }

  // The methods.

  /** The backward scan for `insert_index`. */
  method FindInsertIndex(lines: seq<string>) returns (insertIndex: int)
    ensures |lines| == 0 ==> insertIndex == -1
    ensures |lines| > 0 ==> insertIndex == NewSectionIndex(lines)
  {
    insertIndex := |lines| - 1;
    while insertIndex > 0 && !IsClose(lines[insertIndex])
      invariant -1 <= insertIndex < |lines|
      invariant ScanBack(lines, |lines| - 1, 0, Not(IsClose)) == ScanBack(lines, insertIndex, 0, Not(IsClose))
      decreases insertIndex
    {
      insertIndex := insertIndex - 1;
    }
  }

  /** The backward scan for `last_key_index`, started just before `insert_index`. */
  method FindPreviousKey(lines: seq<string>, insertIndex: int) returns (lastKeyIndex: int)
    requires -1 <= insertIndex < |lines|
    ensures insertIndex == -1 ==> lastKeyIndex == -2
    ensures insertIndex >= 0 ==> lastKeyIndex == ScanBack(lines, insertIndex - 1, 0, BlankOrBrace)
  {
    lastKeyIndex := insertIndex - 1;
    while lastKeyIndex > 0 && (IsBlank(lines[lastKeyIndex]) || Trim(lines[lastKeyIndex]) == "}")
      invariant insertIndex >= 0 ==> -1 <= lastKeyIndex <= insertIndex - 1
      invariant insertIndex >= 0 ==>
        ScanBack(lines, insertIndex - 1, 0, BlankOrBrace) == ScanBack(lines, lastKeyIndex, 0, BlankOrBrace)
      invariant insertIndex == -1 ==> lastKeyIndex == -2
      decreases lastKeyIndex
    {
      lastKeyIndex := lastKeyIndex - 1;
    }
  }

  /** The `new_lines` of a new section. */
  method NewSectionLines(marker: string, caption: string, keysToAdd: seq<Entry>) returns (newLines: seq<string>)
    ensures newLines == SectionLines(marker, caption, keysToAdd)
  {
    newLines := ["\n", HeaderLine(marker, caption)];
    var idx := 0;
    while idx < |keysToAdd|
      invariant 0 <= idx <= |keysToAdd|
      invariant newLines == ["\n", HeaderLine(marker, caption)] + EntryLines(keysToAdd, false)[..idx]
    {
      var item := keysToAdd[idx];
      var isLast := idx == |keysToAdd| - 1;
      EntryLinesStep(keysToAdd, false, idx);
      if isLast {
        newLines := newLines + [EntryLine(item, false)];
      } else {
        newLines := newLines + [EntryLine(item, true)];
      }
      idx := idx + 1;
    }
    assert EntryLines(keysToAdd, false)[..idx] == EntryLines(keysToAdd, false);
  }

  /** The new-section branch of the second loop. */
  method InsertNewSection(lines: seq<string>, marker: string, caption: string, keysToAdd: seq<Entry>)
    returns (r: Result<seq<string>>)
    ensures r == NewSection(lines, marker, caption, keysToAdd)
  {
    var insertIndex := FindInsertIndex(lines);
    var lastKeyIndex := FindPreviousKey(lines, insertIndex);
    if lastKeyIndex < -|lines| {
      return Failure("IndexError: list index out of range");
    }
    var k := if lastKeyIndex < 0 then |lines| + lastKeyIndex else lastKeyIndex;
    assert k == PreviousKey(lines);
    var current := lines;
    var lastLine := current[k];
    if Trim(lastLine) != "" && !EndsWith(Trim(lastLine), ",") && !StartsWith(Trim(lastLine), "\"_comment") {
      current := current[k := AddComma(lastLine)];
    }
    var newLines := NewSectionLines(marker, caption, keysToAdd);
    r := Success(Splice(current, insertIndex, newLines));
  }

  /** The forward scan for `end_index`. */
  method FindSectionEnd(lines: seq<string>, sectionIndex: nat) returns (endIndex: nat)
    requires sectionIndex < |lines|
    ensures endIndex == SectionEnd(lines, sectionIndex)
  {
    endIndex := sectionIndex + 1;
    while endIndex < |lines|
      invariant sectionIndex + 1 <= endIndex <= |lines|
      invariant SectionEnd(lines, sectionIndex) == ScanForward(lines, endIndex, IsSectionEnd)
      decreases |lines| - endIndex
    {
      var line := Trim(lines[endIndex]);
      if StartsWith(line, "\"_comment") || StartsWith(line, "}") {
        break;
      }
      endIndex := endIndex + 1;
    }
  }

  /** The backward scan for the section's `last_key_index`. */
  method FindLastContent(lines: seq<string>, sectionIndex: nat, endIndex: nat) returns (lastKeyIndex: nat)
    requires sectionIndex < endIndex <= |lines|
    ensures sectionIndex <= lastKeyIndex < endIndex
    ensures lastKeyIndex > sectionIndex ==> !IsBlank(lines[lastKeyIndex])
    ensures forall i | lastKeyIndex < i < endIndex :: IsBlank(lines[i])
    ensures lastKeyIndex == ScanBack(lines, endIndex - 1, sectionIndex, IsBlank)
  {
    lastKeyIndex := endIndex - 1;
    while lastKeyIndex > sectionIndex && IsBlank(lines[lastKeyIndex])
      invariant sectionIndex <= lastKeyIndex < endIndex
      invariant forall i | lastKeyIndex < i < endIndex :: IsBlank(lines[i])
      invariant ScanBack(lines, endIndex - 1, sectionIndex, IsBlank) == ScanBack(lines, lastKeyIndex, sectionIndex, IsBlank)
      decreases lastKeyIndex
    {
      lastKeyIndex := lastKeyIndex - 1;
    }
  }

  lemma LastContentFrom(lines: seq<string>, s: nat, e: nat)
    requires s < |lines| && e == SectionEnd(lines, s)
    ensures LastContent(lines, s) == ScanBack(lines, e - 1, s, IsBlank)
  {
  }

  /** The `new_lines` of an existing section, given the stripped line after it (`}` at the end
      of the file). */
  method SectionEntryLines(keysToAdd: seq<Entry>, nextLine: string) returns (newLines: seq<string>)
    ensures newLines == EntryLines(keysToAdd, !StartsWith(nextLine, "}"))
  {
    ghost var comma := !StartsWith(nextLine, "}");
    newLines := [];
    var idx := 0;
    while idx < |keysToAdd|
      invariant 0 <= idx <= |keysToAdd|
      invariant newLines == EntryLines(keysToAdd, comma)[..idx]
    {
      var item := keysToAdd[idx];
      var isLast := idx == |keysToAdd| - 1;
      EntryLinesStep(keysToAdd, comma, idx);
      if isLast && StartsWith(nextLine, "}") {
        newLines := newLines + [EntryLine(item, false)];
      } else {
        newLines := newLines + [EntryLine(item, true)];
      }
      idx := idx + 1;
    }
    assert EntryLines(keysToAdd, comma)[..idx] == EntryLines(keysToAdd, comma);
  }

  /** The comma added after the section's last entry; the heading line is left alone. */
  method FixLastEntry(lines: seq<string>, sectionIndex: nat, lastKeyIndex: nat) returns (current: seq<string>)
    requires sectionIndex < |lines| && lastKeyIndex == LastContent(lines, sectionIndex)
    ensures current == FixedLines(lines, sectionIndex)
  {
    current := lines;
    if lastKeyIndex > sectionIndex {
      var lastLine := current[lastKeyIndex];
      if Trim(lastLine) != "" && !EndsWith(Trim(lastLine), ",") {
        current := current[lastKeyIndex := AddComma(lastLine)];
      }
    }
  }

  /** The stripped line that follows the section, `}` at the end of the file. */
  method NextLine(lines: seq<string>, endIndex: nat) returns (nextLine: string)
    ensures !StartsWith(nextLine, "}") == LastEntryComma(lines, endIndex)
  {
    nextLine := if endIndex < |lines| then Trim(lines[endIndex]) else "}";
  }

  /** The existing-section branch of the second loop. */
  method ExtendExistingSection(lines: seq<string>, sectionIndex: nat, keysToAdd: seq<Entry>)
    returns (out: seq<string>)
    requires sectionIndex < |lines|
    ensures out == ExtendSection(lines, sectionIndex, keysToAdd)
  {
    var endIndex := FindSectionEnd(lines, sectionIndex);
    var lastKeyIndex := FindLastContent(lines, sectionIndex, endIndex);
    LastContentFrom(lines, sectionIndex, endIndex);
    var insertPosition := lastKeyIndex + 1;
    var current := FixLastEntry(lines, sectionIndex, lastKeyIndex);
    var nextLine := NextLine(current, endIndex);
    var newLines := SectionEntryLines(keysToAdd, nextLine);
    out := Splice(current, insertPosition, newLines);
    ExtendSectionOf(lines, sectionIndex, keysToAdd, endIndex, lastKeyIndex, current, newLines, out);
  }

  /** The pieces the method computes assemble into the extended section. */
  lemma ExtendSectionOf(lines: seq<string>, s: nat, es: seq<Entry>, e: nat, k: nat,
                        current: seq<string>, newLines: seq<string>, out: seq<string>)
    requires s < |lines| && e == SectionEnd(lines, s) && k == LastContent(lines, s)
    requires current == FixedLines(lines, s)
    requires newLines == EntryLines(es, LastEntryComma(current, e))
    requires out == Splice(current, k + 1, newLines)
    ensures out == ExtendSection(lines, s, es)
  {
    assert LastEntryComma(current, e) == LastEntryComma(lines, e);
  }

  /** The body of the second loop for one category. */
  method InsertCategoryLines(lines: seq<string>, category: string, keysToAdd: seq<Entry>)
    returns (r: Result<seq<string>>)
    ensures r == InsertCategory(lines, category, keysToAdd)
  {
    if keysToAdd == [] {
      return Success(lines);
    }
    var sampleKey := keysToAdd[0].key;
    var (marker, caption) := Heading(category, sampleKey);
    var pattern := "\"" + marker + "\"";
    var sectionIndex := -1;
    var i := 0;
    while i < |lines|
      invariant 0 <= i <= |lines|
      invariant ScanForward(lines, 0, Mentions(pattern)) == ScanForward(lines, i, Mentions(pattern))
      invariant sectionIndex == -1
    {
      if Contains(lines[i], pattern) {
        sectionIndex := i;
        break;
      }
      i := i + 1;
    }
    if sectionIndex == -1 {
      r := InsertNewSection(lines, marker, caption, keysToAdd);
    } else {
      var out := ExtendExistingSection(lines, sectionIndex, keysToAdd);
      r := Success(out);
    }
  }

  /** `preserve_ordered_write` on the file's lines: the entries are bucketed by category, and
      the buckets are written section by section in the fixed category order. */
  method PreserveOrderedWrite(lines: seq<string>, newKeys: seq<Entry>) returns (r: Result<seq<string>>)
    ensures r == InsertAll(lines, newKeys, |Categories|)
  {
    var categories := Categorize(newKeys);
    var current := lines;
    var j := 0;
    while j < |Categories|
      invariant 0 <= j <= |Categories|
      invariant InsertAll(lines, newKeys, j) == Success(current)
    {
      var category := Categories[j];
      var step := InsertCategoryLines(current, category, categories[category]);
      if step.Failure? {
        InsertAllFailed(lines, newKeys, j + 1, |Categories|);
        return step;
      }
      current := step.value;
      j := j + 1;
    }
    r := Success(current);
  }

  // Properties of a batch's insertion. The results the properties talk about are passed in as
  // parameters `e`, `k`, `ii` and `out`, each fixed by a `requires`.

  /** A section runs from its heading to the next heading or `}` line, or to the end of the
      file. */
  lemma SectionEndBounds(lines: seq<string>, s: nat, e: nat)
    requires s < |lines| && e == SectionEnd(lines, s)
    ensures e < |lines| ==> IsSectionEnd(lines[e])
    ensures forall i | s < i < e :: !IsSectionEnd(lines[i])
  {
    ScanForwardPassed(lines, s + 1, IsSectionEnd);
  }

  /** The batch goes after the section's last non-blank line, which is the heading when the
      section holds only blank lines. */
  lemma LastContentBounds(lines: seq<string>, s: nat, k: nat)
    requires s < |lines| && k == LastContent(lines, s)
    ensures k > s ==> !IsBlank(lines[k])
    ensures forall i | k < i < SectionEnd(lines, s) :: IsBlank(lines[i])
  {
    ScanBackSkipped(lines, SectionEnd(lines, s) - 1, s, IsBlank);
  }

  /** The comma fix touches the section's last content line only. */
  lemma FixedLinesElsewhere(lines: seq<string>, s: nat)
    requires s < |lines|
    ensures forall i | 0 <= i < |lines| && i != LastContent(lines, s) :: FixedLines(lines, s)[i] == lines[i]
  {
  }

  /** The batch lands right after the section's last content line, and every other line is
      kept, shifted past the batch when it comes after it. */
  lemma ExtendSectionKeeps(lines: seq<string>, s: nat, es: seq<Entry>, k: nat, out: seq<string>)
    requires s < |lines| && k == LastContent(lines, s) && out == ExtendSection(lines, s, es)
    ensures |out| == |lines| + |es|
    ensures forall i | 0 <= i < k :: out[i] == lines[i]
    ensures forall i | k < i < |lines| :: out[i + |es|] == lines[i]
  {
    FixedLinesElsewhere(lines, s);
  }

  /** The batch, one line per entry, follows the section's last content line; its last entry
      carries a comma unless the section closes the object. */
  lemma ExtendSectionBatch(lines: seq<string>, s: nat, es: seq<Entry>, k: nat, out: seq<string>)
    requires s < |lines| && k == LastContent(lines, s) && out == ExtendSection(lines, s, es)
    ensures k + 1 + |es| <= |out|
    ensures out[k + 1..k + 1 + |es|] == EntryLines(es, LastEntryComma(lines, SectionEnd(lines, s)))
  {
    SpliceMiddle(FixedLines(lines, s), k + 1, EntryLines(es, LastEntryComma(lines, SectionEnd(lines, s))));
  }

  /** The section's last entry ends, before its trailing whitespace, with a comma: either it
      already did and is kept, or exactly a comma is added; a heading with no entry under it is
      kept. */
  lemma LastEntryGainsComma(lines: seq<string>, s: nat, es: seq<Entry>, k: nat, out: seq<string>)
    requires s < |lines| && k == LastContent(lines, s) && out == ExtendSection(lines, s, es)
    ensures k == s ==> out[k] == lines[k]
    ensures k > s ==> EndsWith(TrimEnd(out[k]), ",")
    ensures k > s && EndsWith(TrimEnd(lines[k]), ",") ==> out[k] == lines[k]
    ensures k > s && !EndsWith(TrimEnd(lines[k]), ",") ==> TrimEnd(out[k]) == TrimEnd(lines[k]) + ","
  {
    assert out[k] == FixedLines(lines, s)[k];
    if k > s {
      LastContentBounds(lines, s, k);
      NeedsCommaExactly(lines[k]);
      CommaGained(lines[k]);
    }
  }

  /** A new section goes before the last `}` line that follows the first line, or at the very
      start when there is none. */
  lemma NewSectionIndexBounds(lines: seq<string>, ii: nat)
    requires |lines| > 0 && ii == NewSectionIndex(lines)
    ensures ii > 0 ==> IsClose(lines[ii])
    ensures forall i | ii < i < |lines| :: !IsClose(lines[i])
  {
    ScanBackSkipped(lines, |lines| - 1, 0, Not(IsClose));
  }

  /** The key a new section follows is the last line before it, after the first line, that is
      neither blank nor `}`; with a section going at the very start, the last line of the file. */
  lemma PreviousKeyBounds(lines: seq<string>, ii: nat, k: nat)
    requires |lines| > 0 && ii == NewSectionIndex(lines) && k == PreviousKey(lines)
    ensures ii == 0 ==> k == |lines| - 1
    ensures ii > 0 ==> k < ii
    ensures ii > 0 && k > 0 ==> !BlankOrBrace(lines[k])
    ensures ii > 0 ==> forall i | k < i < ii :: BlankOrBrace(lines[i])
  {
    ScanBackSkipped(lines, ii as int - 1, 0, BlankOrBrace);
  }

  /** The comma fix touches the previous key only. */
  lemma FixedBeforeSectionElsewhere(lines: seq<string>)
    requires |lines| > 0
    ensures forall i | 0 <= i < |lines| && i != PreviousKey(lines) :: FixedBeforeSection(lines)[i] == lines[i]
  {
  }

  /** A new section is always added to a non-empty file. */
  lemma NewSectionSucceeds(lines: seq<string>, marker: string, caption: string, es: seq<Entry>)
    ensures NewSection(lines, marker, caption, es).Success? <==> |lines| > 0
  {
  }

  /** The new section goes at `NewSectionIndex`, and every other line is kept, shifted past the
      section when it comes after it, except the previous key. */
  lemma NewSectionKeeps(lines: seq<string>, marker: string, caption: string, es: seq<Entry>,
                        ii: nat, k: nat, out: seq<string>)
    requires |lines| > 0 && ii == NewSectionIndex(lines) && k == PreviousKey(lines)
    requires out == NewSection(lines, marker, caption, es).value
    ensures |out| == |lines| + (2 + |es|)
    ensures forall i | 0 <= i < ii && i != k :: out[i] == lines[i]
    ensures forall i | ii <= i < |lines| && i != k :: out[i + (2 + |es|)] == lines[i]
  {
    FixedBeforeSectionElsewhere(lines);
  }

  /** The new section is a blank line, its heading and the batch with no comma after its last
      entry. */
  lemma NewSectionBatch(lines: seq<string>, marker: string, caption: string, es: seq<Entry>,
                        ii: nat, out: seq<string>)
    requires |lines| > 0 && ii == NewSectionIndex(lines)
    requires out == NewSection(lines, marker, caption, es).value
    ensures ii + 2 + |es| <= |out|
    ensures out[ii..ii + 2 + |es|] == ["\n", HeaderLine(marker, caption)] + EntryLines(es, false)
  {
    SpliceMiddle(FixedBeforeSection(lines), ii, SectionLines(marker, caption, es));
  }

  /** The previous key keeps its line when it is blank, already ends in a comma or is a
      `"_comment...` heading; otherwise it gains exactly a comma. Its position `at` is shifted
      past the new section when it comes after it. */
  lemma PreviousKeyGainsComma(lines: seq<string>, marker: string, caption: string, es: seq<Entry>,
                              k: nat, at: nat, out: seq<string>)
    requires |lines| > 0 && k == PreviousKey(lines)
    requires at == if k < NewSectionIndex(lines) then k else k + 2 + |es|
    requires out == NewSection(lines, marker, caption, es).value
    ensures at < |out|
    ensures !NeedsCommaBeforeSection(lines[k]) ==> out[at] == lines[k]
    ensures NeedsCommaBeforeSection(lines[k]) ==> EndsWith(TrimEnd(out[at]), ",")
    ensures NeedsCommaBeforeSection(lines[k]) ==> TrimEnd(out[at]) == TrimEnd(lines[k]) + ","
  {
    if NeedsCommaBeforeSection(lines[k]) {
      NeedsCommaExactly(lines[k]);
      CommaGained(lines[k]);
    }
  }

  // Insertion followed by removal.

  /** A heading line names its marker and is not blank. */
  lemma HeaderLineKey(marker: string, caption: string)
    requires |marker| > 0 && '"' !in marker
    ensures NlsPatcher.LeadingKey(HeaderLine(marker, caption)) == Some(marker)
    ensures !IsBlank(HeaderLine(marker, caption))
  {
    var h := HeaderLine(marker, caption);
    var rest := " \"Token Colors - " + caption + "\",\n";
    assert h == "  " + "\"" + marker + "\":" + rest;
    NlsPatcher.LeadingKeyOfQuoted("  ", marker, rest);
    assert h[2] == '"';
  }

  /** Adding a batch as a new section and then removing keys with `remove_ordered_write`
      does not give the file back: the removal drops only lines that name a removed key, so
      the heading of the new section stays (with the blank line before it, and the comma the
      previous key gained, by `PreviousKeyGainsComma`). */
  lemma NewSectionRemoveKeepsHeading(lines: seq<string>, marker: string, caption: string, es: seq<Entry>,
                                     remove: set<string>)
    requires |lines| > 0 && |marker| > 0 && '"' !in marker && marker !in remove
    requires HeaderLine(marker, caption) !in lines
    ensures NewSection(lines, marker, caption, es).Success?
    ensures var back := Collapse(Filter(NewSection(lines, marker, caption, es).value, NlsPatcher.KeepLine(remove)), IsBlank);
      HeaderLine(marker, caption) in back && back != lines
  {
    var out := NewSection(lines, marker, caption, es).value;
    var ii := NewSectionIndex(lines);
    NewSectionBatch(lines, marker, caption, es, ii, out);
    var h := HeaderLine(marker, caption);
    assert out[ii + 1] == h by {
      assert out[ii..ii + 2 + |es|][1] == h;
    }
    HeaderLineKey(marker, caption);
    assert !NlsPatcher.Removed(h, remove);
    CollapseKeeps(out, NlsPatcher.KeepLine(remove), IsBlank, h);
  }

  /** The file `{`, `"a": "x"`, `}` with one key added under a new heading and removed again
      keeps the heading. */
  lemma InsertRemoveExample()
    ensures var lines := ["{\n", "  \"a\": \"x\"\n", "}\n"];
      var out := NewSection(lines, "_comment_colors_zz", "Zz", [Entry("k", "v")]);
      out.Success? && Collapse(Filter(out.value, NlsPatcher.KeepLine({"k"})), IsBlank) != lines
  {
    var lines := ["{\n", "  \"a\": \"x\"\n", "}\n"];
    assert |HeaderLine("_comment_colors_zz", "Zz")| > 4;
    NewSectionRemoveKeepsHeading(lines, "_comment_colors_zz", "Zz", [Entry("k", "v")], {"k"});
  }
}
