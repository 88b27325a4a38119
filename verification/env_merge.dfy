/** Changing named keys of an environment file while every other line survives. */
module EnvMerge {
  import opened Options
  import opened EnvFile

  const BOM := '\U{FEFF}'

  type Values = map<string, string>

  // ---- parsing ----

  ghost predicate DistinctKeys(es: seq<Entry>) {
    forall i, j | 0 <= i < j < |es| :: es[i].key != es[j].key
  }

  function Keys(es: seq<Entry>): set<string> {
    set e | e in es :: e.key
  }

  function ValuesOf(es: seq<Entry>): Values {
    if es == [] then map[] else ValuesOf(es[..|es| - 1])[es[|es| - 1].key := es[|es| - 1].value]
  }

  predicate HasBom(text: string) {
    text != [] && text[0] == BOM
  }

  /** What `parse` accepts: no byte-order mark, no key twice. */
  ghost predicate Parses(text: string) {
    !HasBom(text) && DistinctKeys(TextEntries(text))
  }

  lemma {:induction false} ValuesKeys(es: seq<Entry>)
    ensures ValuesOf(es).Keys == Keys(es)
  {
    if es != [] {
      ValuesKeys(es[..|es| - 1]);
      assert es == es[..|es| - 1] + [es[|es| - 1]];
    }
  }

  lemma ValuesSnoc(es: seq<Entry>, e: Entry)
    ensures ValuesOf(es + [e]) == ValuesOf(es)[e.key := e.value]
  {
    assert (es + [e])[..|es|] == es;
  }

  lemma DistinctSnoc(es: seq<Entry>, e: Entry)
    ensures DistinctKeys(es + [e]) <==> DistinctKeys(es) && e.key !in Keys(es)
  {
    var more := es + [e];
    assert more[|es|] == e && forall i | 0 <= i < |es| :: more[i] == es[i];
    if e.key in Keys(es) {
      var x :| x in es && x.key == e.key;
      var i :| 0 <= i < |es| && es[i] == x;
      assert more[i].key == more[|es|].key;
    }
    if DistinctKeys(es) && e.key !in Keys(es) {
      forall i, j | 0 <= i < j < |more| ensures more[i].key != more[j].key {
        assert i < |es| && es[i] in es;
      }
    }
    if DistinctKeys(more) {
      forall i, j | 0 <= i < j < |es| ensures es[i].key != es[j].key {
        assert more[i].key != more[j].key;
      }
    }
  }

  method Parse(text: string) returns (values: Option<Values>)
    ensures values.Some? <==> Parses(text)
    ensures values.Some? ==> values.value == ValuesOf(TextEntries(text))
  {
    if HasBom(text) {
      return None;
    }
    var lines := SplitLines(text);
    var found: Values := map[];
    hide LineEntries, SplitLines, Entries, ValuesOf, DistinctKeys;
    StartParsing(lines);
    for i := 0 to |lines|
      invariant ReadSoFar(lines, i, found)
    {
      ReadOneMore(lines, i, found);
      if KeyLine(lines[i]) {
        KeyLineHasEquals(lines[i]);
        var e := EntryOf(lines[i]);
        if e.key in found {
          return None;
        }
        found := found[e.key := e.value];
      }
    }
    assert lines[..|lines|] == lines;
    values := Some(found);
  }

  ghost predicate ReadSoFar(lines: seq<string>, i: nat, found: Values)
    requires i <= |lines|
  {
    DistinctKeys(Entries(lines[..i])) && found == ValuesOf(Entries(lines[..i]))
  }

  lemma StartParsing(lines: seq<string>)
    ensures ReadSoFar(lines, 0, map[])
  {
    assert lines[..0] == [];
  }

  lemma ReadOneMore(lines: seq<string>, i: nat, found: Values)
    requires i < |lines| && ReadSoFar(lines, i, found)
    ensures !KeyLine(lines[i]) ==> ReadSoFar(lines, i + 1, found)
    ensures KeyLine(lines[i]) ==> '=' in Unended(lines[i]) && var e := EntryOf(lines[i]);
              && (e.key !in found ==> ReadSoFar(lines, i + 1, found[e.key := e.value]))
              && (e.key in found ==> !DistinctKeys(Entries(lines)))
  {
    hide Entries, LineEntries, KeyLine, EntryOf, Unended, DistinctKeys, ValuesOf;
    var es := Entries(lines[..i]);
    EntriesSoFar(lines, i);
    EntryOfLine(lines[i]);
    if KeyLine(lines[i]) {
      KeyLineHasEquals(lines[i]);
      var e := EntryOf(lines[i]);
      ValuesKeys(es);
      DistinctSnoc(es, e);
      ValuesSnoc(es, e);
      if e.key in found { DuplicateStays(es + [e], Entries(lines[i + 1..])); }
    } else {
      assert es + [] == es;
    }
  }

  lemma EntryOfLine(line: string)
    ensures !KeyLine(line) ==> LineEntries(line) == []
    ensures KeyLine(line) ==> '=' in Unended(line) && LineEntries(line) == [EntryOf(line)]
  {
    hide KeyLine, EntryOf, Unended;
    if KeyLine(line) { KeyLineHasEquals(line); }
  }

  lemma EntriesSoFar(lines: seq<string>, i: nat)
    requires i < |lines|
    ensures Entries(lines[..i + 1]) == Entries(lines[..i]) + LineEntries(lines[i])
    ensures Entries(lines) == Entries(lines[..i + 1]) + Entries(lines[i + 1..])
  {
    EntriesOfOne(lines[i]);
    hide Entries, LineEntries;
    assert lines[..i + 1] == lines[..i] + [lines[i]];
    EntriesConcat(lines[..i], [lines[i]]);
    assert lines == lines[..i + 1] + lines[i + 1..];
    EntriesConcat(lines[..i + 1], lines[i + 1..]);
  }

  lemma EntriesOfOne(line: string)
    ensures Entries([line]) == LineEntries(line)
  {
    hide LineEntries;
    EntriesStep([line]);
    assert [line][1..] == [] && Entries([]) == [];
  }

  lemma DuplicateStays(a: seq<Entry>, b: seq<Entry>)
    requires !DistinctKeys(a)
    ensures !DistinctKeys(a + b)
  {
    var i, j :| 0 <= i < j < |a| && a[i].key == a[j].key;
    assert (a + b)[i].key == (a + b)[j].key;
  }

  // ---- what may be set ----

  /** Key names and the shapes of their values. The shapes' patterns end in `$`. */
  datatype Settings = Settings(publics: map<string, string -> bool>, secrets: map<string, string -> bool>)

  predicate ProperName(k: string) {
    k != [] && k[0] != '#' && k[0] != BOM && '=' !in k && forall c | c in k :: !Blank(c)
  }

  predicate NoBreaks(v: string) {
    forall c | c in v :: !Break(c)
  }

  /** The tables: proper names, and shapes no text with a line break has. */
  ghost predicate Proper(s: Settings) {
    && (forall k | k in s.publics :: ProperName(k) && forall v | s.publics[k](v) :: NoBreaks(v))
    && (forall k | k in s.secrets :: ProperName(k) && forall v | s.secrets[k](v) :: NoBreaks(v))
  }

  /** `$` also matches before one final line feed. */
  predicate Matches(shape: string -> bool, v: string) {
    shape(v) || (v != [] && v[|v| - 1] == '\n' && shape(v[..|v| - 1]))
  }

  /** Assignment to a dictionary: a new key goes last, an old one keeps its place. */
  function Assign(dict: seq<Entry>, e: Entry): seq<Entry> {
    if dict == [] then [e]
    else if dict[0].key == e.key then [e] + dict[1..]
    else [dict[0]] + Assign(dict[1..], e)
  }

  function PublicUpdates(s: Settings, specs: seq<Entry>): Option<seq<Entry>> {
    if specs == [] then Some([])
    else
      var before, e := PublicUpdates(s, specs[..|specs| - 1]), specs[|specs| - 1];
      if before.None? || e.key in s.secrets || e.key !in s.publics || !Matches(s.publics[e.key], e.value) then None
      else Some(Assign(before.value, e))
  }

  /** Each `files` entry is a key and the text of the file it is read from. */
  function AllUpdates(s: Settings, specs: seq<Entry>, files: seq<Entry>): Option<seq<Entry>> {
    if files == [] then PublicUpdates(s, specs)
    else
      var before, e := AllUpdates(s, specs, files[..|files| - 1]), files[|files| - 1];
      if before.None? || e.key !in s.secrets || !Matches(s.secrets[e.key], SecretOf(e.value)) then None
      else Some(Assign(before.value, Entry(e.key, SecretOf(e.value))))
  }

  function SecretOf(text: string): string {
    Strip(if HasBom(text) then text[1..] else text)
  }

  // ---- merging ----

  function Find(updates: seq<Entry>, key: string): Option<string> {
    if updates == [] then None else if updates[0].key == key then Some(updates[0].value) else Find(updates[1..], key)
  }

  function Assignment(key: string, value: string): string {
    key + ['='] + value
  }

  predicate EndsWith(s: string, end: string) {
    |s| >= |end| && s[|s| - |end|..] == end
  }

  function ReplaceLine(updates: seq<Entry>, line: string): string {
    if !KeyLine(line) then line
    else
      KeyLineHasEquals(line);
      var key := line[..IndexOf(line, '=')];
      if Find(updates, key).None? then line
      else Assignment(key, Find(updates, key).value) + if EndsWith(line, "\r\n") then "\r\n" else "\n"
  }

  function Replaced(updates: seq<Entry>, lines: seq<string>): (r: seq<string>)
    ensures |r| == |lines|
  {
    if lines == [] then [] else [ReplaceLine(updates, lines[0])] + Replaced(updates, lines[1..])
  }

  function Terminated(lines: seq<string>): seq<string> {
    if lines != [] && !EndsWith(lines[|lines| - 1], "\n")
    then lines[..|lines| - 1] + [lines[|lines| - 1] + "\n"] else lines
  }

  function Additions(updates: seq<Entry>, present: set<string>): seq<string> {
    if updates == [] then []
    else (if updates[0].key in present then [] else [Assignment(updates[0].key, updates[0].value) + "\n"]) + Additions(updates[1..], present)
  }

  function MergedText(updates: seq<Entry>, text: string): string {
    Join(Terminated(Replaced(updates, SplitLines(text))) + Additions(updates, Keys(TextEntries(text))))
  }

  // ---- verifying ----

  /** `verify`: a key lost, changed or added that is not allowed to be. */
  predicate Unchanged(before: Values, after: Values, allowed: set<string>) {
    && (forall k | k in before :: k in after && (before[k] == after[k] || k in allowed))
    && (forall k | k in after && k !in before :: k in allowed)
  }

  datatype Problem = Missing(key: string) | Changed(key: string) | Extra(key: string)

  method Problems(before: Values, after: Values, allowed: set<string>) returns (problems: seq<Problem>)
    ensures problems == [] <==> Unchanged(before, after, allowed)
  {
    problems := [];
    var left := before.Keys;
    while left != {}
      invariant left <= before.Keys
      invariant problems == [] <==> forall k | k in before && k !in left :: k in after && (before[k] == after[k] || k in allowed)
      decreases left
    {
      var k :| k in left;
      if k !in after {
        problems := problems + [Missing(k)];
      } else if before[k] != after[k] && k !in allowed {
        problems := problems + [Changed(k)];
      }
      left := left - {k};
    }
    var added := after.Keys - before.Keys;
    while added != {}
      invariant added <= after.Keys - before.Keys
      invariant problems == [] <==>
        (forall k | k in before :: k in after && (before[k] == after[k] || k in allowed)) && (forall k | k in after && k !in before && k !in added :: k in allowed)
      decreases added
    {
      var k :| k in added;
      if k !in allowed {
        problems := problems + [Extra(k)];
      }
      added := added - {k};
    }
  }

  datatype Verified = Accepted | Differs(problems: seq<Problem>) | Unreadable

  method Verify(base: string, new_: string, allowed: set<string>) returns (r: Verified)
    ensures r.Unreadable? <==> !Parses(base) || !Parses(new_)
    ensures r.Accepted? <==> Parses(base) && Parses(new_) && Unchanged(ValuesOf(TextEntries(base)), ValuesOf(TextEntries(new_)), allowed)
  {
    var before := Parse(base);
    var after := Parse(new_);
    if before.None? || after.None? {
      return Unreadable;
    }
    var problems := Problems(before.value, after.value, allowed);
    r := if problems == [] then Accepted else Differs(problems);
  }

  // ---- the merge command ----

  datatype Merged = Refused | Written(text: string)

  /** Everything that must hold before anything is written. */
  ghost predicate Admitted(s: Settings, base: string, required: set<string>, specs: seq<Entry>, files: seq<Entry>) {
    && Parses(base)
    && required <= Keys(TextEntries(base))
    && "DATABASE_URL" in Keys(TextEntries(base))
    && AllUpdates(s, specs, files).Some? && AllUpdates(s, specs, files).value != []
  }

  method CollectUpdates(s: Settings, specs: seq<Entry>, files: seq<Entry>) returns (updates: Option<seq<Entry>>)
    ensures updates == AllUpdates(s, specs, files)
  {
    hide Strip;
    var found: seq<Entry> := [];
    for i := 0 to |specs|
      invariant PublicUpdates(s, specs[..i]) == Some(found)
    {
      assert specs[..i + 1][..i] == specs[..i];
      var e := specs[i];
      if e.key in s.secrets || e.key !in s.publics || !Matches(s.publics[e.key], e.value) {
        RefusedForGood(s, specs, i + 1);
        RefusedFiles(s, specs, files);
        return None;
      }
      found := Assign(found, e);
    }
    assert specs[..|specs|] == specs;
    for i := 0 to |files|
      invariant AllUpdates(s, specs, files[..i]) == Some(found)
    {
      assert files[..i + 1][..i] == files[..i];
      var e := files[i];
      if e.key !in s.secrets || !Matches(s.secrets[e.key], SecretOf(e.value)) {
        RefusedLater(s, specs, files, i + 1);
        return None;
      }
      found := Assign(found, Entry(e.key, SecretOf(e.value)));
    }
    assert files[..|files|] == files;
    updates := Some(found);
  }

  lemma {:induction false} RefusedForGood(s: Settings, specs: seq<Entry>, i: nat)
    requires i <= |specs| && PublicUpdates(s, specs[..i]).None?
    ensures PublicUpdates(s, specs).None?
    decreases |specs| - i
  {
    hide Matches;
    if i < |specs| {
      assert specs[..i + 1][..i] == specs[..i];
      RefusedForGood(s, specs, i + 1);
    } else {
      assert specs[..i] == specs;
    }
  }

  lemma {:induction false} RefusedFiles(s: Settings, specs: seq<Entry>, files: seq<Entry>)
    requires PublicUpdates(s, specs).None?
    ensures AllUpdates(s, specs, files).None?
  {
    hide Matches, PublicUpdates, SecretOf;
    if files != [] { RefusedFiles(s, specs, files[..|files| - 1]); }
  }

  lemma {:induction false} RefusedLater(s: Settings, specs: seq<Entry>, files: seq<Entry>, i: nat)
    requires i <= |files| && AllUpdates(s, specs, files[..i]).None?
    ensures AllUpdates(s, specs, files).None?
    decreases |files| - i
  {
    hide Matches, PublicUpdates, SecretOf;
    if i < |files| {
      assert files[..i + 1][..i] == files[..i];
      RefusedLater(s, specs, files, i + 1);
    } else {
      assert files[..i] == files;
    }
  }
}
