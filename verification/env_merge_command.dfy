/** The merge command: the merged file reads back as the base overridden by the updates. */
module EnvMergeCommand {
  import opened Options
  import opened EnvFile
  import opened EnvMerge
  import opened EnvMergeLaws

  // ---- the whole text ----

  lemma {:induction false} JoinConcat(a: seq<string>, b: seq<string>)
    ensures Join(a + b) == Join(a) + Join(b)
  {
    if a == [] {
      assert a + b == b;
    } else {
      assert (a + b)[1..] == a[1..] + b;
      JoinConcat(a[1..], b);
    }
  }

  lemma JoinSnoc(lines: seq<string>, last: string)
    ensures Join(lines + [last]) == Join(lines) + last
  {
    JoinConcat(lines, [last]);
    assert [last][1..] == [] && Join([]) == [] && last + [] == last;
    assert Join([last]) == last;
  }

  lemma TerminatedJoins(lines: seq<string>)
    requires NoneEmpty(lines)
    ensures Join(Terminated(lines)) == TerminateText(Join(lines))
  {
    if lines != [] {
      var init, last := lines[..|lines| - 1], lines[|lines| - 1];
      assert lines == init + [last];
      JoinSnoc(init, last);
      JoinSnoc(init, last + "\n");
      LastOf(Join(init), last);
      hide Join;
      assert EndsWith(last, "\n") <==> last[|last| - 1] == '\n';
      assert Join(init) + (last + "\n") == Join(init) + last + "\n";
    }
  }

  lemma LastOf(a: string, b: string)
    requires b != []
    ensures (a + b)[|a + b| - 1] == b[|b| - 1]
  {
  }

  predicate NoneEmpty(lines: seq<string>) {
    forall i | 0 <= i < |lines| :: lines[i] != []
  }

  lemma {:induction false} ReplacedNonempty(updates: seq<Entry>, lines: seq<string>)
    requires NoneEmpty(lines)
    ensures NoneEmpty(Replaced(updates, lines))
  {
    hide KeyLine, IndexOf;
    if lines != [] {
      ReplacedNonempty(updates, lines[1..]);
    }
  }

  lemma {:induction false} SplitNonempty(t: string)
    ensures NoneEmpty(SplitLines(t))
    decreases |t|
  {
    if t != [] {
      SplitStep(t, LineLength(t));
      SplitNonempty(t[LineLength(t)..]);
      hide LineLength, SplitLines;
    }
  }

  lemma {:induction false} AdditionsSay(updates: seq<Entry>, present: set<string>)
    requires forall e | e in updates :: ProperUpdate(e)
    ensures TextEntries(Join(Additions(updates, present))) == Fresh(updates, present)
  {
    hide ProperUpdate, SplitLines, Entries;
    if updates == [] {
      NoLines();
    } else {
      var e, rest := updates[0], Additions(updates[1..], present);
      assert updates == [e] + updates[1..];
      AdditionsSay(updates[1..], present);
      if e.key in present {
        assert Additions(updates, present) == rest;
      } else {
        var line := Assignment(e.key, e.value) + "\n";
        assert Additions(updates, present) == [line] + rest && ([line] + rest)[1..] == rest;
        OneUpdateSays(e);
        TextEntriesConcat(line, Join(rest));
      }
    }
  }

  lemma OneUpdateSays(e: Entry)
    requires ProperUpdate(e)
    ensures TextEntries(Assignment(e.key, e.value) + "\n") == [Entry(e.key, Plain(e.value))]
  {
    AssignmentReadsBack(e.key, e.value, "\n");
  }

  lemma MergedShape(updates: seq<Entry>, text: string)
    ensures MergedText(updates, text)
         == TerminateText(ReplacedText(updates, text)) + Join(Additions(updates, Keys(TextEntries(text))))
  {
    hide Replaced, SplitLines, Entries, Join, Terminated, Additions, TerminateText;
    var lines := Replaced(updates, SplitLines(text));
    SplitNonempty(text);
    ReplacedNonempty(updates, SplitLines(text));
    TerminatedJoins(lines);
    JoinConcat(Terminated(lines), Additions(updates, Keys(TextEntries(text))));
  }

  lemma TerminatedEnds(t: string, more: string)
    ensures Closed(TerminateText(t), more)
  {
  }

  /** What the merged file says: the base's entries in place, overridden, then the new ones. */
  lemma MergedSays(updates: seq<Entry>, text: string)
    requires ProperUpdates(updates)
    ensures var es := TextEntries(text);
            TextEntries(MergedText(updates, text)) == Overridden(updates, es) + Fresh(updates, Keys(es))
  {
    MergedShape(updates, text);
    ReplacedSays(updates, text);
    AdditionsSay(updates, Keys(TextEntries(text)));
    TerminatedEnds(ReplacedText(updates, text), Join(Additions(updates, Keys(TextEntries(text)))));
    hide MergedText, ReplacedText, TextEntries, Join, Overridden, Fresh, Additions, TerminateText, Closed;
    TextEntriesConcat(TerminateText(ReplacedText(updates, text)), Join(Additions(updates, Keys(TextEntries(text)))));
  }

  // ---- as dictionaries ----

  lemma {:induction false} ValueAt(es: seq<Entry>, e: Entry)
    requires DistinctKeys(es) && e in es
    ensures e.key in ValuesOf(es) && ValuesOf(es)[e.key] == e.value
  {
    var init, last := es[..|es| - 1], es[|es| - 1];
    assert es == init + [last];
    ValuesKeys(es);
    DistinctSnoc(init, last);
    if e != last {
      ValueAt(init, e);
    }
  }

  /** Last assignment wins, so a dictionary is what its entries say. */
  lemma SameValues(es: seq<Entry>, m: Values)
    requires DistinctKeys(es) && Keys(es) == m.Keys
    requires forall e | e in es :: e.key in m && m[e.key] == e.value
    ensures ValuesOf(es) == m
  {
    ValuesKeys(es);
    forall k | k in m ensures k in ValuesOf(es) && ValuesOf(es)[k] == m[k] {
      var e :| e in es && e.key == k;
      ValueAt(es, e);
    }
  }

  function Plains(updates: seq<Entry>): (r: seq<Entry>)
    ensures |r| == |updates| && forall i | 0 <= i < |r| :: r[i] == Entry(updates[i].key, Plain(updates[i].value))
  {
    if updates == [] then [] else [Entry(updates[0].key, Plain(updates[0].value))] + Plains(updates[1..])
  }

  lemma SameKeys(a: seq<Entry>, b: seq<Entry>)
    requires |a| == |b| && forall i | 0 <= i < |a| :: a[i].key == b[i].key
    ensures Keys(a) <= Keys(b) && (DistinctKeys(a) ==> DistinctKeys(b))
  {
    forall e | e in a ensures e.key in Keys(b) {
      var i :| 0 <= i < |a| && a[i] == e;
      assert b[i] in b;
    }
  }

  lemma PlainKeys(updates: seq<Entry>)
    ensures Keys(Plains(updates)) == Keys(updates)
    ensures DistinctKeys(updates) ==> DistinctKeys(Plains(updates))
  {
    hide Plain, Keys, DistinctKeys;
    SameKeys(updates, Plains(updates));
    SameKeys(Plains(updates), updates);
  }

  lemma {:induction false} FoundIsPlain(updates: seq<Entry>, key: string)
    requires DistinctKeys(updates)
    ensures Find(updates, key).Some? <==> key in ValuesOf(Plains(updates))
    ensures Find(updates, key).Some? ==> ValuesOf(Plains(updates))[key] == Plain(Find(updates, key).value)
  {
    hide Plain, Find, DistinctKeys, ValuesOf;
    FindFinds(updates, key);
    PlainKeys(updates);
    ValuesKeys(Plains(updates));
    if Find(updates, key).Some? {
      var e := Entry(key, Find(updates, key).value);
      assert e in updates && e.key in Keys(updates);
      var i :| 0 <= i < |updates| && updates[i] == e;
      var p := Plains(updates)[i];
      assert p == Entry(key, Plain(e.value)) && p in Plains(updates);
      ValueAt(Plains(updates), p);
    }
  }

  lemma {:induction false} FreshEntries(updates: seq<Entry>, present: set<string>)
    requires DistinctKeys(updates)
    ensures DistinctKeys(Fresh(updates, present)) && Keys(Fresh(updates, present)) == Keys(updates) - present
    ensures forall e | e in Fresh(updates, present) :: Find(updates, e.key).Some? && e.value == Plain(Find(updates, e.key).value)
  {
    hide Plain, DistinctKeys, Keys;
    if updates == [] {
      NoneDistinct();
    } else {
      var u, tail := updates[0], updates[1..];
      var rest := Fresh(tail, present);
      assert updates == [u] + tail;
      DistinctTail(updates);
      FreshEntries(tail, present);
      DistinctCons(u, tail);
      var e := Entry(u.key, Plain(u.value));
      DistinctCons(e, rest);
      if u.key in present {
        assert Fresh(updates, present) == rest;
      } else {
        assert Fresh(updates, present) == [e] + rest;
      }
      forall x | x in rest ensures Find(updates, x.key).Some? && x.value == Plain(Find(updates, x.key).value) {
        KeyOfEntry(rest, x);
      }
    }
  }

  lemma KeyOfEntry(es: seq<Entry>, e: Entry)
    requires e in es
    ensures e.key in Keys(es)
  {
  }

  lemma NoneDistinct()
    ensures DistinctKeys([]) && Keys([]) == {}
  {
  }

  lemma DistinctConcat(a: seq<Entry>, b: seq<Entry>)
    requires DistinctKeys(a) && DistinctKeys(b) && Keys(a) !! Keys(b)
    ensures DistinctKeys(a + b) && Keys(a + b) == Keys(a) + Keys(b)
  {
    var ab := a + b;
    forall i, j | 0 <= i < j < |ab| ensures ab[i].key != ab[j].key {
      if i < |a| <= j {
        assert a[i] in a && b[j - |a|] in b;
        assert a[i].key in Keys(a) && b[j - |a|].key in Keys(b);
      }
    }
    assert forall e :: e in ab <==> e in a || e in b;
  }

  lemma OverriddenKeys(updates: seq<Entry>, es: seq<Entry>)
    requires DistinctKeys(es)
    ensures DistinctKeys(Overridden(updates, es)) && Keys(Overridden(updates, es)) == Keys(es)
  {
    hide Plain, Find, Keys, DistinctKeys;
    SameKeys(es, Overridden(updates, es));
    SameKeys(Overridden(updates, es), es);
  }

  /** The merged file parses, to the base's values overridden by the plain updates. */
  lemma MergedValues(updates: seq<Entry>, es: seq<Entry>)
    requires DistinctKeys(updates) && DistinctKeys(es)
    ensures var all := Overridden(updates, es) + Fresh(updates, Keys(es));
            DistinctKeys(all) && ValuesOf(all) == ValuesOf(es) + ValuesOf(Plains(updates))
  {
    hide Plain, DistinctKeys, ValuesOf, Find, Fresh, Plains, Overrides, Keys;
    var os, fs := Overridden(updates, es), Fresh(updates, Keys(es));
    var m := ValuesOf(es) + ValuesOf(Plains(updates));
    OverriddenKeys(updates, es);
    FreshEntries(updates, Keys(es));
    DistinctConcat(os, fs);
    ValuesKeys(es);
    ValuesKeys(Plains(updates));
    PlainKeys(updates);
    assert m.Keys == Keys(es) + Keys(updates);
    forall e: Entry | e in os + fs ensures e.key in m && m[e.key] == e.value {
      FoundIsPlain(updates, e.key);
      if e in os {
        OverriddenValue(updates, es, e);
      }
    }
    SameValues(os + fs, m);
  }

  lemma OverriddenValue(updates: seq<Entry>, es: seq<Entry>, e: Entry)
    requires DistinctKeys(es) && e in Overridden(updates, es)
    ensures e.key in ValuesOf(es)
    ensures e.value == if Find(updates, e.key).Some? then Plain(Find(updates, e.key).value) else ValuesOf(es)[e.key]
  {
    hide Plain, Find, DistinctKeys, ValuesOf;
    var i :| 0 <= i < |es| && Overridden(updates, es)[i] == e;
    assert es[i] in es;
    ValueAt(es, es[i]);
  }

  // ---- the command ----

  function UpdatesOf(s: Settings, specs: seq<Entry>, files: seq<Entry>): seq<Entry> {
    AllUpdates(s, specs, files).GetOr([])
  }

  lemma MergedFile(updates: seq<Entry>, base: string)
    requires ProperUpdates(updates) && Parses(base) && TextEntries(base) != []
    ensures Parses(MergedText(updates, base))
    ensures ValuesOf(TextEntries(MergedText(updates, base))) == ValuesOf(TextEntries(base)) + ValuesOf(Plains(updates))
  {
    MergedSays(updates, base);
    MergedValues(updates, TextEntries(base));
    if base == [] { NoLines(); }
    MergedStarts(updates, base);
    hide TextEntries, MergedText, DistinctKeys, ValuesOf;
  }

  /** The merged text begins as the base does, or with a key. */
  lemma MergedStarts(updates: seq<Entry>, base: string)
    requires ProperUpdates(updates) && base != [] && base[0] != BOM
    ensures !HasBom(MergedText(updates, base))
  {
    MergedShape(updates, base);
    FirstCharacter(updates, base);
    hide ReplacedText, MergedText, TextEntries, Join, Additions, ProperUpdates;
  }

  lemma FirstCharacter(updates: seq<Entry>, base: string)
    requires ProperUpdates(updates) && base != [] && base[0] != BOM
    ensures ReplacedText(updates, base) != [] && ReplacedText(updates, base)[0] != BOM
  {
    ReplacedStep(updates, base);
    FirstLineAlone(base);
    var line := base[..LineLength(base)];
    hide LineLength, SplitLines, KeyLine, Find, ReplacedText;
    if ReplaceLine(updates, line) != line {
      KeyLineHasEquals(line);
      var key := line[..IndexOf(line, '=')];
      FindFinds(updates, key);
      var e := Entry(key, Find(updates, key).value);
      assert e in updates && ProperUpdate(e);
      assert Assignment(key, e.value)[0] == key[0];
    }
  }

  /** `merge`: refused before anything is written, or the merged text; no key is ever lost. */
  method Merge(s: Settings, base: string, required: set<string>, specs: seq<Entry>, files: seq<Entry>) returns (r: Merged)
    requires Proper(s)
    ensures r.Written? <==> Admitted(s, base, required, specs, files)
    ensures r.Written? ==> r.text == MergedText(UpdatesOf(s, specs, files), base)
  {
    hide SplitLines, Entries, Proper, KeyLine;
    var values := Parse(base);
    if values.None? {
      return Refused;
    }
    ValuesKeys(TextEntries(base));
    if !(required <= values.value.Keys) || "DATABASE_URL" !in values.value {
      return Refused;
    }
    var updates := CollectUpdates(s, specs, files);
    if updates.None? || updates.value == [] {
      return Refused;
    }
    UpdatesAreProper(s, specs, files);
    var text := WriteMerged(updates.value, base);
    MergedFile(updates.value, base);
    hide MergedText, ProperUpdates, AllUpdates;
    var merged := Parse(text);
    var lost := values.value.Keys - merged.value.Keys;
    if lost != {} {
      return Refused;
    }
    r := Written(text);
  }

  method WriteMerged(updates: seq<Entry>, base: string) returns (text: string)
    ensures text == MergedText(updates, base)
  {
    hide Replaced, Terminated, Additions, Join, SplitLines, TextEntries, Keys;
    var out := RewriteLines(updates, SplitLines(base));
    out := AppendNew(updates, out, Keys(TextEntries(base)));
    text := Join(out);
  }

  method RewriteLines(updates: seq<Entry>, lines: seq<string>) returns (out: seq<string>)
    ensures out == Terminated(Replaced(updates, lines))
  {
    hide KeyLine, ReplaceLine;
    out := [];
    for i := 0 to |lines|
      invariant out + Replaced(updates, lines[i..]) == Replaced(updates, lines)
    {
      ReplacedCons(updates, lines[i..]);
      assert lines[i..][1..] == lines[i + 1..];
      out := out + [ReplaceLine(updates, lines[i])];
    }
    assert out == Replaced(updates, lines) by { assert lines[|lines|..] == [] && out + [] == out; }
    if out != [] && !EndsWith(out[|out| - 1], "\n") {
      out := out[..|out| - 1] + [out[|out| - 1] + "\n"];
    }
  }

  method AppendNew(updates: seq<Entry>, kept: seq<string>, present: set<string>) returns (out: seq<string>)
    ensures out == kept + Additions(updates, present)
  {
    hide Assignment;
    out := kept;
    for i := 0 to |updates|
      invariant out + Additions(updates[i..], present) == kept + Additions(updates, present)
    {
      AdditionsCons(updates[i..], present);
      assert updates[i..][1..] == updates[i + 1..];
      if updates[i].key !in present {
        out := out + [Assignment(updates[i].key, updates[i].value) + "\n"];
      }
    }
    assert updates[|updates|..] == [] && out + [] == out;
  }

  lemma ReplacedCons(updates: seq<Entry>, lines: seq<string>)
    requires lines != []
    ensures Replaced(updates, lines) == [ReplaceLine(updates, lines[0])] + Replaced(updates, lines[1..])
  {
  }

  lemma AdditionsCons(updates: seq<Entry>, present: set<string>)
    requires updates != []
    ensures Additions(updates, present)
         == (if updates[0].key in present then [] else [Assignment(updates[0].key, updates[0].value) + "\n"]) + Additions(updates[1..], present)
  {
  }

  // ---- the laws ----

  predicate NoTrailingFeeds(updates: seq<Entry>) {
    forall e | e in updates :: e.value == [] || e.value[|e.value| - 1] != '\n'
  }

  lemma TrailingFeed(v: string)
    ensures Plain(v) == v <==> v == [] || v[|v| - 1] != '\n'
  {
  }

  /** The merged file holds the base's values overridden by the updates, if and only if no update
      ends in a line feed: the shapes' `$` lets one through, and the file cannot hold it. */
  lemma MergeOverridesExactlyWhen(s: Settings, base: string, required: set<string>, specs: seq<Entry>, files: seq<Entry>)
    requires Proper(s) && Admitted(s, base, required, specs, files)
    ensures var updates := UpdatesOf(s, specs, files);
            && Parses(MergedText(updates, base))
            && (ValuesOf(TextEntries(MergedText(updates, base))) == ValuesOf(TextEntries(base)) + ValuesOf(updates) <==> NoTrailingFeeds(updates))
  {
    var updates := UpdatesOf(s, specs, files);
    UpdatesAreProper(s, specs, files);
    MergedFile(updates, base);
    PlainsAgreeWhen(updates);
    hide AllUpdates, TextEntries, MergedText, ProperUpdate;
    PlainKeys(updates);
    ValuesKeys(updates);
    ValuesKeys(Plains(updates));
    SameOverride(ValuesOf(TextEntries(base)), ValuesOf(Plains(updates)), ValuesOf(updates));
  }

  /** The failing family: any public value its pattern accepts, with one line feed after it. The merge
      is admitted and the file holds the value without the feed. */
  lemma FinalLineFeedIsLost(s: Settings, base: string, key: string, value: string)
    requires Proper(s) && key in s.publics && key !in s.secrets && s.publics[key](value)
    requires Parses(base) && "DATABASE_URL" in Keys(TextEntries(base))
    ensures var u := Entry(key, value + "\n"); Admitted(s, base, {}, [u], []) && UpdatesOf(s, [u], []) == [u]
    ensures var after := ValuesOf(TextEntries(MergedText([Entry(key, value + "\n")], base)));
            key in after && after[key] == value && value != value + "\n"
  {
    var u := Entry(key, value + "\n");
    OneUpdate(s, u, value);
    UpdatesAreProper(s, [u], []);
    hide TextEntries, MergedText, Plains, ValuesOf, DistinctKeys, Proper, ProperUpdate, AllUpdates;
    MergedFile([u], base);
    FoundIsPlain([u], key);
    FoundFirst(u, value);
  }

  lemma FoundFirst(u: Entry, value: string)
    requires u.value == value + "\n"
    ensures Find([u], u.key) == Some(u.value) && Plain(u.value) == value && value != u.value
  {
    assert u.value[..|value|] == value;
  }

  lemma OneUpdate(s: Settings, u: Entry, value: string)
    requires u.value == value + "\n" && u.key in s.publics && u.key !in s.secrets && s.publics[u.key](value)
    ensures AllUpdates(s, [u], []) == Some([u])
  {
    assert [u][..0] == [] && u.value[..|value|] == value;
    assert PublicUpdates(s, []) == Some([]);
  }

  /** Such an input: one setting whose pattern is `^(console|telegram)$`, and the value "console\n". */
  lemma ConsoleWithFeed() returns (s: Settings, base: string)
    ensures var u := Entry("ALERT_TRANSPORT", "console" + "\n");
            && Proper(s) && Admitted(s, base, {}, [u], []) && UpdatesOf(s, [u], []) == [u] && !NoTrailingFeeds([u])
            && var after := ValuesOf(TextEntries(MergedText([u], base)));
               "ALERT_TRANSPORT" in after && after["ALERT_TRANSPORT"] == "console"
  {
    var shape := v => v == "console" || v == "telegram";
    s := Settings(map["ALERT_TRANSPORT" := shape], map[]);
    ConsoleIsProper(s, shape);
    base := PlainBase();
    assert s.publics["ALERT_TRANSPORT"]("console");
    hide TextEntries, MergedText, ValuesOf, DistinctKeys, Proper, AllUpdates, Parses, Keys;
    FinalLineFeedIsLost(s, base, "ALERT_TRANSPORT", "console");
    assert Entry("ALERT_TRANSPORT", "console" + "\n") in [Entry("ALERT_TRANSPORT", "console" + "\n")];
  }

  lemma PlainBase() returns (base: string)
    ensures Parses(base) && "DATABASE_URL" in Keys(TextEntries(base))
  {
    base := Assignment("DATABASE_URL", "x") + "\n";
    assert ProperName("DATABASE_URL");
    AssignmentReadsBack("DATABASE_URL", "x", "\n");
    hide TextEntries;
    assert TextEntries(base)[0] in TextEntries(base);
    assert base[0] == 'D';
  }

  lemma ConsoleIsProper(s: Settings, shape: string -> bool)
    requires s == Settings(map["ALERT_TRANSPORT" := shape], map[])
    requires forall v :: shape(v) <==> v == "console" || v == "telegram"
    ensures Proper(s)
  {
  }

  lemma SameOverride(m: Values, a: Values, b: Values)
    requires a.Keys == b.Keys
    ensures m + a == m + b <==> a == b
  {
    if m + a == m + b {
      forall k | k in a ensures a[k] == b[k] {
        assert (m + a)[k] == a[k] && (m + b)[k] == b[k];
      }
    }
  }

  lemma PlainsAgreeWhen(updates: seq<Entry>)
    requires ProperUpdates(updates)
    ensures ValuesOf(Plains(updates)) == ValuesOf(updates) <==> NoTrailingFeeds(updates)
  {
    forall e | e in updates ensures Plain(e.value) == e.value <==> e.value == [] || e.value[|e.value| - 1] != '\n' {
      TrailingFeed(e.value);
    }
    hide Plain, ProperUpdate, ValuesOf, DistinctKeys;
    PlainKeys(updates);
    if NoTrailingFeeds(updates) {
      forall i | 0 <= i < |updates| ensures Plains(updates)[i] == updates[i] {
        assert updates[i] in updates;
      }
      assert Plains(updates) == updates;
    }
    if ValuesOf(Plains(updates)) == ValuesOf(updates) {
      forall e | e in updates ensures e.value == [] || e.value[|e.value| - 1] != '\n' {
        var i :| 0 <= i < |updates| && updates[i] == e;
        assert Plains(updates)[i] in Plains(updates);
        ValueAt(updates, e);
        ValueAt(Plains(updates), Plains(updates)[i]);
      }
    }
  }

  /** No key is lost, nothing outside the updated keys changes, and `verify` accepts the pair with a
      set of allowed keys exactly when the set covers every key whose value is not what it was. */
  lemma VerifyAcceptsMerge(s: Settings, base: string, required: set<string>, specs: seq<Entry>, files: seq<Entry>, allowed: set<string>)
    requires Proper(s) && Admitted(s, base, required, specs, files)
    ensures var updates := UpdatesOf(s, specs, files);
            var before, after := ValuesOf(TextEntries(base)), ValuesOf(TextEntries(MergedText(updates, base)));
            && Unchanged(before, after, Keys(updates))
            && (Unchanged(before, after, allowed) <==>
                forall e | e in updates && !(e.key in before && before[e.key] == Plain(e.value)) :: e.key in allowed)
  {
    var updates := UpdatesOf(s, specs, files);
    UpdatesAreProper(s, specs, files);
    MergedFile(updates, base);
    hide AllUpdates, TextEntries, MergedText, ProperUpdate, Plain, ValuesOf, DistinctKeys;
    var before, changed := ValuesOf(TextEntries(base)), ValuesOf(Plains(updates));
    PlainKeys(updates);
    ValuesKeys(Plains(updates));
    forall e | e in updates ensures e.key in changed && changed[e.key] == Plain(e.value) {
      var i :| 0 <= i < |updates| && updates[i] == e;
      assert Plains(updates)[i] in Plains(updates);
      ValueAt(Plains(updates), Plains(updates)[i]);
    }
    OverrideChanges(before, changed, allowed);
    OverrideChanges(before, changed, Keys(updates));
    CoverByEntries(updates, before, changed, allowed);
  }

  /** An override is acceptable exactly when every key it really changes is allowed. */
  lemma OverrideChanges(before: Values, changed: Values, allowed: set<string>)
    ensures Unchanged(before, before + changed, allowed) <==>
      forall k | k in changed && !(k in before && before[k] == changed[k]) :: k in allowed
  {
    var after := before + changed;
    if Unchanged(before, after, allowed) {
      forall k | k in changed && !(k in before && before[k] == changed[k]) ensures k in allowed {
        assert k in after && after[k] == changed[k];
      }
    }
  }

  lemma CoverByEntries(updates: seq<Entry>, before: Values, changed: Values, allowed: set<string>)
    requires changed.Keys == Keys(updates)
    requires forall e | e in updates :: e.key in changed && changed[e.key] == Plain(e.value)
    ensures (forall k | k in changed && !(k in before && before[k] == changed[k]) :: k in allowed)
       <==> forall e | e in updates && !(e.key in before && before[e.key] == Plain(e.value)) :: e.key in allowed
  {
    hide Plain;
    forall k | k in changed ensures exists e :: e in updates && e.key == k {
      assert k in Keys(updates);
    }
  }

  // ---- the other lines ----

  predicate SetsKey(updates: seq<Entry>, line: string) {
    KeyLine(line) && (KeyLineHasEquals(line); Find(updates, line[..IndexOf(line, '=')]).Some?)
  }

  function NewValue(updates: seq<Entry>, line: string): Entry
    requires SetsKey(updates, line)
  {
    KeyLineHasEquals(line);
    var key := line[..IndexOf(line, '=')];
    Entry(key, Find(updates, key).value)
  }

  function EndOf(line: string): string {
    if EndsWith(line, "\r\n") then "\r\n" else "\n"
  }

  /** The lines an assignment makes: one, and a blank one if its value ends in a line feed. */
  function AssignmentLines(e: Entry, end: string): seq<string> {
    if Plain(e.value) == e.value then [Assignment(e.key, e.value) + end] else [Assignment(e.key, Plain(e.value)) + "\n", end]
  }

  /** What one line of the base becomes. */
  function OwnLines(updates: seq<Entry>, line: string): seq<string> {
    if SetsKey(updates, line) then AssignmentLines(NewValue(updates, line), EndOf(line)) else [line]
  }

  /** What the last line becomes: a line feed ends it if it had no end, completes a carriage return,
      and is a blank line of its own after any other break. */
  function LastLines(updates: seq<Entry>, line: string): seq<string> {
    if SetsKey(updates, line) || line == [] || line[|line| - 1] == '\n' then OwnLines(updates, line)
    else if Break(line[|line| - 1]) && line[|line| - 1] != '\r' then [line, "\n"]
    else [line + "\n"]
  }

  function MergedLines(updates: seq<Entry>, lines: seq<string>): seq<string> {
    if lines == [] then []
    else if |lines| == 1 then LastLines(updates, lines[0])
    else OwnLines(updates, lines[0]) + MergedLines(updates, lines[1..])
  }

  function AddedLines(updates: seq<Entry>, present: set<string>): seq<string> {
    if updates == [] then []
    else (if updates[0].key in present then [] else AssignmentLines(updates[0], "\n")) + AddedLines(updates[1..], present)
  }

  lemma AssignmentSplits(e: Entry, end: string)
    requires ProperUpdate(e) && Ending(end)
    ensures SplitLines(Assignment(e.key, e.value) + end) == AssignmentLines(e, end)
  {
    hide SplitLines;
    var p := Plain(e.value);
    AssignmentBody(e.key, p);
    if p == e.value {
      EndedLine(Assignment(e.key, p), end);
    } else {
      var first := Assignment(e.key, p) + "\n";
      assert Assignment(e.key, e.value) + end == first + end;
      EndedLine(Assignment(e.key, p), "\n");
      EndedLine([], end);
      assert [] + end == end;
      SplitConcat(first, end);
    }
  }

  lemma ReplacedIsAssignment(updates: seq<Entry>, line: string)
    ensures ReplaceLine(updates, line) == if SetsKey(updates, line)
              then Assignment(NewValue(updates, line).key, NewValue(updates, line).value) + EndOf(line) else line
    ensures SetsKey(updates, line) ==> NewValue(updates, line) in updates
  {
    hide KeyLine, IndexOf, Find;
    if KeyLine(line) {
      KeyLineHasEquals(line);
      FindFinds(updates, line[..IndexOf(line, '=')]);
    }
  }

  lemma ReplacedSplitsTo(updates: seq<Entry>, line: string)
    requires ProperUpdates(updates) && IsLine(line)
    ensures SplitLines(ReplaceLine(updates, line)) == OwnLines(updates, line)
  {
    ReplacedIsAssignment(updates, line);
    LineSplitsAlone(line);
    hide SplitLines, LineLength, ReplaceLine, ProperUpdate, SetsKey, AssignmentLines, NewValue;
    if SetsKey(updates, line) {
      var e := NewValue(updates, line);
      assert ProperUpdate(e);
      AssignmentSplits(e, EndOf(line));
    }
  }

  lemma LastSplitsTo(updates: seq<Entry>, line: string)
    requires ProperUpdates(updates) && IsLine(line)
    ensures SplitLines(TerminateText(ReplaceLine(updates, line))) == LastLines(updates, line)
  {
    hide SplitLines, LineLength, ReplaceLine, ProperUpdates, SetsKey, NewValue, Break;
    ReplacedIsAssignment(updates, line);
    ReplacedSplitsTo(updates, line);
    if SetsKey(updates, line) || line[|line| - 1] == '\n' {
      hide OwnLines;
      EndsInFeed(updates, line);
    } else if line[|line| - 1] == '\r' {
      AfterReturn(line);
    } else if Break(line[|line| - 1]) {
      AfterBreak(line);
    } else {
      AfterText(line);
    }
  }

  lemma EndsInFeed(updates: seq<Entry>, line: string)
    requires SetsKey(updates, line) || (line != [] && line[|line| - 1] == '\n')
    ensures TerminateText(ReplaceLine(updates, line)) == ReplaceLine(updates, line)
  {
    hide ReplaceLine, SetsKey, NewValue;
    ReplacedIsAssignment(updates, line);
  }

  lemma AfterReturn(line: string)
    requires IsLine(line) && line[|line| - 1] == '\r'
    ensures SplitLines(line + "\n") == [line + "\n"]
  {
    LineShape(line);
    hide SplitLines, LineLength, Break, NoBreaks;
    EndedLine(line[..|line| - 1], "\r\n");
    assert line + "\n" == line[..|line| - 1] + "\r\n";
  }

  lemma AfterBreak(line: string)
    requires IsLine(line) && Break(line[|line| - 1]) && line[|line| - 1] != '\r'
    ensures SplitLines(line + "\n") == [line, "\n"]
  {
    LineSplitsAlone(line);
    NothingBreaks();
    EndedLine([], "\n");
    hide SplitLines, LineLength, Break, NoBreaks;
    assert [] + "\n" == "\n";
    SplitConcat(line, "\n");
  }

  lemma AfterText(line: string)
    requires IsLine(line) && !Break(line[|line| - 1])
    ensures SplitLines(line + "\n") == [line + "\n"]
  {
    LineShape(line);
    hide SplitLines, LineLength, Break, NoBreaks;
    EndedLine(line, "\n");
  }

  lemma NothingBreaks()
    ensures NoBreaks([])
  {
  }

  lemma LinesCons(updates: seq<Entry>, t: string)
    requires t != [] && LineLength(t) < |t|
    ensures var n := LineLength(t);
            MergedLines(updates, SplitLines(t)) == OwnLines(updates, t[..n]) + MergedLines(updates, SplitLines(t[n..]))
  {
    var n := LineLength(t);
    SplitStep(t, n);
    SplitStep(t[n..], LineLength(t[n..]));
    hide SplitLines, OwnLines, LastLines, LineLength;
    assert ([t[..n]] + SplitLines(t[n..]))[1..] == SplitLines(t[n..]);
  }

  lemma {:induction false} ReplacedSplits(updates: seq<Entry>, t: string)
    requires ProperUpdates(updates)
    ensures SplitLines(TerminateText(ReplacedText(updates, t))) == MergedLines(updates, SplitLines(t))
    decreases |t|
  {
    hide ProperUpdates, ReplaceLine, OwnLines, LastLines;
    if t == [] {
      NoLines();
      assert ReplacedText(updates, t) == [];
    } else {
      var n := LineLength(t);
      var first, rest := t[..n], t[n..];
      var line := ReplaceLine(updates, first);
      ReplacedStep(updates, t);
      FirstLineAlone(t);
      ReplacedSplitsTo(updates, first);
      if rest == [] {
        LastSplitsTo(updates, first);
        NoLines();
        SplitStep(t, n);
        assert ReplacedText(updates, rest) == [];
        hide ReplacedText, SplitLines, LineLength, TerminateText;
        assert line + [] == line && [first] + [] == [first];
      } else {
        ReplacedSplits(updates, rest);
        MiddleLineEnds(updates, t);
        LinesCons(updates, t);
        hide ReplacedText, SplitLines, LineLength, TerminateText, Closed, MergedLines;
        var more := ReplacedText(updates, rest);
        TerminateConcat(line, more);
        SplitConcat(line, TerminateText(more));
      }
    }
  }

  lemma {:induction false} AdditionsSplit(updates: seq<Entry>, present: set<string>)
    requires forall e | e in updates :: ProperUpdate(e)
    ensures SplitLines(Join(Additions(updates, present))) == AddedLines(updates, present)
  {
    hide ProperUpdate, SplitLines, AssignmentLines;
    if updates == [] {
      NoLines();
    } else {
      var e, rest := updates[0], Additions(updates[1..], present);
      assert updates == [e] + updates[1..];
      AdditionsSplit(updates[1..], present);
      if e.key in present {
        assert Additions(updates, present) == rest && AddedLines(updates, present) == AddedLines(updates[1..], present);
      } else {
        var line := Assignment(e.key, e.value) + "\n";
        assert Additions(updates, present) == [line] + rest && ([line] + rest)[1..] == rest;
        AssignmentSplits(e, "\n");
        SplitConcat(line, Join(rest));
      }
    }
  }

  /** The merged file, line by line, for every base and every admitted update: each line of the base
      in its place, the updated ones rewritten, then the lines of the new keys. */
  lemma MergedLineByLine(updates: seq<Entry>, base: string)
    requires ProperUpdates(updates)
    ensures SplitLines(MergedText(updates, base))
         == MergedLines(updates, SplitLines(base)) + AddedLines(updates, Keys(TextEntries(base)))
  {
    var more := Additions(updates, Keys(TextEntries(base)));
    MergedShape(updates, base);
    ReplacedSplits(updates, base);
    AdditionsSplit(updates, Keys(TextEntries(base)));
    TerminatedEnds(ReplacedText(updates, base), Join(more));
    hide ReplacedText, MergedText, TextEntries, SplitLines, Join, Additions, TerminateText, Closed, MergedLines, AddedLines, ProperUpdates;
    SplitConcat(TerminateText(ReplacedText(updates, base)), Join(more));
  }

  /** Where a line of the base stands in the merged file. */
  function Offset(updates: seq<Entry>, lines: seq<string>, i: nat): nat
    requires i <= |lines|
  {
    if i == 0 then 0 else |OwnLines(updates, lines[0])| + Offset(updates, lines[1..], i - 1)
  }

  lemma {:induction false} OffsetsIncrease(updates: seq<Entry>, lines: seq<string>, i: nat)
    requires i < |lines|
    ensures Offset(updates, lines, i) < Offset(updates, lines, i + 1)
    ensures (forall j | 0 <= j < i :: |OwnLines(updates, lines[j])| == 1) ==> Offset(updates, lines, i) == i
  {
    hide OwnLines;
    OwnLinesSome(updates, lines[0]);
    if i > 0 {
      OffsetsIncrease(updates, lines[1..], i - 1);
      assert forall j | 0 <= j < i - 1 :: lines[1..][j] == lines[j + 1];
    }
  }

  lemma OwnLinesSome(updates: seq<Entry>, line: string)
    ensures |OwnLines(updates, line)| >= 1
  {
  }

  /** `own` stands in `all`, from `at` on. */
  predicate StandsAt(all: seq<string>, at: nat, own: seq<string>) {
    at + |own| <= |all| && all[at..at + |own|] == own
  }

  lemma StandsLater(first: seq<string>, all: seq<string>, at: nat, own: seq<string>)
    requires StandsAt(all, at, own)
    ensures StandsAt(first + all, |first| + at, own)
  {
  }

  lemma StandsFirst(own: seq<string>, rest: seq<string>)
    ensures StandsAt(own + rest, 0, own)
  {
  }

  lemma {:induction false} MergedAt(updates: seq<Entry>, lines: seq<string>, i: nat)
    requires i < |lines| && !SetsKey(updates, lines[i])
    ensures StandsAt(MergedLines(updates, lines), Offset(updates, lines, i), if i < |lines| - 1 then [lines[i]] else LastLines(updates, lines[i]))
  {
    hide SetsKey, AssignmentLines, NewValue, StandsAt, LastLines;
    if i == 0 {
      if |lines| > 1 {
        StandsFirst(OwnLines(updates, lines[0]), MergedLines(updates, lines[1..]));
      } else {
        var own := LastLines(updates, lines[0]);
        StandsFirst(own, []);
        assert own + [] == own;
      }
    } else {
      hide OwnLines;
      MergedAt(updates, lines[1..], i - 1);
      var own := if i < |lines| - 1 then [lines[i]] else LastLines(updates, lines[i]);
      StandsLater(OwnLines(updates, lines[0]), MergedLines(updates, lines[1..]), Offset(updates, lines[1..], i - 1), own);
    }
  }

  /** Every line that sets no updated key is in the merged file as it was, in its order. Only the
      last one can gain a line feed: as its end, or as a blank line after an unusual break. */
  lemma OtherLinesSurvive(updates: seq<Entry>, base: string, i: nat)
    requires ProperUpdates(updates)
    requires i < |SplitLines(base)| && !SetsKey(updates, SplitLines(base)[i])
    ensures var lines, merged := SplitLines(base), SplitLines(MergedText(updates, base));
            && StandsAt(merged, Offset(updates, lines, i), if i < |lines| - 1 then [lines[i]] else LastLines(updates, lines[i]))
            && Offset(updates, lines, i) < Offset(updates, lines, i + 1)
  {
    var lines := SplitLines(base);
    MergedLineByLine(updates, base);
    MergedAt(updates, lines, i);
    OffsetsIncrease(updates, lines, i);
    hide *;
    InFirst(MergedLines(updates, lines), AddedLines(updates, Keys(TextEntries(base))), Offset(updates, lines, i),
            if i < |lines| - 1 then [lines[i]] else LastLines(updates, lines[i]));
  }

  lemma InFirst(a: seq<string>, b: seq<string>, at: nat, own: seq<string>)
    requires StandsAt(a, at, own)
    ensures StandsAt(a + b, at, own)
  {
  }
}
