/** What merging does to the entries of a file, and what verifying then accepts. */
module EnvMergeLaws {
  import opened Options
  import opened EnvFile
  import opened EnvMerge

  // ---- the updates are proper ----

  /** The value a reader sees: a final line feed only ends the line. */
  function Plain(v: string): string {
    if v != [] && v[|v| - 1] == '\n' then v[..|v| - 1] else v
  }

  predicate ProperUpdate(e: Entry) {
    ProperName(e.key) && NoBreaks(Plain(e.value))
  }

  ghost predicate ProperUpdates(updates: seq<Entry>) {
    DistinctKeys(updates) && forall e | e in updates :: ProperUpdate(e)
  }

  lemma {:induction false} AssignKeeps(dict: seq<Entry>, e: Entry)
    requires ProperUpdates(dict) && ProperUpdate(e)
    ensures ProperUpdates(Assign(dict, e)) && Keys(Assign(dict, e)) == Keys(dict) + {e.key}
  {
    hide ProperUpdate, DistinctKeys;
    if dict != [] {
      assert dict == [dict[0]] + dict[1..];
      DistinctTail(dict);
      if dict[0].key == e.key {
        DistinctCons(e, dict[1..]);
      } else {
        AssignKeeps(dict[1..], e);
        DistinctCons(dict[0], Assign(dict[1..], e));
        assert Keys(dict) == {dict[0].key} + Keys(dict[1..]);
      }
    } else {
      assert Assign(dict, e) == [e];
      DistinctCons(e, []);
      assert [e] + [] == [e];
    }
  }

  lemma DistinctTail(es: seq<Entry>)
    requires es != []
    ensures DistinctKeys(es) <==> DistinctKeys(es[1..]) && es[0].key !in Keys(es[1..])
  {
    if DistinctKeys(es) {
      forall i, j | 0 <= i < j < |es[1..]| ensures es[1..][i].key != es[1..][j].key {
        assert es[i + 1].key != es[j + 1].key;
      }
      forall x | x in es[1..] ensures x.key != es[0].key {
        var i :| 0 <= i < |es[1..]| && es[1..][i] == x;
        assert es[i + 1] == x;
      }
    }
    if DistinctKeys(es[1..]) && es[0].key !in Keys(es[1..]) {
      forall i, j | 0 <= i < j < |es| ensures es[i].key != es[j].key {
        assert es[j] == es[1..][j - 1];
        if i > 0 { assert es[i] == es[1..][i - 1]; } else { assert es[j] in es[1..]; }
      }
    }
  }

  lemma DistinctCons(e: Entry, es: seq<Entry>)
    ensures DistinctKeys([e] + es) <==> DistinctKeys(es) && e.key !in Keys(es)
    ensures Keys([e] + es) == {e.key} + Keys(es)
  {
    assert ([e] + es)[1..] == es;
    DistinctTail([e] + es);
  }

  lemma MatchedIsPlain(shape: string -> bool, v: string)
    requires Matches(shape, v) && forall u | shape(u) :: NoBreaks(u)
    ensures NoBreaks(Plain(v))
  {
  }

  lemma {:induction false} PublicAreProper(s: Settings, specs: seq<Entry>)
    requires Proper(s) && PublicUpdates(s, specs).Some?
    ensures ProperUpdates(PublicUpdates(s, specs).value)
  {
    hide Matches, NoBreaks, ProperName, Plain;
    if specs != [] {
      var e := specs[|specs| - 1];
      PublicAreProper(s, specs[..|specs| - 1]);
      MatchedIsPlain(s.publics[e.key], e.value);
      AssignKeeps(PublicUpdates(s, specs[..|specs| - 1]).value, e);
    }
  }

  lemma {:induction false} UpdatesAreProper(s: Settings, specs: seq<Entry>, files: seq<Entry>)
    requires Proper(s) && AllUpdates(s, specs, files).Some?
    ensures ProperUpdates(AllUpdates(s, specs, files).value)
  {
    hide Matches, NoBreaks, ProperName, Plain, PublicUpdates, SecretOf;
    if files == [] {
      PublicAreProper(s, specs);
    } else {
      var e := files[|files| - 1];
      UpdatesAreProper(s, specs, files[..|files| - 1]);
      MatchedIsPlain(s.secrets[e.key], SecretOf(e.value));
      AssignKeeps(AllUpdates(s, specs, files[..|files| - 1]).value, Entry(e.key, SecretOf(e.value)));
    }
  }

  // ---- what one assignment line says ----

  lemma {:induction false} StripRightPrefix(s: string, c: char)
    requires c in s && !Blank(c)
    ensures StripRight(s) != [] && |StripRight(s)| <= |s| && StripRight(s)[0] == s[0]
  {
    if Blank(s[|s| - 1]) {
      assert s == s[..|s| - 1] + [s[|s| - 1]];
      StripRightPrefix(s[..|s| - 1], c);
    }
  }

  lemma {:induction false} IndexAfter(key: string, rest: string, c: char)
    requires c !in key
    ensures c in key + [c] + rest && IndexOf(key + [c] + rest, c) == |key|
  {
    var s := key + [c] + rest;
    assert s[|key|] == c;
    if key != [] {
      assert s[0] == key[0] && key[0] in key && s[1..] == key[1..] + [c] + rest;
      IndexAfter(key[1..], rest, c);
    }
  }

  predicate Ending(end: string) {
    end == "\n" || end == "\r\n"
  }

  lemma UnendedEnding(s: string, end: string)
    requires Ending(end) && s != [] && s[|s| - 1] != '\r' && s[|s| - 1] != '\n'
    ensures Unended(s + end) == s
  {
    UnendedAppend(s, '\n');
    UnendedAppend(s, '\r');
    UnendedAppend(s + ['\r'], '\n');
    assert Unended(s) == s;
    assert s + "\r\n" == s + ['\r'] + ['\n'] && s + "\n" == s + ['\n'];
  }

  lemma AssignmentIsKeyLine(key: string, value: string, end: string)
    requires ProperName(key)
    ensures KeyLine(Assignment(key, value) + end)
  {
    var s := Assignment(key, value) + end;
    assert s[0] == key[0] && s[|key|] == '=' && key[0] in key;
    assert StripLeft(s) == s;
    StripRightPrefix(s, '=');
    StripRightKeeps(s, '=');
  }

  lemma AssignmentEntry(key: string, value: string, end: string)
    requires ProperName(key) && NoBreaks(value) && Ending(end)
    ensures LineEntries(Assignment(key, value) + end) == [Entry(key, value)]
  {
    var a := Assignment(key, value);
    AssignmentIsKeyLine(key, value, end);
    EntryOfLine(a + end);
    assert a[|a| - 1] != '\n' && a[|a| - 1] != '\r' by {
      if value != [] { assert a[|a| - 1] == value[|value| - 1] && value[|value| - 1] in value; }
    }
    UnendedEnding(a, end);
    IndexAfter(key, value, '=');
    hide KeyLine, LineEntries, IndexOf, Unended;
    assert a[..|key|] == key && a[|key| + 1..] == value;
  }

  lemma {:induction false} CrLfLine(body: string)
    requires NoBreaks(body)
    ensures LineLength(body + "\r\n") == |body| + 2
  {
    if body != [] {
      assert (body + "\r\n")[1..] == body[1..] + "\r\n";
      CrLfLine(body[1..]);
    }
  }

  lemma EndedLine(body: string, end: string)
    requires NoBreaks(body) && Ending(end)
    ensures SplitLines(body + end) == [body + end]
  {
    hide LineLength, SplitLines;
    var t := body + end;
    if end == "\n" {
      assert t == body + ['\n'];
      OneLine(body, '\n');
    } else {
      CrLfLine(body);
      SplitStep(t, |t|);
      assert t[..|t|] == t && t[|t|..] == [];
      NoLines();
    }
  }

  lemma NoLines()
    ensures SplitLines([]) == [] && Entries([]) == []
  {
  }

  lemma EndingSaysNothing(end: string)
    requires Ending(end)
    ensures TextEntries(end) == []
  {
    EndedLine([], end);
    assert [] + end == end;
    EntriesOfOne(end);
    StripLeftAppend([], '\n');
    StripLeftAppend([], '\r');
    StripLeftAppend(['\r'], '\n');
    assert [] + ['\n'] == "\n" && [] + ['\r'] == "\r" && ['\r'] + ['\n'] == "\r\n";
    assert StripLeft([]) == [] && StripLeft(end) == [];
    hide SplitLines, Entries, StripLeft;
  }

  lemma AssignmentBody(key: string, value: string)
    requires ProperName(key) && NoBreaks(value)
    ensures NoBreaks(Assignment(key, value))
  {
  }

  /** A written assignment reads back as the plain value, in its own line or lines. */
  lemma AssignmentReadsBack(key: string, value: string, end: string)
    requires ProperName(key) && NoBreaks(Plain(value)) && Ending(end)
    ensures TextEntries(Assignment(key, value) + end) == [Entry(key, Plain(value))]
  {
    hide SplitLines, Entries, LineEntries;
    var p := Plain(value);
    AssignmentBody(key, p);
    if p == value {
      EndedLine(Assignment(key, p), end);
      EntriesOfOne(Assignment(key, p) + end);
      AssignmentEntry(key, p, end);
    } else {
      var first := Assignment(key, p) + "\n";
      assert Assignment(key, value) + end == first + end;
      EndedLine(Assignment(key, p), "\n");
      EntriesOfOne(first);
      AssignmentEntry(key, p, "\n");
      TextEntriesConcat(first, end);
      EndingSaysNothing(end);
    }
  }

  // ---- what one kept line says ----

  lemma {:induction false} FirstLineAlone(t: string)
    requires t != []
    ensures LineLength(t[..LineLength(t)]) == LineLength(t)
  {
    var n := LineLength(t);
    if !Break(t[0]) && |t| > 1 {
      FirstLineAlone(t[1..]);
      assert t[..n][1..] == t[1..][..n - 1];
    }
  }

  /** `line` is one line: what splitting leaves whole. */
  ghost predicate IsLine(line: string) {
    line != [] && LineLength(line) == |line|
  }

  lemma LineSplitsAlone(line: string)
    requires IsLine(line)
    ensures SplitLines(line) == [line]
  {
    hide LineLength;
    SplitStep(line, |line|);
    assert line[..|line|] == line && line[|line|..] == [];
    NoLines();
    hide SplitLines;
  }

  lemma LineSays(line: string)
    requires IsLine(line)
    ensures TextEntries(line) == LineEntries(line)
  {
    LineSplitsAlone(line);
    EntriesOfOne(line);
    hide SplitLines, Entries, LineEntries;
  }

  /** A line either ends at a break, with none before it, or has none. */
  lemma {:induction false} LineShape(line: string)
    requires IsLine(line)
    ensures var last := line[|line| - 1];
            if !Break(last) then NoBreaks(line)
            else if last == '\n' && |line| > 1 && line[|line| - 2] == '\r' then NoBreaks(line[..|line| - 2])
            else NoBreaks(line[..|line| - 1])
  {
    if !Break(line[0]) && |line| > 1 {
      var rest := line[1..];
      LineShape(rest);
      assert line == [line[0]] + rest;
      if Break(rest[|rest| - 1]) {
        assert line[..|line| - 1] == [line[0]] + rest[..|rest| - 1];
        if rest[|rest| - 1] == '\n' && |rest| > 1 && rest[|rest| - 2] == '\r' {
          assert line[..|line| - 2] == [line[0]] + rest[..|rest| - 2];
        }
      }
    }
  }

  /** A line feed put after an unterminated or otherwise ended line leaves what it says. */
  lemma TerminatedSays(line: string)
    requires IsLine(line) && line[|line| - 1] != '\n'
    ensures TextEntries(line + "\n") == LineEntries(line)
  {
    hide SplitLines, Entries, LineEntries, LineLength;
    LineShape(line);
    var last := line[|line| - 1];
    if !Break(last) {
      EndedLine(line, "\n");
      EntriesOfOne(line + "\n");
      EndingChangesNothing(line);
      assert line + "\n" == line + ['\n'];
    } else if last == '\r' {
      var body := line[..|line| - 1];
      assert line + "\n" == body + "\r\n" && line + "\n" == line + ['\n'];
      EndedLine(body, "\r\n");
      EntriesOfOne(line + "\n");
      EndingChangesNothing(line);
    } else {
      TextEntriesConcat(line, "\n");
      LineSays(line);
      EndingSaysNothing("\n");
    }
  }

  // ---- what the merged text says ----

  function Overrides(updates: seq<Entry>, e: Entry): Entry {
    if Find(updates, e.key).Some? then Entry(e.key, Plain(Find(updates, e.key).value)) else e
  }

  function Overridden(updates: seq<Entry>, es: seq<Entry>): (r: seq<Entry>)
    ensures |r| == |es| && forall i | 0 <= i < |r| :: r[i] == Overrides(updates, es[i])
  {
    if es == [] then [] else [Overrides(updates, es[0])] + Overridden(updates, es[1..])
  }

  lemma OverriddenConcat(updates: seq<Entry>, a: seq<Entry>, b: seq<Entry>)
    ensures Overridden(updates, a + b) == Overridden(updates, a) + Overridden(updates, b)
  {
    hide Overrides;
  }

  function Fresh(updates: seq<Entry>, present: set<string>): seq<Entry> {
    if updates == [] then []
    else (if updates[0].key in present then [] else [Entry(updates[0].key, Plain(updates[0].value))]) + Fresh(updates[1..], present)
  }

  lemma {:induction false} FindFinds(updates: seq<Entry>, key: string)
    ensures Find(updates, key).Some? ==> Entry(key, Find(updates, key).value) in updates
    ensures Find(updates, key).None? ==> key !in Keys(updates)
  {
    if updates != [] {
      FindFinds(updates[1..], key);
      assert updates == [updates[0]] + updates[1..];
    }
  }

  lemma {:induction false} IndexInPrefix(s: string, m: nat, c: char)
    requires m <= |s| && c in s[..m]
    ensures c in s && IndexOf(s, c) == IndexOf(s[..m], c)
  {
    assert s == s[..m] + s[m..];
    if s[0] != c {
      assert s[..m] == [s[0]] + s[1..][..m - 1];
      IndexInPrefix(s[1..], m - 1, c);
      assert s[..m][1..] == s[1..][..m - 1];
    }
  }

  lemma KeyOfLine(line: string)
    requires KeyLine(line)
    ensures '=' in line && '=' in Unended(line) && line[..IndexOf(line, '=')] == EntryOf(line).key
  {
    KeyLineHasEquals(line);
    UnendedKeeps(line, '=');
    IndexInPrefix(line, |Unended(line)|, '=');
    hide KeyLine, Unended, IndexOf;
  }

  lemma ReplacedLineSays(updates: seq<Entry>, line: string)
    requires ProperUpdates(updates) && IsLine(line)
    ensures TextEntries(ReplaceLine(updates, line)) == Overridden(updates, LineEntries(line))
    ensures ReplaceLine(updates, line) != [] && (ReplaceLine(updates, line) == line || ReplaceLine(updates, line)[|ReplaceLine(updates, line)| - 1] == '\n')
    ensures ReplaceLine(updates, line) != [] && (ReplaceLine(updates, line)[0] == line[0] || ReplaceLine(updates, line)[0] != '\n')
  {
    hide SplitLines, Entries, Unended, IndexOf, Find, Plain, LineLength;
    LineSays(line);
    EntryOfLine(line);
    if KeyLine(line) {
      KeyOfLine(line);
      var key := EntryOf(line).key;
      FindFinds(updates, key);
      hide KeyLine, EntryOf;
      if Find(updates, key).Some? {
        var v := Find(updates, key).value;
        assert ProperUpdate(Entry(key, v));
        AssignmentReadsBack(key, v, if EndsWith(line, "\r\n") then "\r\n" else "\n");
        assert Assignment(key, v)[0] == key[0] && key[0] in key;
      }
    }
  }

  function TerminateText(t: string): string {
    if t != [] && t[|t| - 1] != '\n' then t + "\n" else t
  }

  function ReplacedText(updates: seq<Entry>, t: string): string {
    Join(Replaced(updates, SplitLines(t)))
  }

  lemma {:induction false} ReplacedStep(updates: seq<Entry>, t: string)
    requires t != []
    ensures var n := LineLength(t);
            ReplacedText(updates, t) == ReplaceLine(updates, t[..n]) + ReplacedText(updates, t[n..])
  {
    hide ReplaceLine, LineLength;
    var n := LineLength(t);
    SplitStep(t, n);
    hide SplitLines;
    assert ([t[..n]] + SplitLines(t[n..]))[1..] == SplitLines(t[n..]);
    assert Replaced(updates, [t[..n]] + SplitLines(t[n..])) == [ReplaceLine(updates, t[..n])] + Replaced(updates, SplitLines(t[n..]));
    assert ([ReplaceLine(updates, t[..n])] + Replaced(updates, SplitLines(t[n..])))[1..] == Replaced(updates, SplitLines(t[n..]));
  }

  lemma {:induction false} LineEndsAtBreak(t: string)
    requires t != [] && LineLength(t) < |t|
    ensures var n := LineLength(t); Break(t[n - 1]) && !(t[n - 1] == '\r' && t[n] == '\n')
  {
    if !Break(t[0]) {
      LineEndsAtBreak(t[1..]);
    }
  }

  lemma ReplacedStarts(updates: seq<Entry>, t: string)
    requires ProperUpdates(updates) && t != []
    ensures ReplacedText(updates, t) != []
    ensures ReplacedText(updates, t)[0] == t[0] || ReplacedText(updates, t)[0] != '\n'
  {
    ReplacedStep(updates, t);
    FirstLineAlone(t);
    ReplacedLineSays(updates, t[..LineLength(t)]);
    hide LineLength, ReplaceLine, ReplacedText, ProperUpdates;
  }

  lemma {:induction false} ReplacedSays(updates: seq<Entry>, t: string)
    requires ProperUpdates(updates)
    ensures TextEntries(TerminateText(ReplacedText(updates, t))) == Overridden(updates, TextEntries(t))
    decreases |t|
  {
    hide ProperUpdates, ReplaceLine, LineEntries;
    if t == [] {
      NoLines();
      assert ReplacedText(updates, t) == [];
    } else {
      var n := LineLength(t);
      var first, rest := t[..n], t[n..];
      ReplacedStep(updates, t);
      FirstLineAlone(t);
      ReplacedLineSays(updates, first);
      SplitStep(t, n);
      EntriesStep(SplitLines(t));
      assert SplitLines(t)[1..] == SplitLines(rest);
      if rest == [] {
        LastLineSays(updates, first);
        NoLines();
        assert ReplacedText(updates, rest) == [];
        hide ReplacedText, SplitLines, Entries, LineLength;
        assert ReplaceLine(updates, first) + [] == ReplaceLine(updates, first);
        assert LineEntries(first) + [] == LineEntries(first);
      } else {
        ReplacedSays(updates, rest);
        MiddleLineSays(updates, t);
        hide ReplacedText, SplitLines, Entries, LineLength;
        OverriddenConcat(updates, LineEntries(first), TextEntries(rest));
      }
    }
  }

  lemma LastLineSays(updates: seq<Entry>, line: string)
    requires ProperUpdates(updates) && IsLine(line)
    ensures TextEntries(TerminateText(ReplaceLine(updates, line))) == Overridden(updates, LineEntries(line))
  {
    ReplacedLineSays(updates, line);
    if line[|line| - 1] != '\n' {
      TerminatedSays(line);
    }
    LineSays(line);
    hide ReplaceLine, LineEntries, TextEntries, LineLength, ProperUpdates, Overridden;
  }

  lemma TerminateConcat(first: string, more: string)
    requires more != []
    ensures TerminateText(first + more) == first + TerminateText(more)
    ensures TerminateText(more) != [] && TerminateText(more)[0] == more[0]
  {
  }

  /** A line with more after it stays a line of its own when it is replaced. */
  lemma MiddleLineEnds(updates: seq<Entry>, t: string)
    requires ProperUpdates(updates) && t != [] && LineLength(t) < |t|
    ensures var n := LineLength(t); var first, more := ReplaceLine(updates, t[..n]), ReplacedText(updates, t[n..]);
            more != [] && Closed(first, TerminateText(more))
  {
    var n := LineLength(t);
    FirstLineAlone(t);
    ReplacedLineSays(updates, t[..n]);
    ReplacedStarts(updates, t[n..]);
    LineEndsAtBreak(t);
    StaysClosed(t[..n], t[n..], ReplaceLine(updates, t[..n]), ReplacedText(updates, t[n..]));
    hide *;
  }

  lemma StaysClosed(line: string, next: string, first: string, more: string)
    requires line != [] && next != [] && first != [] && more != []
    requires Break(line[|line| - 1]) && !(line[|line| - 1] == '\r' && next[0] == '\n')
    requires first == line || first[|first| - 1] == '\n'
    requires more[0] == next[0] || more[0] != '\n'
    ensures Closed(first, TerminateText(more))
  {
    TerminateConcat(first, more);
    hide TerminateText;
  }

  lemma MiddleLineSays(updates: seq<Entry>, t: string)
    requires ProperUpdates(updates) && t != [] && LineLength(t) < |t|
    ensures var n := LineLength(t); var first, more := ReplaceLine(updates, t[..n]), ReplacedText(updates, t[n..]);
            TextEntries(TerminateText(first + more)) == Overridden(updates, LineEntries(t[..n])) + TextEntries(TerminateText(more))
  {
    var n := LineLength(t);
    FirstLineAlone(t);
    ReplacedLineSays(updates, t[..n]);
    MiddleLineEnds(updates, t);
    hide ReplaceLine, ReplacedText, LineEntries, TextEntries, LineLength, ProperUpdates, Overridden, TerminateText, Closed;
    var first, more := ReplaceLine(updates, t[..n]), ReplacedText(updates, t[n..]);
    TerminateConcat(first, more);
    TextEntriesConcat(first, TerminateText(more));
  }
}
