/** Environment files: lines as Python splits them, and the entries they hold. */
module EnvFile {
  // ---- lines ----

  /** Where `str.splitlines` ends a line. */
  predicate Break(c: char) {
    || '\n' <= c <= '\r' || '\U{1C}' <= c <= '\U{1E}' || c == '\U{85}' || c == '\U{2028}' || c == '\U{2029}'
  }

  /** What `str.strip` removes. */
  predicate Blank(c: char) {
    || '\t' <= c <= '\r' || '\U{1C}' <= c <= ' ' || c == '\U{85}' || c == '\U{A0}' || c == '\U{1680}'
    || '\U{2000}' <= c <= '\U{200A}' || c == '\U{2028}' || c == '\U{2029}' || c == '\U{202F}' || c == '\U{205F}' || c == '\U{3000}'
  }

  function LineLength(t: string): (n: nat)
    requires t != []
    ensures 1 <= n <= |t|
  {
    if Break(t[0]) then (if t[0] == '\r' && |t| > 1 && t[1] == '\n' then 2 else 1)
    else if |t| == 1 then 1
    else 1 + LineLength(t[1..])
  }

  function SplitLines(t: string): seq<string> {
    if t == [] then [] else [t[..LineLength(t)]] + SplitLines(t[LineLength(t)..])
  }

  function Join(lines: seq<string>): string {
    if lines == [] then [] else lines[0] + Join(lines[1..])
  }

  /** `a` ends where a line ends, whatever follows as `b`. */
  predicate Closed(a: string, b: string) {
    a == [] || (Break(a[|a| - 1]) && !(a[|a| - 1] == '\r' && b != [] && b[0] == '\n'))
  }

  lemma {:induction false} FirstLineStays(a: string, b: string)
    requires a != [] && Closed(a, b)
    ensures LineLength(a + b) == LineLength(a)
  {
    if !Break(a[0]) {
      assert (a + b)[1..] == a[1..] + b;
      FirstLineStays(a[1..], b);
    }
  }

  lemma {:induction false} FirstLineLeavesClosed(a: string, b: string)
    requires a != [] && Closed(a, b)
    ensures Closed(a[LineLength(a)..], b)
  {
  }

  lemma SplitStep(t: string, n: nat)
    requires t != [] && n == LineLength(t)
    ensures SplitLines(t) == [t[..n]] + SplitLines(t[n..])
  {
  }

  lemma {:induction false} SplitConcat(a: string, b: string)
    requires Closed(a, b)
    ensures SplitLines(a + b) == SplitLines(a) + SplitLines(b)
    decreases |a|
  {
    if a == [] {
      assert a + b == b && SplitLines([]) == [];
    } else {
      var n := LineLength(a);
      FirstLineStays(a, b);
      FirstLineLeavesClosed(a, b);
      SplitStep(a, n);
      SplitStep(a + b, n);
      SplitConcat(a[n..], b);
      hide *;
      CutInside(a, b, n);
      Assoc([a[..n]], SplitLines(a[n..]), SplitLines(b));
    }
  }

  lemma CutInside(a: string, b: string, n: nat)
    requires n <= |a|
    ensures (a + b)[..n] == a[..n] && (a + b)[n..] == a[n..] + b
  {
  }

  lemma Assoc<T>(a: seq<T>, b: seq<T>, c: seq<T>)
    ensures a + (b + c) == (a + b) + c
  {
  }

  lemma {:induction false} JoinSplit(t: string)
    ensures Join(SplitLines(t)) == t
    decreases |t|
  {
    if t != [] {
      var n := LineLength(t);
      SplitStep(t, n);
      JoinSplit(t[n..]);
      hide LineLength, SplitLines;
      assert ([t[..n]] + SplitLines(t[n..]))[1..] == SplitLines(t[n..]);
      assert t == t[..n] + t[n..];
    }
  }

  // ---- entries ----

  function StripLeft(s: string): string {
    if s == [] || !Blank(s[0]) then s else StripLeft(s[1..])
  }

  function StripRight(s: string): string {
    if s == [] || !Blank(s[|s| - 1]) then s else StripRight(s[..|s| - 1])
  }

  function Strip(s: string): string {
    StripRight(StripLeft(s))
  }

  /** `rstrip("\r\n")`. */
  function Unended(s: string): string {
    if s == [] || (s[|s| - 1] != '\r' && s[|s| - 1] != '\n') then s else Unended(s[..|s| - 1])
  }

  predicate KeyLine(line: string) {
    var s := Strip(line);
    s != [] && s[0] != '#' && '=' in s
  }

  function IndexOf(s: string, c: char): (i: nat)
    requires c in s
    ensures i < |s| && s[i] == c && c !in s[..i]
  {
    if s[0] == c then 0
    else
      assert s == [s[0]] + s[1..];
      var i := 1 + IndexOf(s[1..], c);
      assert s[..i] == [s[0]] + s[1..][..i - 1];
      i
  }

  datatype Entry = Entry(key: string, value: string)

  function EntryOf(line: string): Entry
    requires '=' in Unended(line)
  {
    var text := Unended(line);
    var i := IndexOf(text, '=');
    Entry(text[..i], text[i + 1..])
  }

  lemma {:induction false} StripLeftKeeps(s: string, c: char)
    requires !Blank(c)
    ensures c in StripLeft(s) <==> c in s
  {
    if s != [] && Blank(s[0]) {
      StripLeftKeeps(s[1..], c);
      assert s == [s[0]] + s[1..];
    }
  }

  lemma {:induction false} StripRightKeeps(s: string, c: char)
    requires !Blank(c)
    ensures c in StripRight(s) <==> c in s
  {
    if s != [] && Blank(s[|s| - 1]) {
      StripRightKeeps(s[..|s| - 1], c);
      assert s == s[..|s| - 1] + [s[|s| - 1]];
    }
  }

  lemma {:induction false} UnendedKeeps(s: string, c: char)
    requires c != '\r' && c != '\n'
    ensures c in Unended(s) <==> c in s
    ensures |Unended(s)| <= |s| && Unended(s) == s[..|Unended(s)|]
  {
    if s != [] && (s[|s| - 1] == '\r' || s[|s| - 1] == '\n') {
      UnendedKeeps(s[..|s| - 1], c);
      assert s == s[..|s| - 1] + [s[|s| - 1]];
    }
  }

  lemma KeyLineHasEquals(line: string)
    requires KeyLine(line)
    ensures '=' in line && '=' in Unended(line)
  {
    StripLeftKeeps(line, '=');
    StripRightKeeps(StripLeft(line), '=');
    UnendedKeeps(line, '=');
  }

  function LineEntries(line: string): seq<Entry> {
    if KeyLine(line) then
      KeyLineHasEquals(line);
      [EntryOf(line)]
    else []
  }

  function Entries(lines: seq<string>): seq<Entry> {
    if lines == [] then [] else LineEntries(lines[0]) + Entries(lines[1..])
  }

  lemma {:induction false} EntriesConcat(a: seq<string>, b: seq<string>)
    ensures Entries(a + b) == Entries(a) + Entries(b)
  {
    hide LineEntries;
    if a == [] {
      assert a + b == b && Entries([]) == [];
    } else {
      EntriesConcat(a[1..], b);
      EntriesStep(a);
      EntriesStep(a + b);
      hide Entries;
      assert (a + b)[1..] == a[1..] + b && (a + b)[0] == a[0];
    }
  }

  lemma EntriesStep(lines: seq<string>)
    requires lines != []
    ensures Entries(lines) == LineEntries(lines[0]) + Entries(lines[1..])
  {
  }

  function TextEntries(t: string): seq<Entry> {
    Entries(SplitLines(t))
  }

  lemma TextEntriesConcat(a: string, b: string)
    requires Closed(a, b)
    ensures TextEntries(a + b) == TextEntries(a) + TextEntries(b)
  {
    hide Entries, SplitLines;
    SplitConcat(a, b);
    EntriesConcat(SplitLines(a), SplitLines(b));
  }

  // ---- one line, ended another way ----

  lemma {:induction false} WholeLine(body: string, end: char)
    requires Break(end) && forall c | c in body :: !Break(c)
    ensures LineLength(body + [end]) == |body| + 1
  {
    if body != [] {
      assert (body + [end])[1..] == body[1..] + [end];
      WholeLine(body[1..], end);
    }
  }

  lemma OneLine(body: string, end: char)
    requires Break(end) && forall c | c in body :: !Break(c)
    ensures SplitLines(body + [end]) == [body + [end]]
  {
    hide LineLength, Break;
    var t := body + [end];
    WholeLine(body, end);
    assert t[..|t|] == t && t[|t|..] == [];
    assert SplitLines([]) == [];
  }

  lemma {:induction false} StripRightAppend(s: string, c: char)
    requires Blank(c)
    ensures StripRight(s + [c]) == StripRight(s)
  {
    assert (s + [c])[..|s|] == s;
  }

  lemma {:induction false} StripLeftAppend(s: string, c: char)
    requires Blank(c)
    ensures StripLeft(s) != [] ==> StripLeft(s + [c]) == StripLeft(s) + [c]
    ensures StripLeft(s) == [] ==> StripLeft(s + [c]) == []
  {
    if s == [] {
      assert ([] + [c])[1..] == [];
    } else if Blank(s[0]) {
      StripLeftAppend(s[1..], c);
      assert (s + [c])[1..] == s[1..] + [c];
    }
  }

  lemma StripAppend(s: string, c: char)
    requires Blank(c)
    ensures Strip(s + [c]) == Strip(s)
  {
    hide StripLeft, StripRight;
    StripLeftAppend(s, c);
    StripRightAppend(StripLeft(s), c);
  }

  lemma UnendedAppend(s: string, c: char)
    requires c == '\r' || c == '\n'
    ensures Unended(s + [c]) == Unended(s)
  {
    assert (s + [c])[..|s|] == s;
  }

  /** A line break added to a line does not change what the line says. */
  lemma EndingChangesNothing(line: string)
    ensures LineEntries(line + ['\n']) == LineEntries(line)
  {
    hide Strip, Unended;
    StripAppend(line, '\n');
    UnendedAppend(line, '\n');
  }
}
