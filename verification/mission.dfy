/** Mission objectives: the directive parser, the printer the analysis tool uses, and why they agree. */
module Mission {
  import opened Options
  import opened Text

  // ---- repository names ----

  predicate Letter(c: char) {
    'a' <= c <= 'z' || 'A' <= c <= 'Z'
  }

  predicate Digit(c: char) {
    '0' <= c <= '9'
  }

  predicate OwnerName(s: string) {
    && 1 <= |s| <= 39 && (Letter(s[0]) || Digit(s[0]))
    && forall c | c in s :: Letter(c) || Digit(c) || c == '-'
  }

  predicate RepoName(s: string) {
    && 1 <= |s| <= 100 && s != "." && s != ".."
    && forall c | c in s :: Letter(c) || Digit(c) || c in "._-"
  }

  predicate RepoSlug(s: string) {
    exists i | 0 <= i < |s| :: s[i] == '/' && OwnerName(s[..i]) && RepoName(s[i + 1..])
  }

  // ---- the contract ----

  function DefaultQuestion(): string {
    "Summarise the architecture," + " the main components," + " the biggest risks" + " and the most important gaps."
  }

  const DEFAULT_MAX_FINDINGS := 8
  const HARD_MAX_FINDINGS := 12
  const MAX_QUESTION := 2000

  datatype Contract = Contract(requested: Option<nat>, minFindings: nat, maxFindings: nat)

  predicate ValidContract(c: Contract) {
    && 1 <= c.minFindings <= c.maxFindings <= HARD_MAX_FINDINGS
    && (c.requested.Some? ==> c.minFindings == c.requested.value == c.maxFindings)
  }

  function ContractOf(exact: Option<nat>, atMost: Option<nat>): Contract {
    Contract(exact, exact.GetOr(1), exact.GetOr(atMost.GetOr(DEFAULT_MAX_FINDINGS)))
  }

  /** Length in UTF-16 code units. */
  function Units(s: string): nat {
    if s == [] then 0 else (if s[0] as int >= 0x10000 then 2 else 1) + Units(s[1..])
  }

  // ---- words and directives ----

  function WordLength(s: string): (n: nat)
    ensures n <= |s| && forall i | 0 <= i < n :: !IsSpace(s[i])
    ensures n < |s| ==> IsSpace(s[n])
  {
    if s == [] || IsSpace(s[0]) then 0 else 1 + WordLength(s[1..])
  }

  function FirstWord(s: string): string {
    s[..WordLength(s)]
  }

  /** What follows the first word, trimmed. */
  function Remainder(s: string): string {
    Trim(s[WordLength(s)..])
  }

  function Lower(c: char): char {
    if 'A' <= c <= 'Z' then (c as int + 32) as char else c
  }

  /** `word` starts with `prefix`, ASCII case aside. */
  predicate StartsWith(word: string, prefix: string) {
    |prefix| <= |word| && forall i | 0 <= i < |prefix| :: Lower(word[i]) == prefix[i]
  }

  datatype Key = Findings | MaxFindings

  const FINDINGS := "findings="
  const MAX_FINDINGS := "max-findings="

  function NameOf(k: Key): string {
    match k case Findings => FINDINGS case MaxFindings => MAX_FINDINGS
  }

  datatype Directive = Directive(key: Key, text: string)

  function DirectiveOf(word: string): Option<Directive> {
    if StartsWith(word, FINDINGS) then Some(Directive(Findings, word[|FINDINGS|..]))
    else if StartsWith(word, MAX_FINDINGS) then Some(Directive(MaxFindings, word[|MAX_FINDINGS|..]))
    else None
  }

  function DigitValue(c: char): nat
    requires Digit(c)
  {
    (c as int) - ('0' as int)
  }

  /** The count a directive's text names, 0 if it is not one or two digits. */
  function CountOf(text: string): nat {
    if |text| == 1 && Digit(text[0]) then DigitValue(text[0])
    else if |text| == 2 && Digit(text[0]) && Digit(text[1]) then 10 * DigitValue(text[0]) + DigitValue(text[1])
    else 0
  }

  // ---- parsing ----

  datatype Refusal = NoRepository | BadCount(key: Key) | SetTwice(key: Key) | SetBoth | QuestionTooLong

  datatype Mission = Mission(repo: string, question: string, contract: Contract)

  datatype Parsed = Accepted(mission: Mission) | Refused(why: Refusal)

  datatype Directives = Read(rest: string, exact: Option<nat>, atMost: Option<nat>) | Stuck(why: Refusal)

  lemma RemainderShrinks(s: string)
    requires s != [] && !IsSpace(s[0])
    ensures |Remainder(s)| < |s|
  {
  }

  function ReadDirectives(rest: string, exact: Option<nat>, atMost: Option<nat>): Directives
    decreases |rest|
  {
    if rest == [] || IsSpace(rest[0]) then Read(rest, exact, atMost)
    else
      var d := DirectiveOf(FirstWord(rest));
      if d.None? then Read(rest, exact, atMost)
      else
        var n := CountOf(d.value.text);
        if n < 1 || n > HARD_MAX_FINDINGS then Stuck(BadCount(d.value.key))
        else if (if d.value.key.Findings? then exact else atMost).Some? then Stuck(SetTwice(d.value.key))
        else
          RemainderShrinks(rest);
          if d.value.key.Findings? then ReadDirectives(Remainder(rest), Some(n), atMost)
          else ReadDirectives(Remainder(rest), exact, Some(n))
  }

  function Conclude(repo: string, read: Directives): Parsed {
    if read.Stuck? then Refused(read.why)
    else if read.exact.Some? && read.atMost.Some? then Refused(SetBoth)
    else
      var question := if read.rest == [] then DefaultQuestion() else read.rest;
      if Units(question) > MAX_QUESTION then Refused(QuestionTooLong)
      else Accepted(Mission(repo, question, ContractOf(read.exact, read.atMost)))
  }

  function ParseObjective(objective: string): Parsed {
    var text := Trim(objective);
    if text == [] || !RepoSlug(FirstWord(text)) then Refused(NoRepository)
    else Conclude(FirstWord(text), ReadDirectives(Remainder(text), None, None))
  }

  /** The parser's loop: it ends on every input, because what is left shrinks. */
  method ParseMissionObjective(objective: string) returns (r: Parsed)
    ensures r == ParseObjective(objective)
  {
    hide Trim, RepoSlug, DirectiveOf, CountOf, Units, DefaultQuestion;
    var text := Trim(objective);
    if text == [] || !RepoSlug(FirstWord(text)) {
      return Refused(NoRepository);
    }
    var repo, rest := FirstWord(text), Remainder(text);
    var exact: Option<nat>, atMost: Option<nat> := None, None;
    while rest != [] && !IsSpace(rest[0])
      invariant ReadDirectives(rest, exact, atMost) == ReadDirectives(Remainder(text), None, None)
      decreases |rest|
    {
      var d := DirectiveOf(FirstWord(rest));
      if d.None? {
        break;
      }
      var n := CountOf(d.value.text);
      if n < 1 || n > HARD_MAX_FINDINGS {
        return Refused(BadCount(d.value.key));
      }
      if (if d.value.key.Findings? then exact else atMost).Some? {
        return Refused(SetTwice(d.value.key));
      }
      RemainderShrinks(rest);
      if d.value.key.Findings? { exact := Some(n); } else { atMost := Some(n); }
      rest := Remainder(rest);
    }
    r := Conclude(repo, Read(rest, exact, atMost));
  }

  // ---- printing ----

  function DigitOf(d: nat): char
    requires d < 10
  {
    (d + '0' as int) as char
  }

  function Decimal(n: nat): string
    requires n < 100
  {
    if n < 10 then [DigitOf(n)] else [DigitOf(n / 10), DigitOf(n % 10)]
  }

  /** The analysis tool's request, as its own schema accepts it. */
  datatype Request = Request(repo: string, findings: Option<nat>, question: Option<string>)

  predicate StartsWithDirective(q: string) {
    StartsWith(q, FINDINGS) || StartsWith(q, MAX_FINDINGS)
  }

  predicate AcceptedQuestion(q: string) {
    IsText(q) && Units(q) <= MAX_QUESTION && !StartsWithDirective(q)
  }

  predicate AcceptedRequest(r: Request) {
    && RepoSlug(r.repo)
    && (r.findings.Some? ==> 1 <= r.findings.value <= HARD_MAX_FINDINGS)
    && (r.question.Some? ==> AcceptedQuestion(r.question.value))
  }

  /** Words separated by single spaces. */
  function Spaced(parts: seq<string>): string {
    if parts == [] then [] else if |parts| == 1 then parts[0] else parts[0] + [' '] + Spaced(parts[1..])
  }

  function Given(part: Option<string>): seq<string> {
    if part.Some? then [part.value] else []
  }

  function Numbered(k: Key, n: nat): string
    requires n < 100
  {
    NameOf(k) + Decimal(n)
  }

  function AnalysisObjective(r: Request): string
    requires r.findings.Some? ==> r.findings.value < 100
  {
    Spaced([r.repo] + Given(if r.findings.Some? then Some(Numbered(Findings, r.findings.value)) else None) + Given(r.question))
  }

  // ---- reading back what was printed ----

  predicate Solid(word: string) {
    word != [] && forall c | c in word :: !IsSpace(c)
  }

  lemma {:induction false} SolidWord(word: string, rest: string)
    requires forall c | c in word :: !IsSpace(c)
    requires rest == [] || IsSpace(rest[0])
    ensures WordLength(word + rest) == |word|
  {
    if word == [] {
      assert word + rest == rest;
    } else {
      assert (word + rest)[1..] == word[1..] + rest;
      SolidWord(word[1..], rest);
    }
  }

  lemma TrimmedTail(rest: string)
    requires IsText(rest)
    ensures Trim([' '] + rest) == rest
  {
    assert ([' '] + rest)[1..] == rest;
    assert TrimStart([' '] + rest) == TrimStart(rest) == rest;
    assert TrimEnd(rest) == rest;
  }

  lemma TrimNothing()
    ensures Trim([]) == []
  {
  }

  /** A word, then more text after one space, or nothing. */
  function Then(word: string, rest: string): string {
    if rest == [] then word else word + [' '] + rest
  }

  lemma WordThen(word: string, rest: string)
    requires Solid(word) && (rest == [] || IsText(rest))
    ensures var s := Then(word, rest); FirstWord(s) == word && Remainder(s) == rest && IsText(s)
  {
    if rest == [] {
      SolidWord(word, []);
      TrimNothing();
      assert word + [] == word && word[|word|..] == [];
      assert word[0] in word && word[|word| - 1] in word;
    } else {
      var s := word + ([' '] + rest);
      assert word + [' '] + rest == s;
      SolidWord(word, [' '] + rest);
      TrimmedTail(rest);
      hide Trim;
      assert s[..|word|] == word && s[|word|..] == [' '] + rest;
      assert word[0] in word;
    }
  }

  lemma SlugIsSolid(repo: string)
    requires RepoSlug(repo)
    ensures Solid(repo)
  {
    var i :| 0 <= i < |repo| && repo[i] == '/' && OwnerName(repo[..i]) && RepoName(repo[i + 1..]);
    var owner, name := repo[..i], repo[i + 1..];
    NamesAreSolid(owner, name);
    hide OwnerName, RepoName, RepoSlug;
    forall k | 0 <= k < |repo| ensures !IsSpace(repo[k]) {
      if k < i { assert repo[k] == owner[k]; }
      if k > i { assert repo[k] == name[k - i - 1]; }
    }
  }

  lemma NamesAreSolid(owner: string, name: string)
    requires OwnerName(owner) && RepoName(name)
    ensures forall k | 0 <= k < |owner| :: !IsSpace(owner[k])
    ensures forall k | 0 <= k < |name| :: !IsSpace(name[k])
  {
    assert forall k | 0 <= k < |owner| :: owner[k] in owner;
    assert forall k | 0 <= k < |name| :: name[k] in name;
  }

  lemma NumberedIsSolid(k: Key, n: nat)
    requires n < 100
    ensures Solid(Numbered(k, n))
  {
    assert forall c | c in NameOf(k) :: !IsSpace(c);
    assert forall c | c in Decimal(n) :: Digit(c);
  }

  lemma DecimalReadsBack(n: nat)
    requires n < 100
    ensures CountOf(Decimal(n)) == n
  {
  }

  lemma NumberedIsDirective(k: Key, n: nat)
    requires n < 100
    ensures DirectiveOf(Numbered(k, n)) == Some(Directive(k, Decimal(n)))
  {
    var word, name := Numbered(k, n), NameOf(k);
    assert word[..|name|] == name && word[|name|..] == Decimal(n);
    assert StartsWith(word, name) by {
      forall i | 0 <= i < |name| ensures Lower(word[i]) == name[i] {
        assert word[i] == name[i];
      }
    }
    if k.MaxFindings? {
      assert Lower(word[0]) == 'm' && FINDINGS[0] == 'f';
    }
  }

  /** A question that does not start with a directive stops the loop at once. */
  lemma QuestionStops(q: string, exact: Option<nat>, atMost: Option<nat>)
    requires q == [] || (IsText(q) && !StartsWithDirective(q))
    ensures ReadDirectives(q, exact, atMost) == Read(q, exact, atMost)
  {
    if q != [] {
      var word := FirstWord(q);
      assert forall i | 0 <= i < |word| :: word[i] == q[i];
    }
  }

  function Only(k: Key, key: Key, n: nat): Option<nat> {
    if k == key then Some(n) else None
  }

  lemma DirectiveThen(k: Key, n: nat, q: string)
    requires 1 <= n <= HARD_MAX_FINDINGS && (q == [] || (IsText(q) && !StartsWithDirective(q)))
    ensures ReadDirectives(Then(Numbered(k, n), q), None, None) == Read(q, Only(k, Findings, n), Only(k, MaxFindings, n))
    ensures IsText(Then(Numbered(k, n), q))
  {
    var word := Numbered(k, n);
    NumberedIsSolid(k, n);
    WordThen(word, q);
    NumberedIsDirective(k, n);
    DecimalReadsBack(n);
    QuestionStops(q, Only(k, Findings, n), Only(k, MaxFindings, n));
    hide Trim, DirectiveOf, CountOf, StartsWithDirective, Numbered, FirstWord, Remainder, Then, Decimal, Trimmed;
  }

  lemma {:induction false} UnitsAtMostDouble(s: string)
    ensures Units(s) <= 2 * |s|
  {
    if s != [] { UnitsAtMostDouble(s[1..]); }
  }

  lemma DefaultIsAQuestion()
    ensures IsText(DefaultQuestion()) && !StartsWithDirective(DefaultQuestion()) && Units(DefaultQuestion()) <= MAX_QUESTION
  {
    hide Units;
    var q := DefaultQuestion();
    assert |q| == 95;
    assert q[0] == 'S' && q[94] == '.';
    UnitsAtMostDouble(q);
    hide DefaultQuestion;
    assert Lower(q[0]) == 's' && FINDINGS[0] == 'f' && MAX_FINDINGS[0] == 'm';
  }

  /** A repository, then anything: the parser hands the rest to the directive loop. */
  lemma RepoThen(repo: string, rest: string)
    requires RepoSlug(repo) && (rest == [] || IsText(rest))
    ensures ParseObjective(Then(repo, rest)) == Conclude(repo, ReadDirectives(rest, None, None))
  {
    SlugIsSolid(repo);
    WordThen(repo, rest);
    hide RepoSlug, ReadDirectives, Conclude, FirstWord, Remainder, Then, DefaultQuestion;
  }

  function Expected(r: Request): Mission {
    Mission(r.repo, r.question.GetOr(DefaultQuestion()), ContractOf(r.findings, None))
  }

  /** Every request the tool accepts parses back to what was asked: the same repository, the same
      question or the default one, and a requested count fixing both bounds. */
  lemma PrintedRequestParses(r: Request)
    requires AcceptedRequest(r)
    ensures ParseObjective(AnalysisObjective(r)) == Accepted(Expected(r))
    ensures ValidContract(Expected(r).contract)
  {
    hide *;
    QuestionOf(r);
    if r.findings.Some? {
      CountedRequestParses(r, r.findings.value);
    } else {
      PlainRequestParses(r);
    }
  }

  lemma QuestionOf(r: Request)
    requires AcceptedRequest(r)
    ensures var q := r.question.GetOr([]); q == [] || (IsText(q) && !StartsWithDirective(q))
    ensures r.question.Some? <==> r.question.GetOr([]) != []
    ensures Units(r.question.GetOr(DefaultQuestion())) <= MAX_QUESTION
    ensures RepoSlug(r.repo) && (r.findings.Some? ==> 1 <= r.findings.value <= HARD_MAX_FINDINGS)
    ensures ValidContract(Expected(r).contract)
  {
    DefaultIsAQuestion();
    hide Units, DefaultQuestion, RepoSlug, StartsWithDirective;
  }

  lemma CountedRequestParses(r: Request, n: nat)
    requires AcceptedRequest(r) && r.findings == Some(n)
    ensures ParseObjective(AnalysisObjective(r)) == Accepted(Expected(r))
  {
    hide AcceptedRequest, DefaultQuestion, RepoSlug, Units, StartsWithDirective, ReadDirectives, IsText, ParseObjective, AnalysisObjective, Numbered, Then;
    QuestionOf(r);
    var q := r.question.GetOr([]);
    ObjectiveShape(r);
    DirectiveThen(Findings, n, q);
    RepoThen(r.repo, Then(Numbered(Findings, n), q));
  }

  lemma PlainRequestParses(r: Request)
    requires AcceptedRequest(r) && r.findings.None?
    ensures ParseObjective(AnalysisObjective(r)) == Accepted(Expected(r))
  {
    hide AcceptedRequest, DefaultQuestion, RepoSlug, Units, StartsWithDirective, ReadDirectives, IsText, ParseObjective, AnalysisObjective, Numbered, Then;
    QuestionOf(r);
    var q := r.question.GetOr([]);
    ObjectiveShape(r);
    QuestionStops(q, None, None);
    RepoThen(r.repo, q);
  }

  lemma SpacedThen(first: string, rest: seq<string>)
    requires rest == [] || Spaced(rest) != []
    ensures Spaced([first] + rest) == Then(first, Spaced(rest))
  {
    assert ([first] + rest)[1..] == rest;
  }

  lemma ObjectiveShape(r: Request)
    requires r.findings.Some? ==> r.findings.value < 100
    requires r.question.Some? ==> r.question.value != []
    ensures var q := r.question.GetOr([]);
            AnalysisObjective(r) == Then(r.repo, if r.findings.Some? then Then(Numbered(Findings, r.findings.value), q) else q)
  {
    hide Spaced;
    var q := Given(r.question);
    SpacedGiven(r.question);
    if r.findings.Some? {
      var word := Numbered(Findings, r.findings.value);
      assert word != [];
      SpacedThen(word, q);
      SpacedThen(r.repo, [word] + q);
      hide Numbered;
      assert [r.repo] + [word] + q == [r.repo] + ([word] + q);
    } else {
      SpacedThen(r.repo, q);
      assert [r.repo] + [] + q == [r.repo] + q;
    }
  }

  lemma SpacedGiven(part: Option<string>)
    ensures Spaced(Given(part)) == part.GetOr([])
  {
  }

  // ---- the parser's own results print and read back ----

  /** Any mission, spelt with its count or its ceiling. */
  function Printed(m: Mission): string
    requires ValidContract(m.contract)
  {
    var c := m.contract;
    Then(m.repo, Then(if c.requested.Some? then Numbered(Findings, c.requested.value) else Numbered(MaxFindings, c.maxFindings), m.question))
  }

  lemma {:induction false} ReadLeaves(rest: string, exact: Option<nat>, atMost: Option<nat>)
    requires rest == [] || IsText(rest)
    requires exact.Some? ==> 1 <= exact.value <= HARD_MAX_FINDINGS
    requires atMost.Some? ==> 1 <= atMost.value <= HARD_MAX_FINDINGS
    ensures var read := ReadDirectives(rest, exact, atMost);
            read.Read? ==>
              && (read.rest == [] || (IsText(read.rest) && !StartsWithDirective(read.rest)))
              && (read.exact.Some? ==> 1 <= read.exact.value <= HARD_MAX_FINDINGS)
              && (read.atMost.Some? ==> 1 <= read.atMost.value <= HARD_MAX_FINDINGS)
    decreases |rest|
  {
    if rest != [] {
      StartsWhereItsWordDoes(rest);
      var d := DirectiveOf(FirstWord(rest));
      if d.Some? {
        RemainderShrinks(rest);
        RemainderIsText(rest);
        hide Trim, DirectiveOf, CountOf, StartsWithDirective, FirstWord, Remainder, Trimmed;
        var n := CountOf(d.value.text);
        if 1 <= n <= HARD_MAX_FINDINGS {
          if d.value.key.Findings? { ReadLeaves(Remainder(rest), Some(n), atMost); } else { ReadLeaves(Remainder(rest), exact, Some(n)); }
        }
      }
    }
  }

  lemma RemainderIsText(s: string)
    ensures Remainder(s) == [] || IsText(Remainder(s))
  {
  }

  /** A directive has no white space, so text starts with one exactly when its first word does. */
  lemma StartsWhereItsWordDoes(s: string)
    ensures DirectiveOf(FirstWord(s)).None? ==> !StartsWithDirective(s)
  {
    if StartsWith(s, FINDINGS) { PrefixInWord(s, FINDINGS); }
    if StartsWith(s, MAX_FINDINGS) { PrefixInWord(s, MAX_FINDINGS); }
  }

  lemma PrefixInWord(s: string, prefix: string)
    requires StartsWith(s, prefix) && forall i | 0 <= i < |prefix| :: prefix[i] == '=' || prefix[i] == '-' || 'a' <= prefix[i] <= 'z'
    ensures StartsWith(FirstWord(s), prefix)
  {
    var n := WordLength(s);
    forall i | 0 <= i < |prefix| ensures !IsSpace(s[i]) {
      assert Lower(s[i]) == prefix[i];
    }
    assert n >= |prefix|;
  }

  /** Whatever objective is accepted, the mission it denotes can be written down canonically and
      reads back as itself: parsing loses nothing the contract or the question holds. */
  lemma AcceptedMissionsReadBack(objective: string)
    requires ParseObjective(objective).Accepted?
    ensures var m := ParseObjective(objective).mission;
            && ValidContract(m.contract)
            && ParseObjective(Printed(m)) == Accepted(Mission(m.repo, m.question,
                 if m.contract.requested.Some? then m.contract else Contract(None, 1, m.contract.maxFindings)))
            && (m.contract.requested.None? ==> m.contract == Contract(None, 1, m.contract.maxFindings))
  {
    hide Trim, DefaultQuestion, RepoSlug, Units, StartsWithDirective, ReadDirectives, IsText, FirstWord, Remainder, Numbered, Then, ParseObjective;
    var m := ParseObjective(objective).mission;
    AcceptedShape(objective);
    var c := m.contract;
    var k, n := if c.requested.Some? then Findings else MaxFindings, if c.requested.Some? then c.requested.value else c.maxFindings;
    DirectiveThen(k, n, m.question);
    RepoThen(m.repo, Then(Numbered(k, n), m.question));
  }

  /** What an accepted objective's mission always satisfies. */
  lemma AcceptedShape(objective: string)
    requires ParseObjective(objective).Accepted?
    ensures var m := ParseObjective(objective).mission;
            && RepoSlug(m.repo) && IsText(m.question) && !StartsWithDirective(m.question) && Units(m.question) <= MAX_QUESTION
            && m.question != [] && ValidContract(m.contract)
            && (m.contract.requested.None? ==> m.contract == Contract(None, 1, m.contract.maxFindings))
  {
    hide Trim, DefaultQuestion, RepoSlug, Units, StartsWithDirective, ReadDirectives, FirstWord, Remainder, Trimmed;
    var text := Trim(objective);
    RemainderIsText(text);
    ReadLeaves(Remainder(text), None, None);
    DefaultIsAQuestion();
  }
}
