/** Which objectives are missions, and which mission each one is. */
module MissionGrammar {
  import opened Options
  import opened Text
  import opened Mission

  /** The directives an objective opens with after its repository, and what follows them. */
  datatype Spelling = Spelling(directives: seq<Directive>, question: string)

  function Spell(rest: string): Spelling
    decreases |rest|
  {
    if rest == [] || IsSpace(rest[0]) || DirectiveOf(FirstWord(rest)).None? then Spelling([], rest)
    else
      RemainderShrinks(rest);
      var more := Spell(Remainder(rest));
      Spelling([DirectiveOf(FirstWord(rest)).value] + more.directives, more.question)
  }

  /** Whether a directive's count is one the product allows. */
  predicate Counts(d: Directive) {
    1 <= CountOf(d.text) <= 12
  }

  function Given(k: Key, exact: Option<nat>, atMost: Option<nat>): Option<nat> {
    if k.Findings? then exact else atMost
  }

  /** The parser stops at the first directive that counts wrongly or sets its key again. */
  lemma {:induction false} ReadsSpelling(rest: string, exact: Option<nat>, atMost: Option<nat>)
    ensures var ds, read := Spell(rest).directives, ReadDirectives(rest, exact, atMost);
            if ds == [] then read == Read(Spell(rest).question, exact, atMost)
            else if !Counts(ds[0]) then read == Stuck(BadCount(ds[0].key))
            else if Given(ds[0].key, exact, atMost).Some? then read == Stuck(SetTwice(ds[0].key))
            else
              var n := CountOf(ds[0].text);
              read == if ds[0].key.Findings? then ReadDirectives(Remainder(rest), Some(n), atMost) else ReadDirectives(Remainder(rest), exact, Some(n))
    ensures Spell(rest).directives != [] ==>
      && Spell(Remainder(rest)).directives == Spell(rest).directives[1..] && Spell(Remainder(rest)).question == Spell(rest).question
  {
    hide Remainder, FirstWord, DirectiveOf, CountOf, IsSpace;
  }

  /** Two directives or more never get through. */
  lemma TwoAreTooMany(rest: string)
    requires |Spell(rest).directives| >= 2
    ensures var ds, read := Spell(rest).directives, ReadDirectives(rest, None, None);
            if !Counts(ds[0]) then read == Stuck(BadCount(ds[0].key))
            else if !Counts(ds[1]) then read == Stuck(BadCount(ds[1].key))
            else if ds[0].key == ds[1].key then read == Stuck(SetTwice(ds[0].key))
            else read.Stuck? || (read.exact.Some? && read.atMost.Some? && |ds| == 2)
  {
    var ds := Spell(rest).directives;
    var after := Remainder(rest);
    ReadsSpelling(rest, None, None);
    hide Spell, ReadDirectives, Remainder, CountOf;
    if Counts(ds[0]) {
      var n := CountOf(ds[0].text);
      var exact := if ds[0].key.Findings? then Some(n) else None;
      var atMost := if ds[0].key.Findings? then None else Some(n);
      ReadsSpelling(after, exact, atMost);
      if Counts(ds[1]) && ds[0].key != ds[1].key {
        var m := CountOf(ds[1].text);
        BothStay(Remainder(after), if ds[0].key.Findings? then n else m, if ds[0].key.Findings? then m else n);
      }
    }
  }

  lemma BothStay(rest: string, exact: nat, atMost: nat)
    ensures var read := ReadDirectives(rest, Some(exact), Some(atMost));
            if Spell(rest).directives == [] then read == Read(Spell(rest).question, Some(exact), Some(atMost)) else read.Stuck?
  {
    ReadsSpelling(rest, Some(exact), Some(atMost));
    hide Spell, ReadDirectives, Remainder, CountOf;
  }

  /** At most one directive, of one to twelve findings; without one, up to eight; a question of two
      thousand code units at most, or the default one. */
  predicate Means(repo: string, spelt: Spelling, parsed: Parsed) {
    var ds, question := spelt.directives, if spelt.question == [] then DefaultQuestion() else spelt.question;
    if ds != [] && !Counts(ds[0]) then parsed == Refused(BadCount(ds[0].key))
    else if |ds| >= 2 then
      && parsed.Refused?
      && (!Counts(ds[1]) ==> parsed == Refused(BadCount(ds[1].key)))
      && (Counts(ds[1]) && ds[0].key == ds[1].key ==> parsed == Refused(SetTwice(ds[0].key)))
      && (Counts(ds[1]) && ds[0].key != ds[1].key && |ds| == 2 ==> parsed == Refused(SetBoth))
    else if Units(question) > 2000 then parsed == Refused(QuestionTooLong)
    else parsed == Accepted(Mission(repo, question, Meant(ds)))
  }

  function Meant(ds: seq<Directive>): Contract
    requires |ds| <= 1
  {
    if ds == [] then Contract(None, 1, 8)
    else
      var n := CountOf(ds[0].text);
      if ds[0].key.Findings? then Contract(Some(n), n, n) else Contract(None, 1, n)
  }

  lemma ConcludesAsSpelt(repo: string, rest: string)
    ensures Means(repo, Spell(rest), Conclude(repo, ReadDirectives(rest, None, None)))
  {
    hide Spell, ReadDirectives, Remainder, CountOf, Units, DefaultQuestion, Counts;
    var ds := Spell(rest).directives;
    if |ds| >= 2 {
      TwoAreTooMany(rest);
      if |ds| == 2 && Counts(ds[0]) && Counts(ds[1]) && ds[0].key != ds[1].key { TwoSetBoth(rest); }
    } else {
      OneOrNone(rest);
      if |ds| == 1 && Counts(ds[0]) { CountIsAllowed(ds[0]); }
    }
  }

  lemma CountIsAllowed(d: Directive)
    requires Counts(d)
    ensures 1 <= CountOf(d.text) <= 12
  {
    hide CountOf;
  }

  lemma OneOrNone(rest: string)
    requires |Spell(rest).directives| <= 1
    ensures var ds, question, read := Spell(rest).directives, Spell(rest).question, ReadDirectives(rest, None, None);
            if ds == [] then read == Read(question, None, None)
            else if !Counts(ds[0]) then read == Stuck(BadCount(ds[0].key))
            else if ds[0].key.Findings? then read == Read(question, Some(CountOf(ds[0].text)), None)
            else read == Read(question, None, Some(CountOf(ds[0].text)))
  {
    hide Spell, ReadDirectives, Remainder, CountOf, Counts;
    var ds := Spell(rest).directives;
    ReadsSpelling(rest, None, None);
    if |ds| == 1 && Counts(ds[0]) {
      var n := CountOf(ds[0].text);
      ReadsSpelling(Remainder(rest), if ds[0].key.Findings? then Some(n) else None, if ds[0].key.Findings? then None else Some(n));
    }
  }

  /** The whole parser: which objectives are refused and why, and what an accepted one means. */
  lemma ObjectiveMeans(objective: string)
    ensures var text, parsed := Trim(objective), ParseObjective(objective);
            if text == [] || !RepoSlug(FirstWord(text)) then parsed == Refused(NoRepository)
            else Means(FirstWord(text), Spell(Remainder(text)), parsed)
  {
    hide Trim, RepoSlug, FirstWord, Remainder, Means, Spell, ReadDirectives, Conclude;
    ConcludesAsSpelt(FirstWord(Trim(objective)), Remainder(Trim(objective)));
  }

  lemma TwoSetBoth(rest: string)
    requires |Spell(rest).directives| == 2 && Counts(Spell(rest).directives[0]) && Counts(Spell(rest).directives[1])
    requires Spell(rest).directives[0].key != Spell(rest).directives[1].key
    ensures var read := ReadDirectives(rest, None, None); read.Read? && read.exact.Some? && read.atMost.Some?
  {
    var ds, after := Spell(rest).directives, Remainder(rest);
    ReadsSpelling(rest, None, None);
    hide Spell, ReadDirectives, Remainder, CountOf;
    var n, m := CountOf(ds[0].text), CountOf(ds[1].text);
    ReadsSpelling(after, if ds[0].key.Findings? then Some(n) else None, if ds[0].key.Findings? then None else Some(n));
    BothStay(Remainder(after), if ds[0].key.Findings? then n else m, if ds[0].key.Findings? then m else n);
  }
}
