/** Strings of Unicode characters, with the white space `trim` and `\s` agree on. */
module Text {

  /** WhiteSpace and LineTerminator of ECMAScript. */
  predicate IsSpace(c: char) {
    || '\t' <= c <= '\r' || c == ' ' || c == '\U{A0}' || c == '\U{1680}'
    || '\U{2000}' <= c <= '\U{200A}' || c == '\U{2028}' || c == '\U{2029}'
    || c == '\U{202F}' || c == '\U{205F}' || c == '\U{3000}' || c == '\U{FEFF}'
  }

  function TrimStart(s: string): (r: string)
    ensures r != [] ==> !IsSpace(r[0])
    ensures |r| <= |s| && r == s[|s| - |r|..]
  {
    if s == [] || !IsSpace(s[0]) then s else TrimStart(s[1..])
  }

  function TrimEnd(s: string): (r: string)
    ensures r != [] ==> !IsSpace(r[|r| - 1])
    ensures |r| <= |s| && r == s[..|r|]
  {
    if s == [] || !IsSpace(s[|s| - 1]) then s else TrimEnd(s[..|s| - 1])
  }

  function Trim(s: string): (r: string)
    ensures Trimmed(r)
    ensures |r| <= |s|
    ensures Trimmed(s) ==> r == s
  {
    TrimEnd(TrimStart(s))
  }

  /** No white space at either end. */
  predicate Trimmed(s: string) {
    s != [] ==> !IsSpace(s[0]) && !IsSpace(s[|s| - 1])
  }

  /** A value the schema's `Text` accepts unchanged. */
  predicate IsText(s: string) {
    s != [] && Trimmed(s)
  }

  function Reversed(s: string): (r: string)
    ensures |r| == |s|
  {
    if s == [] then [] else Reversed(s[1..]) + [s[0]]
  }

  lemma {:induction false} ReverseAt(s: string, k: nat)
    requires k < |s|
    ensures Reversed(s)[k] == s[|s| - 1 - k]
  {
    if k < |s| - 1 {
      ReverseAt(s[1..], k);
    }
  }

  lemma ReverseKeepsText(s: string)
    requires IsText(s)
    ensures IsText(Reversed(s))
  {
    ReverseAt(s, 0);
    ReverseAt(s, |s| - 1);
  }

  // ---- upper case: the Unicode table is a parameter ----

  /** Full upper-casing maps a character to one or more characters and never makes white space. */
  ghost predicate CaseMapping(upper: char -> string) {
    forall c | !IsSpace(c) :: upper(c) != [] && forall d | d in upper(c) :: !IsSpace(d)
  }

  function UpperAll(upper: char -> string, s: string): string {
    if s == [] then [] else upper(s[0]) + UpperAll(upper, s[1..])
  }

  lemma {:induction false} UpperAllConcat(upper: char -> string, a: string, b: string)
    ensures UpperAll(upper, a + b) == UpperAll(upper, a) + UpperAll(upper, b)
  {
    if a == [] {
      assert a + b == b;
    } else {
      assert (a + b)[1..] == a[1..] + b;
      UpperAllConcat(upper, a[1..], b);
    }
  }

  lemma UpperKeepsText(upper: char -> string, s: string)
    requires CaseMapping(upper)
    requires IsText(s)
    ensures IsText(UpperAll(upper, s))
  {
    var init, last := s[..|s| - 1], s[|s| - 1];
    assert s == init + [last];
    UpperAllConcat(upper, init, [last]);
    assert UpperAll(upper, [last]) == upper(last) + UpperAll(upper, []);
    var u := UpperAll(upper, s);
    assert u[0] == upper(s[0])[0] && u[0] in upper(s[0]);
    assert u[|u| - 1] == upper(last)[|upper(last)| - 1] && u[|u| - 1] in upper(last);
  }
}
