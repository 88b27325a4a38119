/** JSON text as UTF-16 code units: how strings and integers print, and that each reads back one way. */
module JsonText {
  type Unit = u: int | 0 <= u < 0x1_0000 witness 0

  type Text = seq<Unit>

  const QUOTE: Unit := 0x22
  const COMMA: Unit := 0x2c
  const MINUS: Unit := 0x2d
  const COLON: Unit := 0x3a
  const BACKSLASH: Unit := 0x5c
  const OPEN_LIST: Unit := 0x5b
  const CLOSE_LIST: Unit := 0x5d
  const OPEN_OBJECT: Unit := 0x7b
  const CLOSE_OBJECT: Unit := 0x7d

  // ---- strings, section 7 of RFC 8259 ----

  predicate Lead(u: Unit) {
    0xd800 <= u < 0xdc00
  }

  predicate Trail(u: Unit) {
    0xdc00 <= u < 0xe000
  }

  predicate PairAhead(s: Text) {
    |s| >= 2 && Lead(s[0]) && Trail(s[1])
  }

  function HexDigit(d: int): Unit
    requires 0 <= d < 16
  {
    if d < 10 then 0x30 + d else 0x61 + d - 10
  }

  function Hex4(u: Unit): Text {
    [HexDigit(u / 4096), HexDigit(u / 256 % 16), HexDigit(u / 16 % 16), HexDigit(u % 16)]
  }

  /** The letter of a two-unit escape, or 0. */
  function ShortEscape(u: Unit): Unit {
    if u == QUOTE then QUOTE
    else if u == BACKSLASH then BACKSLASH
    else if u == 8 then 0x62
    else if u == 9 then 0x74
    else if u == 10 then 0x6e
    else if u == 12 then 0x66
    else if u == 13 then 0x72
    else 0
  }

  const LETTER_U: Unit := 0x75

  function EscapeUnit(u: Unit): Text {
    if ShortEscape(u) != 0 then [BACKSLASH, ShortEscape(u)]
    else if u < 0x20 || Lead(u) || Trail(u) then [BACKSLASH, LETTER_U] + Hex4(u)
    else [u]
  }

  function HeadLength(s: Text): (n: nat)
    requires s != []
    ensures 1 <= n <= |s|
  {
    if PairAhead(s) then 2 else 1
  }

  function EscapeHead(s: Text): (t: Text)
    requires s != []
    ensures t != []
  {
    if PairAhead(s) then s[..2] else EscapeUnit(s[0])
  }

  function Escape(s: Text): Text {
    if s == [] then [] else EscapeHead(s) + Escape(s[HeadLength(s)..])
  }

  function Quoted(s: Text): Text {
    [QUOTE] + Escape(s) + [QUOTE]
  }

  lemma HexDigitInjective(a: int, b: int)
    requires 0 <= a < 16 && 0 <= b < 16 && HexDigit(a) == HexDigit(b)
    ensures a == b
  {
  }

  lemma HexSum(u: Unit)
    ensures u == 4096 * (u / 4096) + 256 * (u / 256 % 16) + 16 * (u / 16 % 16) + u % 16
  {
    assert u / 256 == u / 16 / 16 && u / 4096 == u / 256 / 16;
  }

  lemma Hex4Injective(a: Unit, b: Unit)
    requires Hex4(a) == Hex4(b)
    ensures a == b
  {
    var x, y := Hex4(a), Hex4(b);
    assert x[0] == y[0] && x[1] == y[1] && x[2] == y[2] && x[3] == y[3];
    hide HexDigit;
    HexDigitInjective(a / 4096, b / 4096);
    HexDigitInjective(a / 256 % 16, b / 256 % 16);
    HexDigitInjective(a / 16 % 16, b / 16 % 16);
    HexDigitInjective(a % 16, b % 16);
    HexSum(a);
    HexSum(b);
  }

  lemma AppendCancels(x: Text, r: Text, y: Text, r': Text)
    requires x + r == y + r' && |x| == |y|
    ensures x == y && r == r'
  {
    assert (x + r)[..|x|] == x && (y + r')[..|y|] == y;
    assert (x + r)[|x|..] == r && (y + r')[|y|..] == r';
  }

  lemma FirstOf(x: Text, r: Text)
    requires x != []
    ensures (x + r)[0] == x[0]
    ensures |x| > 1 ==> (x + r)[1] == x[1]
  {
  }

  /** One escaped head followed by anything is followed by the same thing as an equal one. */
  lemma HeadsAgree(s: Text, r: Text, t: Text, r': Text)
    requires s != [] && t != []
    requires EscapeHead(s) + r == EscapeHead(t) + r'
    ensures s[..HeadLength(s)] == t[..HeadLength(t)] && r == r'
  {
    var x, y := EscapeHead(s), EscapeHead(t);
    FirstOf(x, r);
    FirstOf(y, r');
    assert |x| == |y|;
    AppendCancels(x, r, y, r');
    if x[0] == BACKSLASH && x[1] == LETTER_U {
      assert x[2..] == Hex4(s[0]) && y[2..] == Hex4(t[0]);
      Hex4Injective(s[0], t[0]);
    }
  }

  lemma EscapeStart(s: Text, q: Text)
    requires q != [] && q[0] == QUOTE
    ensures (Escape(s) + q)[0] == QUOTE <==> s == []
  {
    if s == [] {
      assert Escape(s) + q == q;
    } else {
      assert (Escape(s) + q)[0] == EscapeHead(s)[0];
    }
  }

  lemma EscapeSplit(s: Text, q: Text)
    requires s != []
    ensures Escape(s) + q == EscapeHead(s) + (Escape(s[HeadLength(s)..]) + q)
  {
  }

  lemma SameHeadSameText(s: Text, t: Text, n: nat)
    requires n <= |s| && n <= |t| && s[..n] == t[..n] && s[n..] == t[n..]
    ensures s == t
  {
    assert s == s[..n] + s[n..] && t == t[..n] + t[n..];
  }

  /** Escaped text ends at its closing quote: it reads back one way. */
  lemma {:induction false} EscapesAgree(s: Text, q: Text, t: Text, q': Text)
    requires q != [] && q[0] == QUOTE && q' != [] && q'[0] == QUOTE
    requires Escape(s) + q == Escape(t) + q'
    ensures s == t && q == q'
    decreases |s|
  {
    EscapeStart(s, q);
    EscapeStart(t, q');
    if s == [] {
      assert Escape(s) + q == q && Escape(t) + q' == q';
    } else {
      EscapeSplit(s, q);
      EscapeSplit(t, q');
      hide Escape, EscapeHead, HeadLength;
      var n := HeadLength(s);
      HeadsAgree(s, Escape(s[n..]) + q, t, Escape(t[HeadLength(t)..]) + q');
      assert HeadLength(t) == |t[..HeadLength(t)]|;
      EscapesAgree(s[n..], q, t[n..], q');
      SameHeadSameText(s, t, n);
    }
  }

  lemma QuotedAgree(s: Text, r: Text, t: Text, r': Text)
    requires Quoted(s) + r == Quoted(t) + r'
    ensures s == t && r == r'
  {
    hide Escape;
    var q, q' := [QUOTE] + r, [QUOTE] + r';
    assert (Quoted(s) + r)[1..] == Escape(s) + q;
    assert (Quoted(t) + r')[1..] == Escape(t) + q';
    EscapesAgree(s, q, t, q');
    assert r == q[1..] && r' == q'[1..];
  }

  // ---- integers ----

  predicate IsDigit(u: Unit) {
    0x30 <= u <= 0x39
  }

  function Digits(n: nat): (t: Text)
    ensures t != [] && forall i | 0 <= i < |t| :: IsDigit(t[i])
  {
    if n < 10 then [0x30 + n] else Digits(n / 10) + [0x30 + n % 10]
  }

  function DigitsValue(t: Text): int {
    if t == [] then 0 else 10 * DigitsValue(t[..|t| - 1]) + t[|t| - 1] - 0x30
  }

  lemma {:induction false} DigitsReadBack(n: nat)
    ensures DigitsValue(Digits(n)) == n
  {
    if n >= 10 {
      DigitsReadBack(n / 10);
      assert Digits(n)[..|Digits(n)| - 1] == Digits(n / 10);
    } else {
      assert Digits(n)[..0] == [];
    }
  }

  /** An integer in plain digits. So do JavaScript's numbers print below 1e21 in magnitude; there is no
      negative zero here, and the versioned contract admits safe integers only. */
  function Integer(n: int): (t: Text)
    ensures t != [] && (t[0] == MINUS <==> n < 0) && (n >= 0 ==> IsDigit(t[0]))
  {
    if n < 0 then [MINUS] + Digits(-n) else Digits(n)
  }

  /** What can follow a value: nothing, or anything but another digit. */
  predicate Ends(r: Text) {
    r == [] || !IsDigit(r[0])
  }

  lemma DigitRunsEnd(x: Text, r: Text, y: Text, r': Text)
    requires x + r == y + r' && Ends(r) && forall i | 0 <= i < |y| :: IsDigit(y[i])
    ensures |y| <= |x|
  {
    assert forall i | 0 <= i < |y| :: IsDigit((y + r')[i]);
    assert r != [] ==> (x + r)[|x|] == r[0];
  }

  lemma DigitsAgree(a: nat, r: Text, b: nat, r': Text)
    requires Digits(a) + r == Digits(b) + r' && Ends(r) && Ends(r')
    ensures a == b && r == r'
  {
    var x, y := Digits(a), Digits(b);
    DigitsReadBack(a);
    DigitsReadBack(b);
    hide Digits;
    DigitRunsEnd(x, r, y, r');
    DigitRunsEnd(y, r', x, r);
    AppendCancels(x, r, y, r');
  }

  lemma IntegersAgree(a: int, r: Text, b: int, r': Text)
    requires Integer(a) + r == Integer(b) + r' && Ends(r) && Ends(r')
    ensures a == b && r == r'
  {
    FirstOf(Integer(a), r);
    FirstOf(Integer(b), r');
    if a < 0 {
      assert (Integer(a) + r)[1..] == Digits(-a) + r && (Integer(b) + r')[1..] == Digits(-b) + r';
      DigitsAgree(-a, r, -b, r');
    } else {
      DigitsAgree(a, r, b, r');
    }
  }
}
