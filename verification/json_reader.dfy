/** A reader of compact JSON (sections 3 to 7 of RFC 8259), and that it reads back what is printed. */
module JsonReader {
  import opened Options
  import opened JsonText
  import opened CanonicalJson

  datatype Read<T> = Got(value: T, rest: Text) | Bad

  // ---- strings ----

  /** What the letter after a backslash stands for. */
  function Meaning(letter: Unit): Option<Unit> {
    match letter
    case 0x22 => Some(0x22)
    case 0x5c => Some(0x5c)
    case 0x2f => Some(0x2f)
    case 0x62 => Some(8)
    case 0x66 => Some(12)
    case 0x6e => Some(10)
    case 0x72 => Some(13)
    case 0x74 => Some(9)
    case _ => None
  }

  function HexValue(u: Unit): (v: Option<int>)
    ensures v.Some? ==> 0 <= v.value < 16
  {
    if 0x30 <= u <= 0x39 then Some(u - 0x30)
    else if 0x41 <= u <= 0x46 then Some(u - 0x41 + 10)
    else if 0x61 <= u <= 0x66 then Some(u - 0x61 + 10)
    else None
  }

  function FourHex(t: Text): Option<Unit>
    requires |t| >= 4
  {
    var a, b, c, d := HexValue(t[0]), HexValue(t[1]), HexValue(t[2]), HexValue(t[3]);
    if a.None? || b.None? || c.None? || d.None? then None else Some(4096 * a.value + 256 * b.value + 16 * c.value + d.value)
  }

  function Prefixed(u: Unit, r: Read<Text>): Read<Text> {
    if r.Got? then Got([u] + r.value, r.rest) else Bad
  }

  /** The rest of a string, up to and with its closing quote. */
  function ReadUnits(t: Text): (r: Read<Text>)
    ensures r.Got? ==> |r.rest| < |t|
  {
    if t == [] || t[0] < 0x20 then Bad
    else if t[0] == 0x22 then Got([], t[1..])
    else if t[0] != 0x5c then Prefixed(t[0], ReadUnits(t[1..]))
    else if |t| < 2 then Bad
    else if t[1] == 0x75 then
      if |t| < 6 || FourHex(t[2..]).None? then Bad else Prefixed(FourHex(t[2..]).value, ReadUnits(t[6..]))
    else if Meaning(t[1]).None? then Bad
    else Prefixed(Meaning(t[1]).value, ReadUnits(t[2..]))
  }

  function ReadString(t: Text): (r: Read<Text>)
    ensures r.Got? ==> |r.rest| < |t|
  {
    if t != [] && t[0] == 0x22 then ReadUnits(t[1..]) else Bad
  }

  lemma HexReadsBack(d: int)
    requires 0 <= d < 16
    ensures HexValue(HexDigit(d)) == Some(d)
  {
  }

  lemma Hex4ReadsBack(u: Unit, r: Text)
    ensures |Hex4(u) + r| >= 4 && FourHex(Hex4(u) + r) == Some(u)
  {
    HexSum(u);
    HexReadsBack(u / 4096);
    HexReadsBack(u / 256 % 16);
    HexReadsBack(u / 16 % 16);
    HexReadsBack(u % 16);
    hide HexDigit, HexValue;
  }

  lemma UnitReadsBack(u: Unit, r: Text)
    ensures ReadUnits(EscapeUnit(u) + r) == Prefixed(u, ReadUnits(r))
  {
    var t := EscapeUnit(u) + r;
    hide Hex4, FourHex;
    if ShortEscape(u) != 0 {
      assert t[2..] == r;
    } else if u < 0x20 || Lead(u) || Trail(u) {
      Hex4ReadsBack(u, r);
      assert |Hex4(u)| == 4 by { HexLength(u); }
      assert t[2..] == Hex4(u) + r && t[6..] == r;
    } else {
      assert t[1..] == r;
    }
  }

  lemma HexLength(u: Unit)
    ensures |Hex4(u)| == 4
  {
  }

  lemma PairReadsBack(s: Text, r: Text)
    requires PairAhead(s)
    ensures ReadUnits(s[..2] + r) == Prefixed(s[0], Prefixed(s[1], ReadUnits(r)))
  {
    var t := s[..2] + r;
    assert t[0] == s[0] && t[1..] == [s[1]] + r && t[1..][1..] == r;
  }

  lemma HeadReadsBack(s: Text, t: Text)
    requires s != [] && ReadUnits(t).Got? && ReadUnits(t).value == s[HeadLength(s)..]
    ensures ReadUnits(EscapeHead(s) + t) == Got(s, ReadUnits(t).rest)
  {
    hide ReadUnits, EscapeUnit;
    if PairAhead(s) {
      PairReadsBack(s, t);
      assert [s[0]] + ([s[1]] + s[2..]) == s;
    } else {
      UnitReadsBack(s[0], t);
      assert [s[0]] + s[1..] == s;
    }
  }

  lemma {:induction false} EscapedReadsBack(s: Text, r: Text)
    ensures ReadUnits(Escape(s) + ([QUOTE] + r)) == Got(s, r)
    decreases |s|
  {
    var q := [QUOTE] + r;
    if s == [] {
      assert Escape(s) + q == q && q[1..] == r;
    } else {
      hide Escape, ReadUnits;
      EscapedReadsBack(s[HeadLength(s)..], r);
      EscapeSplit(s, q);
      HeadReadsBack(s, Escape(s[HeadLength(s)..]) + q);
    }
  }

  /** A printed string reads back as itself, whatever follows it. */
  lemma QuotedReadsBack(s: Text, r: Text)
    ensures ReadString(Quoted(s) + r) == Got(s, r)
  {
    EscapedReadsBack(s, r);
    hide Escape, ReadUnits;
    assert (Quoted(s) + r)[1..] == Escape(s) + ([QUOTE] + r);
  }

  /** Only what must be escaped is: the quote, the backslash, controls and halves of surrogate pairs. */
  lemma StandsForItself(u: Unit)
    ensures EscapeUnit(u) == [u] <==> u >= 0x20 && u != 0x22 && u != 0x5c && !(0xd800 <= u < 0xe000)
    ensures |EscapeUnit(u)| == 2 <==> u in {0x22, 0x5c, 8, 9, 10, 12, 13}
  {
    HexLength(u);
    hide Hex4;
  }

  // ---- integers ----

  function RunLength(t: Text): (n: nat)
    ensures n <= |t| && (forall i | 0 <= i < n :: IsDigit(t[i])) && (n < |t| ==> !IsDigit(t[n]))
  {
    if t == [] || !IsDigit(t[0]) then 0 else 1 + RunLength(t[1..])
  }

  /** Digits without a leading zero. */
  function ReadDigits(t: Text): (r: Read<int>)
    ensures r.Got? ==> |r.rest| < |t|
  {
    var n := RunLength(t);
    if n == 0 || (n > 1 && t[0] == 0x30) then Bad else Got(DigitsValue(t[..n]), t[n..])
  }

  function ReadInteger(t: Text): (r: Read<int>)
    ensures r.Got? ==> |r.rest| < |t|
  {
    if t != [] && t[0] == 0x2d then
      var r := ReadDigits(t[1..]);
      if r.Got? then Got(-r.value, r.rest) else Bad
    else ReadDigits(t)
  }

  lemma {:induction false} NoLeadingZero(n: nat)
    ensures Digits(n)[0] == 0x30 <==> n == 0
    ensures n < 10 <==> |Digits(n)| == 1
  {
    if n >= 10 { NoLeadingZero(n / 10); }
  }

  lemma DigitsEndThere(x: Text, r: Text)
    requires (forall i | 0 <= i < |x| :: IsDigit(x[i])) && Ends(r)
    ensures RunLength(x + r) == |x|
  {
    assert forall i | 0 <= i < |x| :: (x + r)[i] == x[i];
    assert r != [] ==> (x + r)[|x|] == r[0];
  }

  lemma DigitsReadAgain(n: nat, r: Text)
    requires Ends(r)
    ensures ReadDigits(Digits(n) + r) == Got(n, r)
  {
    var x := Digits(n);
    DigitsEndThere(x, r);
    NoLeadingZero(n);
    DigitsReadBack(n);
    hide Digits, DigitsValue;
    assert (x + r)[..|x|] == x && (x + r)[|x|..] == r && (x + r)[0] == x[0];
  }

  lemma IntegerReadsBack(n: int, r: Text)
    requires Ends(r)
    ensures ReadInteger(Integer(n) + r) == Got(n, r)
  {
    hide ReadDigits;
    FirstOf(Integer(n), r);
    if n < 0 {
      DigitsReadAgain(-n, r);
      assert (Integer(n) + r)[1..] == Digits(-n) + r;
    } else {
      DigitsReadAgain(n, r);
    }
  }

  // ---- documents ----

  function ReadValue(t: Text): (r: Read<Json>)
    ensures r.Got? ==> |r.rest| < |t|
    decreases |t|, 0
  {
    if t == [] then Bad
    else if t[0] == 0x6e then (if NULL <= t then Got(Null, t[4..]) else Bad)
    else if t[0] == 0x74 then (if TRUE <= t then Got(Bool(true), t[4..]) else Bad)
    else if t[0] == 0x66 then (if FALSE <= t then Got(Bool(false), t[5..]) else Bad)
    else if t[0] == 0x22 then (match ReadString(t) case Got(s, rest) => Got(Str(s), rest) case Bad => Bad)
    else if t[0] == 0x5b then
      if |t| > 1 && t[1] == 0x5d then Got(List([]), t[2..])
      else match ReadItems(t[1..]) case Got(items, rest) => Got(List(items), rest) case Bad => Bad
    else if t[0] == 0x7b then
      if |t| > 1 && t[1] == 0x7d then Got(Object([]), t[2..])
      else match ReadFields(t[1..]) case Got(fields, rest) => Got(Object(fields), rest) case Bad => Bad
    else match ReadInteger(t) case Got(n, rest) => Got(Int(n), rest) case Bad => Bad
  }

  /** One value or more, between commas, up to and with the closing bracket. */
  function ReadItems(t: Text): (r: Read<seq<Json>>)
    ensures r.Got? ==> |r.rest| < |t|
    decreases |t|, 1
  {
    var first := ReadValue(t);
    if first.Bad? || first.rest == [] then Bad
    else if first.rest[0] == 0x5d then Got([first.value], first.rest[1..])
    else if first.rest[0] != 0x2c then Bad
    else match ReadItems(first.rest[1..]) case Got(more, rest) => Got([first.value] + more, rest) case Bad => Bad
  }

  /** One field or more, up to and with the closing brace. */
  function ReadFields(t: Text): (r: Read<seq<Field>>)
    ensures r.Got? ==> |r.rest| < |t|
    decreases |t|, 1
  {
    var key := ReadString(t);
    if key.Bad? || key.rest == [] || key.rest[0] != 0x3a then Bad
    else
      var item := ReadValue(key.rest[1..]);
      if item.Bad? || item.rest == [] then Bad
      else if item.rest[0] == 0x7d then Got([Keyed(key.value, item.value)], item.rest[1..])
      else if item.rest[0] != 0x2c then Bad
      else match ReadFields(item.rest[1..]) case Got(more, rest) => Got([Keyed(key.value, item.value)] + more, rest) case Bad => Bad
  }

  /** A printed document reads back as itself, whatever follows it but another digit. */
  lemma {:induction false} PlainReadsBack(v: Json, r: Text)
    requires Ends(r)
    ensures ReadValue(Plain(v) + r) == Got(v, r)
    decreases v
  {
    PlainStarts(v, r);
    match v {
      case Null => assert (NULL + r)[4..] == r;
      case Bool(b) => assert (if b then TRUE + r else FALSE + r)[if b then 4 else 5..] == r;
      case Int(n) => IntegerReadsBack(n, r); hide ReadInteger, Integer;
      case Str(s) => QuotedReadsBack(s, r); hide Quoted, ReadString;
      case List(items) => ListReadsBack(items, r);
      case Object(fields) => ObjectReadsBack(fields, r);
    }
  }

  lemma {:induction false} ListReadsBack(items: seq<Json>, r: Text)
    requires Ends(r)
    ensures ReadValue(Plain(List(items)) + r) == Got(List(items), r)
    decreases items, 2
  {
    ListText(items, r);
    ItemsStart(items, r);
    hide Plain;
    var text := Join(PlainItems(items)) + [CLOSE_LIST] + r;
    assert ([OPEN_LIST] + text)[1..] == text;
    if items == [] {
      assert PlainItems(items) == [] && text == [CLOSE_LIST] + r && text[1..] == r;
    } else {
      ItemsReadBack(items, r);
      hide Join, ReadItems;
    }
  }

  lemma {:induction false} ItemsReadBack(items: seq<Json>, r: Text)
    requires items != []
    ensures ReadItems(Join(PlainItems(items)) + [CLOSE_LIST] + r) == Got(items, r)
    decreases items, 1
  {
    var texts := PlainItems(items);
    var rest := Rest(texts, CLOSE_LIST, r);
    JoinSplits(texts, CLOSE_LIST, r);
    PlainReadsBack(items[0], rest);
    hide Plain, Join, ReadValue;
    if |items| == 1 {
      assert rest[1..] == r && items == [items[0]];
    } else {
      ItemsReadBack(items[1..], r);
      assert texts[1..] == PlainItems(items[1..]) && items == [items[0]] + items[1..];
      assert rest[1..] == Join(texts[1..]) + [CLOSE_LIST] + r;
    }
  }

  lemma {:induction false} ObjectReadsBack(fields: seq<Field>, r: Text)
    requires Ends(r)
    ensures ReadValue(Plain(Object(fields)) + r) == Got(Object(fields), r)
    decreases fields, 2
  {
    ObjectText(fields, r);
    FieldsStart(fields, r);
    hide Plain, Members;
    var text := Join(Members(PlainFields(fields))) + [CLOSE_OBJECT] + r;
    assert ([OPEN_OBJECT] + text)[1..] == text;
    if fields == [] {
      assert Members(PlainFields(fields)) == [] && text == [CLOSE_OBJECT] + r && text[1..] == r;
    } else {
      FieldsReadBack(fields, r);
      hide Join, ReadFields;
    }
  }

  lemma {:induction false} FieldsReadBack(fields: seq<Field>, r: Text)
    requires fields != []
    ensures ReadFields(Join(Members(PlainFields(fields))) + [CLOSE_OBJECT] + r) == Got(fields, r)
    decreases fields, 1
  {
    var texts := Members(PlainFields(fields));
    var rest := Rest(texts, CLOSE_OBJECT, r);
    JoinSplits(texts, CLOSE_OBJECT, r);
    MembersTail(PlainFields(fields));
    MemberSplits(fields[0].key, Plain(fields[0].item), rest);
    var value := Plain(fields[0].item) + rest;
    QuotedReadsBack(fields[0].key, [COLON] + value);
    PlainReadsBack(fields[0].item, rest);
    hide Plain, Join, ReadValue, ReadString, Quoted, Members, Member;
    assert ([COLON] + value)[1..] == value;
    if |fields| == 1 {
      assert rest[1..] == r && fields == [fields[0]];
    } else {
      FieldsReadBack(fields[1..], r);
      assert PlainFields(fields)[1..] == PlainFields(fields[1..]) && fields == [fields[0]] + fields[1..];
      assert rest[1..] == Join(texts[1..]) + [CLOSE_OBJECT] + r;
    }
  }

  /** The canonical text of a document reads back as that document with its keys in order. */
  lemma CanonicalReadsBack(v: Json)
    ensures ReadValue(Canonical(v)) == Got(Normal(v), [])
  {
    CanonicalPrintsNormal(v);
    PlainReadsBack(Normal(v), []);
    hide ReadValue, Plain, Normal, Canonical;
    assert Plain(Normal(v)) + [] == Plain(Normal(v));
  }

  // ---- the order of keys ----

  /** Code unit by code unit: at the first difference the smaller unit comes first, and a prefix
      before what it begins. */
  ghost predicate Precedes(a: Text, b: Text) {
    exists i: nat :: i <= |a| && i < |b| && a[..i] == b[..i] && (i == |a| || a[i] < b[i])
  }

  lemma SamePrefixSameHead(a: Text, b: Text)
    ensures forall i: nat | 0 < i <= |a| && i < |b| && a[..i] == b[..i] :: a[0] == b[0]
  {
    forall i: nat | 0 < i <= |a| && i < |b| && a[..i] == b[..i] ensures a[0] == b[0] { assert a[..i][0] == b[..i][0]; }
  }

  lemma PrecedesTail(a: Text, b: Text)
    requires a != [] && b != [] && a[0] == b[0]
    ensures Precedes(a, b) <==> Precedes(a[1..], b[1..])
  {
    forall i: nat | i < |a| && i + 1 < |b| ensures a[..i + 1] == b[..i + 1] <==> a[1..][..i] == b[1..][..i] {
      assert a[..i + 1] == [a[0]] + a[1..][..i] && b[..i + 1] == [b[0]] + b[1..][..i];
    }
    if Precedes(a, b) {
      var i: nat :| i <= |a| && i < |b| && a[..i] == b[..i] && (i == |a| || a[i] < b[i]);
      assert i > 0 && a[..(i - 1) + 1] == b[..(i - 1) + 1];
    }
    if Precedes(a[1..], b[1..]) {
      var i: nat :| i <= |a[1..]| && i < |b[1..]| && a[1..][..i] == b[1..][..i] && (i == |a[1..]| || a[1..][i] < b[1..][i]);
      assert a[..i + 1] == b[..i + 1];
    }
  }

  lemma PrecedesAtOnce(a: Text, b: Text)
    requires b != [] && (a == [] || a[0] != b[0])
    ensures Precedes(a, b) <==> a == [] || a[0] < b[0]
  {
    assert a[..0] == b[..0];
    SamePrefixSameHead(a, b);
  }

  lemma {:induction false} LessIsPrecedes(a: Text, b: Text)
    ensures Less(a, b) <==> Precedes(a, b)
  {
    if a != [] && b != [] && a[0] == b[0] {
      LessIsPrecedes(a[1..], b[1..]);
      PrecedesTail(a, b);
      hide Precedes;
    } else if b != [] {
      PrecedesAtOnce(a, b);
      hide Precedes;
    }
  }

  /** Every object, at every depth, lists its keys in this order. */
  ghost predicate Ascending(v: Json) {
    match v
    case List(items) => forall i | 0 <= i < |items| :: Ascending(items[i])
    case Object(fields) =>
      && (forall i, j | 0 <= i < j < |fields| :: Precedes(fields[i].key, fields[j].key))
      && forall i | 0 <= i < |fields| :: Ascending(fields[i].item)
    case _ => true
  }

  /** So canonical text lists the keys of every object in order, and means the same document. */
  lemma {:induction false} NormalAscends(v: Json)
    requires WellFormed(v)
    ensures Ascending(Normal(v)) && Same(v, Normal(v))
    decreases v
  {
    match v {
      case List(items) =>
        hide NormalItems;
        forall i | 0 <= i < |items| ensures Ascending(Normal(items[i])) && Same(items[i], Normal(items[i])) { NormalAscends(items[i]); }
      case Object(fields) =>
        FieldsAscend(fields);
      case _ =>
    }
  }

  lemma {:induction false} FieldsAscend(fields: seq<Field>)
    requires WellFormed(Object(fields))
    ensures Ascending(Object(Sort(NormalFields(fields)))) && Same(Object(fields), Object(Sort(NormalFields(fields))))
    decreases fields, 0
  {
    var plain := NormalFields(fields);
    var sorted := Sort(plain);
    SortSorts(plain);
    forall i | 0 <= i < |fields| ensures Ascending(plain[i].item) && SameField(fields[i], plain[i]) { NormalAscends(fields[i].item); }
    hide Normal, NormalFields, Sort, WellFormed, Less, SameField, Ascending;
    forall i | 0 <= i < |fields| ensures Matched(fields[i], sorted) {
      assert plain[i] in sorted;
      var j :| 0 <= j < |sorted| && sorted[j] == plain[i];
      assert SameField(fields[i], sorted[j]);
    }
    forall j | 0 <= j < |sorted| ensures MatchedIn(fields, sorted[j]) && Ascending(sorted[j].item) {
      assert sorted[j] in plain;
      var i :| 0 <= i < |plain| && plain[i] == sorted[j];
      assert SameField(fields[i], sorted[j]);
    }
    forall i, j | 0 <= i < j < |sorted| ensures Precedes(sorted[i].key, sorted[j].key) { LessIsPrecedes(sorted[i].key, sorted[j].key); }
    SortedAscends(sorted);
  }

  lemma SortedAscends(fields: seq<Field>)
    requires forall i, j | 0 <= i < j < |fields| :: Precedes(fields[i].key, fields[j].key)
    requires forall i | 0 <= i < |fields| :: Ascending(fields[i].item)
    ensures Ascending(Object(fields))
  {
  }
}
