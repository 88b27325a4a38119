/** The versioned identity digest contract: refuse what the database twin refuses, else canonical JSON. */
module IdentityCanonical {
  import opened Options
  import opened JsonText
  import opened CanonicalJson

  datatype Refusal = BadString | UnsafeInteger | NonAsciiKey

  const MAX_SAFE_INTEGER := 0x1f_ffff_ffff_ffff

  /** Half of a surrogate pair without the other half. */
  predicate LoneAt(s: Text, i: nat)
    requires i < |s|
  {
    || (Lead(s[i]) && !(i + 1 < |s| && Trail(s[i + 1])))
    || (Trail(s[i]) && !(i > 0 && Lead(s[i - 1])))
  }

  predicate LoneSurrogate(s: Text) {
    exists i | 0 <= i < |s| :: LoneAt(s, i)
  }

  predicate AsciiKey(key: Text) {
    forall u | u in key :: 0 < u <= 0x7f
  }

  /** The first reason to refuse, in document order. */
  function CheckV1(v: Json): Option<Refusal> {
    match v
    case Null => None
    case Bool(_) => None
    case Str(s) => if LoneSurrogate(s) || 0 in s then Some(BadString) else None
    case Int(n) => if -MAX_SAFE_INTEGER <= n <= MAX_SAFE_INTEGER then None else Some(UnsafeInteger)
    case List(items) => CheckItems(items)
    case Object(fields) => CheckFields(fields)
  }

  function CheckItems(items: seq<Json>): Option<Refusal> {
    if items == [] then None
    else
      var first := CheckV1(items[0]);
      if first.Some? then first else CheckItems(items[1..])
  }

  function CheckFields(fields: seq<Field>): Option<Refusal> {
    if fields == [] then None
    else if !AsciiKey(fields[0].key) then Some(NonAsciiKey)
    else
      var first := CheckV1(fields[0].item);
      if first.Some? then first else CheckFields(fields[1..])
  }

  function IdentityCoreCanonicalV1(v: Json): Option<Text> {
    if CheckV1(v).Some? then None else Some(Canonical(v))
  }

  lemma {:induction false} ItemsAccepted(items: seq<Json>)
    ensures CheckItems(items).None? <==> forall i | 0 <= i < |items| :: CheckV1(items[i]).None?
  {
    hide CheckV1;
    if items != [] {
      ItemsAccepted(items[1..]);
      assert forall i | 0 < i < |items| :: items[i] == items[1..][i - 1];
    }
  }

  predicate FieldAccepted(f: Field) {
    AsciiKey(f.key) && CheckV1(f.item).None?
  }

  lemma {:induction false} FieldsAccepted(fields: seq<Field>)
    ensures CheckFields(fields).None? <==> forall i | 0 <= i < |fields| :: FieldAccepted(fields[i])
  {
    hide CheckV1, AsciiKey;
    if fields != [] {
      FieldsAccepted(fields[1..]);
      assert forall i | 0 < i < |fields| :: fields[i] == fields[1..][i - 1];
    }
  }

  /** Key order never decides whether a document is refused. */
  lemma {:induction false} SameAccepted(a: Json, b: Json)
    requires Same(a, b)
    ensures CheckV1(a).None? <==> CheckV1(b).None?
    decreases a, 0
  {
    hide CheckItems, CheckFields, Matched, MatchedIn, LoneSurrogate;
    if a.List? && b.List? {
      ItemsSameAccepted(a.items, b.items);
    } else if a.Object? && b.Object? {
      FieldsSameAccepted(a.fields, b.fields);
    }
  }

  lemma {:induction false} ItemsSameAccepted(x: seq<Json>, y: seq<Json>)
    requires |x| == |y| && forall i | 0 <= i < |x| :: Same(x[i], y[i])
    ensures CheckItems(x).None? <==> CheckItems(y).None?
    decreases x, 1
  {
    hide CheckV1, CheckItems, Same;
    ItemsAccepted(x);
    ItemsAccepted(y);
    forall i | 0 <= i < |x| ensures CheckV1(x[i]).None? <==> CheckV1(y[i]).None? {
      SameAccepted(x[i], y[i]);
    }
  }

  lemma {:induction false} FieldsSameAccepted(x: seq<Field>, y: seq<Field>)
    requires forall i | 0 <= i < |x| :: Matched(x[i], y)
    requires forall j | 0 <= j < |y| :: MatchedIn(x, y[j])
    ensures CheckFields(x).None? <==> CheckFields(y).None?
    decreases x, 1
  {
    hide CheckV1, CheckFields, Same, AsciiKey;
    FieldsAccepted(x);
    FieldsAccepted(y);
    forall i, j | 0 <= i < |x| && 0 <= j < |y| && SameField(x[i], y[j]) ensures FieldAccepted(x[i]) <==> FieldAccepted(y[j]) {
      SameAccepted(x[i].item, y[j].item);
    }
    hide SameField, FieldAccepted;
  }

  /** On the documents it accepts, the contract's text is their meaning and nothing else. */
  lemma V1IffSame(a: Json, b: Json)
    requires WellFormed(a) && WellFormed(b)
    requires IdentityCoreCanonicalV1(a).Some?
    ensures IdentityCoreCanonicalV1(a) == IdentityCoreCanonicalV1(b) <==> Same(a, b)
  {
    hide CheckV1, Same, Canonical, WellFormed;
    CanonicalIffSame(a, b);
    if Same(a, b) {
      SameAccepted(a, b);
    }
  }

  // ---- what is accepted ----

  /** Surrogates only in pairs, a leading one and then a trailing one. */
  predicate WellPaired(s: Text) {
    || s == []
    || (!Lead(s[0]) && !Trail(s[0]) && WellPaired(s[1..]))
    || (|s| >= 2 && Lead(s[0]) && Trail(s[1]) && WellPaired(s[2..]))
  }

  lemma {:induction false} LoneIffNotWellPaired(s: Text)
    ensures LoneSurrogate(s) <==> !WellPaired(s)
    decreases |s|
  {
    if s != [] {
      if |s| >= 2 && Lead(s[0]) && Trail(s[1]) {
        LoneIffNotWellPaired(s[2..]);
        LoneShifts(s, 2);
      } else if !Lead(s[0]) && !Trail(s[0]) {
        LoneIffNotWellPaired(s[1..]);
        LoneShifts(s, 1);
      } else {
        assert LoneAt(s, 0);
      }
    }
  }

  /** After a whole character, a unit is alone exactly when it is alone in the rest. */
  lemma LoneShifts(s: Text, n: nat)
    requires n == (if |s| >= 2 && Lead(s[0]) && Trail(s[1]) then 2 else 1) && n <= |s|
    requires n == 1 ==> !Lead(s[0]) && !Trail(s[0])
    ensures LoneSurrogate(s) <==> LoneSurrogate(s[n..])
  {
    forall i: nat | i < |s| - n ensures LoneAt(s[n..], i) <==> LoneAt(s, i + n) {}
    forall i: nat | i < n ensures !LoneAt(s, i) {}
    if LoneSurrogate(s) {
      var i :| 0 <= i < |s| && LoneAt(s, i);
      assert LoneAt(s[n..], i - n);
    }
    if LoneSurrogate(s[n..]) {
      var i :| 0 <= i < |s[n..]| && LoneAt(s[n..], i);
      assert LoneAt(s, i + n);
    }
  }

  /** The documents the contract is for. */
  ghost predicate InDomain(v: Json) {
    match v
    case Str(s) => WellPaired(s) && forall u | u in s :: u != 0
    case Int(n) => -0x20_0000_0000_0000 < n < 0x20_0000_0000_0000
    case List(items) => forall i | 0 <= i < |items| :: InDomain(items[i])
    case Object(fields) => forall i | 0 <= i < |fields| :: FieldInDomain(fields[i])
    case _ => true
  }

  ghost predicate FieldInDomain(f: Field) {
    (forall u | u in f.key :: 1 <= u <= 127) && InDomain(f.item)
  }

  /** Accepted exactly: paired surrogates and no NUL in strings, integers that are exact as doubles,
      keys of ASCII without NUL, at every depth. */
  lemma {:induction false} AcceptedExactlyWhen(v: Json)
    ensures CheckV1(v).None? <==> InDomain(v)
    decreases v
  {
    match v {
      case Str(s) => LoneIffNotWellPaired(s);
      case List(items) =>
        ItemsAccepted(items);
        hide CheckItems;
        forall i | 0 <= i < |items| ensures CheckV1(items[i]).None? <==> InDomain(items[i]) { AcceptedExactlyWhen(items[i]); }
      case Object(fields) =>
        FieldsAccepted(fields);
        hide CheckFields;
        forall i | 0 <= i < |fields| ensures FieldAccepted(fields[i]) <==> FieldInDomain(fields[i]) { AcceptedExactlyWhen(fields[i].item); }
      case _ =>
    }
  }
}
