/** Canonical JSON: object keys sorted at every depth, everything else as JSON prints it. */
module CanonicalJson {
  import opened JsonText
  import opened Options

  /** A key with whatever goes with it. */
  datatype Keyed<T> = Keyed(key: Text, item: T)

  type Field = Keyed<Json>

  /** A document. Objects list their fields in the order the object happens to have. */
  datatype Json =
    | Null
    | Bool(b: bool)
    | Int(n: int)
    | Str(s: Text)
    | List(items: seq<Json>)
    | Object(fields: seq<Keyed<Json>>)

  ghost predicate DistinctKeys(fields: seq<Field>) {
    forall i, j | 0 <= i < j < |fields| :: fields[i].key != fields[j].key
  }

  /** No object anywhere has one key twice. */
  ghost predicate WellFormed(v: Json) {
    match v
    case List(items) => forall i | 0 <= i < |items| :: WellFormed(items[i])
    case Object(fields) => DistinctKeys(fields) && forall i | 0 <= i < |fields| :: WellFormed(fields[i].item)
    case _ => true
  }

  // ---- sorting by key ----

  predicate Less(a: Text, b: Text) {
    b != [] && (a == [] || a[0] < b[0] || (a[0] == b[0] && Less(a[1..], b[1..])))
  }

  lemma {:induction false} LessTotal(a: Text, b: Text)
    ensures a == b || Less(a, b) || Less(b, a)
    ensures !(Less(a, b) && Less(b, a)) && !Less(a, a)
  {
    if a != [] && b != [] {
      LessTotal(a[1..], b[1..]);
      LessTotal(a[1..], a[1..]);
      assert a == [a[0]] + a[1..] && b == [b[0]] + b[1..];
    } else if a != [] {
      LessTotal(a[1..], a[1..]);
    }
  }

  lemma {:induction false} LessTransitive(a: Text, b: Text, c: Text)
    requires Less(a, b) && Less(b, c)
    ensures Less(a, c)
  {
    if a != [] && a[0] == b[0] == c[0] {
      LessTransitive(a[1..], b[1..], c[1..]);
    }
  }

  function Insert<T>(x: Keyed<T>, xs: seq<Keyed<T>>): seq<Keyed<T>> {
    if xs == [] || !Less(xs[0].key, x.key) then [x] + xs else [xs[0]] + Insert(x, xs[1..])
  }

  function Sort<T>(xs: seq<Keyed<T>>): seq<Keyed<T>> {
    if xs == [] then [] else Insert(xs[0], Sort(xs[1..]))
  }

  // ---- the encoding ----

  function Join(texts: seq<Text>): Text {
    if texts == [] then []
    else if |texts| == 1 then texts[0]
    else texts[0] + [COMMA] + Join(texts[1..])
  }

  function Member(key: Text, value: Text): Text {
    Quoted(key) + [COLON] + value
  }

  function Members(fields: seq<Keyed<Text>>): (r: seq<Text>)
    ensures |r| == |fields|
  {
    seq(|fields|, i requires 0 <= i < |fields| => Member(fields[i].key, fields[i].item))
  }

  const NULL: Text := [0x6e, 0x75, 0x6c, 0x6c]
  const TRUE: Text := [0x74, 0x72, 0x75, 0x65]
  const FALSE: Text := [0x66, 0x61, 0x6c, 0x73, 0x65]

  function Canonical(v: Json): Text {
    match v
    case Null => NULL
    case Bool(b) => if b then TRUE else FALSE
    case Int(n) => Integer(n)
    case Str(s) => Quoted(s)
    case List(items) => [OPEN_LIST] + Join(CanonicalItems(items)) + [CLOSE_LIST]
    case Object(fields) => [OPEN_OBJECT] + Join(Members(Sort(CanonicalFields(fields)))) + [CLOSE_OBJECT]
  }

  function CanonicalItems(items: seq<Json>): (r: seq<Text>)
    ensures |r| == |items|
  {
    if items == [] then [] else [Canonical(items[0])] + CanonicalItems(items[1..])
  }

  function CanonicalFields(fields: seq<Field>): (r: seq<Keyed<Text>>)
    ensures |r| == |fields|
  {
    if fields == [] then [] else [Keyed(fields[0].key, Canonical(fields[0].item))] + CanonicalFields(fields[1..])
  }

  // ---- the same meaning ----

  /** Equal but for the order in which objects list their fields. */
  ghost predicate Same(a: Json, b: Json) {
    match (a, b)
    case (List(x), List(y)) => |x| == |y| && forall i | 0 <= i < |x| :: Same(x[i], y[i])
    case (Object(x), Object(y)) =>
      && (forall i | 0 <= i < |x| :: Matched(x[i], y))
      && (forall j | 0 <= j < |y| :: MatchedIn(x, y[j]))
    case _ => a == b
  }

  ghost predicate SameField(f: Field, g: Field)
    decreases f, 0
  {
    f.key == g.key && Same(f.item, g.item)
  }

  ghost predicate Matched(f: Field, ys: seq<Field>)
    decreases f, 1
  {
    exists j :: 0 <= j < |ys| && SameField(f, ys[j])
  }

  ghost predicate MatchedIn(xs: seq<Field>, g: Field)
    decreases xs, 1
  {
    exists i :: 0 <= i < |xs| && SameField(xs[i], g)
  }

  // ---- printing without sorting reads back one way ----

  function Plain(v: Json): Text {
    match v
    case Null => NULL
    case Bool(b) => if b then TRUE else FALSE
    case Int(n) => Integer(n)
    case Str(s) => Quoted(s)
    case List(items) => [OPEN_LIST] + (Join(PlainItems(items)) + [CLOSE_LIST])
    case Object(fields) => [OPEN_OBJECT] + (Join(Members(PlainFields(fields))) + [CLOSE_OBJECT])
  }

  function PlainItems(items: seq<Json>): (r: seq<Text>)
    ensures |r| == |items|
  {
    if items == [] then [] else [Plain(items[0])] + PlainItems(items[1..])
  }

  function PlainFields(fields: seq<Field>): (r: seq<Keyed<Text>>)
    ensures |r| == |fields|
  {
    if fields == [] then [] else [Keyed(fields[0].key, Plain(fields[0].item))] + PlainFields(fields[1..])
  }

  /** The first code unit tells what kind of value follows. */
  function KindOf(u: Unit): int {
    if u == NULL[0] then 1
    else if u == TRUE[0] then 2
    else if u == FALSE[0] then 3
    else if IsDigit(u) || u == MINUS then 4
    else if u == QUOTE then 5
    else if u == OPEN_LIST then 6
    else if u == OPEN_OBJECT then 7
    else 0
  }

  function Kind(v: Json): int {
    match v
    case Null => 1
    case Bool(b) => if b then 2 else 3
    case Int(_) => 4
    case Str(_) => 5
    case List(_) => 6
    case Object(_) => 7
  }

  lemma PlainStarts(v: Json, r: Text)
    ensures Plain(v) != [] && (Plain(v) + r)[0] == Plain(v)[0] && KindOf(Plain(v)[0]) == Kind(v)
  {
    hide Join, Members, Escape;
  }

  /** What follows the head of a list of texts. */
  function Rest(texts: seq<Text>, close: Unit, r: Text): Text
    requires texts != []
  {
    if |texts| == 1 then [close] + r else [COMMA] + (Join(texts[1..]) + [close] + r)
  }

  lemma JoinSplits(texts: seq<Text>, close: Unit, r: Text)
    requires texts != []
    ensures Join(texts) + [close] + r == texts[0] + Rest(texts, close, r)
  {
    if |texts| > 1 {
      var more := Join(texts[1..]);
      assert texts[0] + [COMMA] + more + [close] + r == texts[0] + ([COMMA] + (more + [close] + r));
    }
  }

  lemma RestsAgree(x: seq<Text>, r: Text, y: seq<Text>, r': Text, close: Unit)
    requires x != [] && y != [] && close != COMMA
    requires Rest(x, close, r) == Rest(y, close, r')
    ensures Join(x[1..]) + [close] + r == Join(y[1..]) + [close] + r'
    ensures |x| == 1 <==> |y| == 1
  {
    hide Join;
    var p, q := Rest(x, close, r), Rest(y, close, r');
    assert p[0] == q[0];
    if |x| == 1 {
      assert r == p[1..] && r' == q[1..];
      assert x[1..] == [] && y[1..] == [];
    } else {
      assert Join(x[1..]) + [close] + r == p[1..];
      assert Join(y[1..]) + [close] + r' == q[1..];
    }
  }

  lemma {:induction false} PlainAgree(a: Json, r: Text, b: Json, r': Text)
    requires Plain(a) + r == Plain(b) + r' && Ends(r) && Ends(r')
    ensures a == b && r == r'
    decreases a
  {
    PlainStarts(a, r);
    PlainStarts(b, r');
    match a {
      case Null => AppendCancels(Plain(a), r, Plain(b), r');
      case Bool(_) => AppendCancels(Plain(a), r, Plain(b), r');
      case Int(n) => IntegersAgree(n, r, b.n, r');
      case Str(s) => QuotedAgree(s, r, b.s, r');
      case List(items) =>
        hide Plain, PlainItems, Join, Ends;
        ListText(items, r);
        ListText(b.items, r');
        var x, y := Join(PlainItems(items)) + [CLOSE_LIST] + r, Join(PlainItems(b.items)) + [CLOSE_LIST] + r';
        assert ([OPEN_LIST] + x)[1..] == x && ([OPEN_LIST] + y)[1..] == y;
        ItemsAgree(items, r, b.items, r');
      case Object(fields) =>
        hide Plain, PlainFields, Members, Join, Ends;
        ObjectText(fields, r);
        ObjectText(b.fields, r');
        var x := Join(Members(PlainFields(fields))) + [CLOSE_OBJECT] + r;
        var y := Join(Members(PlainFields(b.fields))) + [CLOSE_OBJECT] + r';
        assert ([OPEN_OBJECT] + x)[1..] == x && ([OPEN_OBJECT] + y)[1..] == y;
        FieldsAgree(fields, r, b.fields, r');
    }
  }

  lemma ListText(items: seq<Json>, r: Text)
    ensures Plain(List(items)) + r == [OPEN_LIST] + (Join(PlainItems(items)) + [CLOSE_LIST] + r)
  {
  }

  lemma ObjectText(fields: seq<Field>, r: Text)
    ensures Plain(Object(fields)) + r == [OPEN_OBJECT] + (Join(Members(PlainFields(fields))) + [CLOSE_OBJECT] + r)
  {
  }

  /** An empty list closes at once; a member never starts with the closing unit. */
  lemma ItemsStart(items: seq<Json>, r: Text)
    ensures var text := Join(PlainItems(items)) + [CLOSE_LIST] + r;
            text[0] == CLOSE_LIST <==> items == []
  {
    if items == [] {
      assert PlainItems(items) == [] && Join([]) == [];
    } else {
      JoinSplits(PlainItems(items), CLOSE_LIST, r);
      PlainStarts(items[0], Rest(PlainItems(items), CLOSE_LIST, r));
    }
  }

  lemma {:induction false} ItemsAgree(x: seq<Json>, r: Text, y: seq<Json>, r': Text)
    requires Join(PlainItems(x)) + [CLOSE_LIST] + r == Join(PlainItems(y)) + [CLOSE_LIST] + r'
    ensures x == y && r == r'
    decreases x
  {
    ItemsStart(x, r);
    ItemsStart(y, r');
    hide Plain, Join;
    var p, q := PlainItems(x), PlainItems(y);
    if x == [] {
      assert Join(p) + [CLOSE_LIST] + r == Join([]) + [CLOSE_LIST] + r;
      AppendCancels(Join([]) + [CLOSE_LIST], r, Join([]) + [CLOSE_LIST], r');
    } else {
      JoinSplits(p, CLOSE_LIST, r);
      JoinSplits(q, CLOSE_LIST, r');
      PlainAgree(x[0], Rest(p, CLOSE_LIST, r), y[0], Rest(q, CLOSE_LIST, r'));
      RestsAgree(p, r, q, r', CLOSE_LIST);
      assert p[1..] == PlainItems(x[1..]) && q[1..] == PlainItems(y[1..]);
      ItemsAgree(x[1..], r, y[1..], r');
      assert x == [x[0]] + x[1..] && y == [y[0]] + y[1..];
    }
  }

  lemma MembersTail(fields: seq<Keyed<Text>>)
    requires fields != []
    ensures Members(fields)[1..] == Members(fields[1..])
    ensures Members(fields)[0] == Member(fields[0].key, fields[0].item)
  {
  }

  lemma FieldsStart(fields: seq<Field>, r: Text)
    ensures var text := Join(Members(PlainFields(fields))) + [CLOSE_OBJECT] + r;
            text[0] == CLOSE_OBJECT <==> fields == []
  {
    hide Plain, Escape;
    var m := Members(PlainFields(fields));
    if fields == [] {
      assert m == [] && Join([]) == [];
    } else {
      JoinSplits(m, CLOSE_OBJECT, r);
      MembersTail(PlainFields(fields));
      assert m[0][0] == QUOTE;
    }
  }

  lemma MemberSplits(key: Text, value: Text, r: Text)
    ensures Member(key, value) + r == Quoted(key) + ([COLON] + (value + r))
  {
    hide Quoted;
  }

  lemma {:induction false} FieldsAgree(x: seq<Field>, r: Text, y: seq<Field>, r': Text)
    requires Join(Members(PlainFields(x))) + [CLOSE_OBJECT] + r == Join(Members(PlainFields(y))) + [CLOSE_OBJECT] + r'
    ensures x == y && r == r'
    decreases x
  {
    FieldsStart(x, r);
    FieldsStart(y, r');
    hide Plain, Join, Quoted, Members, Member;
    var f, g := PlainFields(x), PlainFields(y);
    var p, q := Members(f), Members(g);
    if x == [] {
      AppendCancels(Join(Members([])) + [CLOSE_OBJECT], r, Join(Members([])) + [CLOSE_OBJECT], r');
    } else {
      JoinSplits(p, CLOSE_OBJECT, r);
      JoinSplits(q, CLOSE_OBJECT, r');
      MembersTail(f);
      MembersTail(g);
      var u, v := Rest(p, CLOSE_OBJECT, r), Rest(q, CLOSE_OBJECT, r');
      MemberSplits(x[0].key, f[0].item, u);
      MemberSplits(y[0].key, g[0].item, v);
      var s, t := f[0].item + u, g[0].item + v;
      QuotedAgree(x[0].key, [COLON] + s, y[0].key, [COLON] + t);
      assert ([COLON] + s)[1..] == s && ([COLON] + t)[1..] == t;
      PlainAgree(x[0].item, u, y[0].item, v);
      RestsAgree(p, r, q, r', CLOSE_OBJECT);
      assert f[1..] == PlainFields(x[1..]) && g[1..] == PlainFields(y[1..]);
      FieldsAgree(x[1..], r, y[1..], r');
      assert x == [x[0]] + x[1..] && y == [y[0]] + y[1..];
    }
  }

  // ---- sorting once and for all ----

  /** Every object's fields in key order, at every depth. */
  function Normal(v: Json): Json {
    match v
    case List(items) => List(NormalItems(items))
    case Object(fields) => Object(Sort(NormalFields(fields)))
    case _ => v
  }

  function NormalItems(items: seq<Json>): (r: seq<Json>)
    ensures |r| == |items| && forall i | 0 <= i < |r| :: r[i] == Normal(items[i])
  {
    if items == [] then [] else [Normal(items[0])] + NormalItems(items[1..])
  }

  function NormalFields(fields: seq<Field>): (r: seq<Field>)
    ensures |r| == |fields| && forall i | 0 <= i < |r| :: r[i] == Keyed(fields[i].key, Normal(fields[i].item))
  {
    if fields == [] then [] else [Keyed(fields[0].key, Normal(fields[0].item))] + NormalFields(fields[1..])
  }

  lemma {:induction false} InsertThenPrint(x: Field, xs: seq<Field>)
    ensures PlainFields(Insert(x, xs)) == Insert(Keyed(x.key, Plain(x.item)), PlainFields(xs))
  {
    hide Plain, Less;
    if xs == [] || !Less(xs[0].key, x.key) {
      assert Insert(x, xs)[1..] == xs;
    } else {
      InsertThenPrint(x, xs[1..]);
      assert Insert(x, xs)[1..] == Insert(x, xs[1..]);
      assert PlainFields(xs)[1..] == PlainFields(xs[1..]);
    }
  }

  lemma {:induction false} SortThenPrint(xs: seq<Field>)
    ensures PlainFields(Sort(xs)) == Sort(PlainFields(xs))
  {
    hide Plain, Insert;
    if xs != [] {
      SortThenPrint(xs[1..]);
      InsertThenPrint(xs[0], Sort(xs[1..]));
      assert PlainFields(xs)[1..] == PlainFields(xs[1..]);
    }
  }

  lemma {:induction false} CanonicalPrintsNormal(v: Json)
    ensures Canonical(v) == Plain(Normal(v))
    decreases v
  {
    match v {
      case List(items) =>
        ItemsPrintNormal(items);
        hide Join, CanonicalItems, PlainItems, NormalItems;
        var j := Join(CanonicalItems(items));
        assert [OPEN_LIST] + j + [CLOSE_LIST] == [OPEN_LIST] + (j + [CLOSE_LIST]);
      case Object(fields) =>
        FieldsPrintNormal(fields);
        SortThenPrint(NormalFields(fields));
        hide Join, Members, CanonicalFields, PlainFields, NormalFields, Sort;
        var j := Join(Members(Sort(CanonicalFields(fields))));
        assert [OPEN_OBJECT] + j + [CLOSE_OBJECT] == [OPEN_OBJECT] + (j + [CLOSE_OBJECT]);
      case _ =>
    }
  }

  lemma {:induction false} ItemsPrintNormal(items: seq<Json>)
    ensures CanonicalItems(items) == PlainItems(NormalItems(items))
    decreases items
  {
    hide Canonical, Plain, Normal;
    if items != [] {
      CanonicalPrintsNormal(items[0]);
      ItemsPrintNormal(items[1..]);
      assert NormalItems(items)[1..] == NormalItems(items[1..]);
    }
  }

  lemma {:induction false} FieldsPrintNormal(fields: seq<Field>)
    ensures CanonicalFields(fields) == PlainFields(NormalFields(fields))
    decreases fields
  {
    hide Canonical, Plain, Normal;
    if fields != [] {
      CanonicalPrintsNormal(fields[0].item);
      FieldsPrintNormal(fields[1..]);
      assert NormalFields(fields)[1..] == NormalFields(fields[1..]);
    }
  }

  // ---- a sorted sequence is determined by its members ----

  ghost predicate Strict<T(!new)>(xs: seq<Keyed<T>>) {
    forall i, j | 0 <= i < j < |xs| :: Less(xs[i].key, xs[j].key)
  }

  ghost predicate SameMembers<T(!new)>(xs: seq<Keyed<T>>, ys: seq<Keyed<T>>) {
    forall x :: x in xs <==> x in ys
  }

  lemma {:induction false} InsertMembers<T(!new)>(x: Keyed<T>, xs: seq<Keyed<T>>)
    ensures forall y :: y in Insert(x, xs) <==> y == x || y in xs
  {
    hide Less;
    if !(xs == [] || !Less(xs[0].key, x.key)) {
      InsertMembers(x, xs[1..]);
      assert xs == [xs[0]] + xs[1..];
    }
  }

  lemma {:induction false} InsertKeepsStrict<T(!new)>(x: Keyed<T>, xs: seq<Keyed<T>>)
    requires Strict(xs) && forall y | y in xs :: y.key != x.key
    ensures Strict(Insert(x, xs))
  {
    hide Less;
    if xs == [] {
    } else if !Less(xs[0].key, x.key) {
      LessTotal(xs[0].key, x.key);
      assert xs[0] in xs;
      forall j | 0 <= j < |xs| ensures Less(x.key, xs[j].key) {
        if j > 0 { LessTransitive(x.key, xs[0].key, xs[j].key); }
      }
    } else {
      var rest := Insert(x, xs[1..]);
      InsertKeepsStrict(x, xs[1..]);
      InsertMembers(x, xs[1..]);
      assert Insert(x, xs) == [xs[0]] + rest;
      forall j | 0 <= j < |rest| ensures Less(xs[0].key, rest[j].key) {
        assert rest[j] in rest;
        if rest[j] != x {
          var k :| 0 <= k < |xs[1..]| && xs[1..][k] == rest[j];
          assert xs[k + 1] == rest[j];
        }
      }
    }
  }

  ghost predicate DistinctlyKeyed<T(!new)>(xs: seq<Keyed<T>>) {
    forall i, j | 0 <= i < j < |xs| :: xs[i].key != xs[j].key
  }

  lemma {:induction false} SortSorts<T(!new)>(xs: seq<Keyed<T>>)
    requires DistinctlyKeyed(xs)
    ensures Strict(Sort(xs)) && SameMembers(Sort(xs), xs)
  {
    hide Less, Insert;
    if xs != [] {
      SortSorts(xs[1..]);
      InsertMembers(xs[0], Sort(xs[1..]));
      forall y | y in Sort(xs[1..]) ensures y.key != xs[0].key {
        assert y in xs[1..];
        var k :| 0 <= k < |xs[1..]| && xs[1..][k] == y;
        assert xs[k + 1].key != xs[0].key;
      }
      InsertKeepsStrict(xs[0], Sort(xs[1..]));
      assert xs == [xs[0]] + xs[1..];
    }
  }

  lemma FirstIsLeast<T(!new)>(xs: seq<Keyed<T>>, y: Keyed<T>)
    requires Strict(xs) && xs != [] && y in xs
    ensures y == xs[0] || Less(xs[0].key, y.key)
  {
    var k :| 0 <= k < |xs| && xs[k] == y;
  }

  lemma TailMembers<T(!new)>(xs: seq<Keyed<T>>)
    requires Strict(xs) && xs != []
    ensures Strict(xs[1..])
    ensures forall y :: y in xs[1..] <==> y in xs && y != xs[0]
  {
    hide Less;
    LessTotal(xs[0].key, xs[0].key);
    assert xs == [xs[0]] + xs[1..];
    forall y | y in xs[1..] ensures y != xs[0] {
      var k :| 0 <= k < |xs[1..]| && xs[1..][k] == y;
      assert Less(xs[0].key, xs[k + 1].key);
    }
  }

  lemma HeadIsMember<T(!new)>(xs: seq<T>)
    ensures xs != [] ==> xs[0] in xs
  {
  }

  lemma {:induction false} SortedIsUnique<T(!new)>(xs: seq<Keyed<T>>, ys: seq<Keyed<T>>)
    requires Strict(xs) && Strict(ys) && SameMembers(xs, ys)
    ensures xs == ys
  {
    hide Less, Strict;
    if xs == [] {
      HeadIsMember(ys);
    } else {
      assert xs[0] in ys;
      FirstIsLeast(ys, xs[0]);
      assert ys[0] in xs;
      FirstIsLeast(xs, ys[0]);
      LessTotal(xs[0].key, ys[0].key);
      TailMembers(xs);
      TailMembers(ys);
      SortedIsUnique(xs[1..], ys[1..]);
      assert xs == [xs[0]] + xs[1..] && ys == [ys[0]] + ys[1..];
    }
  }

  lemma SortsAlikeIffSameMembers<T(!new)>(xs: seq<Keyed<T>>, ys: seq<Keyed<T>>)
    requires DistinctlyKeyed(xs) && DistinctlyKeyed(ys)
    ensures Sort(xs) == Sort(ys) <==> SameMembers(xs, ys)
  {
    SortSorts(xs);
    SortSorts(ys);
    if SameMembers(xs, ys) {
      SortedIsUnique(Sort(xs), Sort(ys));
    }
  }

  // ---- canonical text is meaning ----

  lemma {:induction false} NormalIffSame(a: Json, b: Json)
    requires WellFormed(a) && WellFormed(b)
    ensures Normal(a) == Normal(b) <==> Same(a, b)
    decreases a, 0
  {
    hide NormalItems, NormalFields, Sort, Matched, MatchedIn, WellFormed;
    if a.List? && b.List? {
      ItemsAlike(a.items, b.items);
    } else if a.Object? && b.Object? {
      ObjectsAlike(a.fields, b.fields);
    }
  }

  lemma {:induction false} ItemsAlike(x: seq<Json>, y: seq<Json>)
    requires WellFormed(List(x)) && WellFormed(List(y))
    ensures NormalItems(x) == NormalItems(y) <==> |x| == |y| && forall i | 0 <= i < |x| :: Same(x[i], y[i])
    decreases x, 2
  {
    hide NormalItems, Same, Normal;
    if |x| == |y| {
      forall i | 0 <= i < |x| ensures Normal(x[i]) == Normal(y[i]) <==> Same(x[i], y[i]) {
        NormalIffSame(x[i], y[i]);
      }
      ListsAlike(x, y);
    }
  }

  lemma {:induction false} ObjectsAlike(x: seq<Field>, y: seq<Field>)
    requires WellFormed(Object(x)) && WellFormed(Object(y))
    ensures Sort(NormalFields(x)) == Sort(NormalFields(y))
       <==> (forall i | 0 <= i < |x| :: Matched(x[i], y)) && forall j | 0 <= j < |y| :: MatchedIn(x, y[j])
    decreases x, 2
  {
    hide Sort, Matched, MatchedIn, SameMembers, Normal;
    var p, q := NormalFields(x), NormalFields(y);
    SortsAlikeIffSameMembers(p, q);
    MembersByIndex(p, q);
    forall i | 0 <= i < |x| ensures Matched(x[i], y) <==> p[i] in q {
      MatchedIffIn(x[i], y);
    }
    forall j | 0 <= j < |y| ensures MatchedIn(x, y[j]) <==> q[j] in p {
      MatchedInIffIn(x, y[j]);
    }
    hide NormalFields, WellFormed;
  }

  lemma ListsAlike(x: seq<Json>, y: seq<Json>)
    requires |x| == |y|
    ensures NormalItems(x) == NormalItems(y) <==> forall i | 0 <= i < |x| :: Normal(x[i]) == Normal(y[i])
  {
    hide Normal;
    if NormalItems(x) == NormalItems(y) {
      forall i | 0 <= i < |x| ensures Normal(x[i]) == Normal(y[i]) {
        assert NormalItems(x)[i] == NormalItems(y)[i];
      }
    }
  }

  lemma {:induction false} MatchedIffIn(f: Field, ys: seq<Field>)
    requires WellFormed(f.item) && forall j | 0 <= j < |ys| :: WellFormed(ys[j].item)
    ensures Matched(f, ys) <==> Keyed(f.key, Normal(f.item)) in NormalFields(ys)
    decreases f, 1
  {
    var q, z := NormalFields(ys), Keyed(f.key, Normal(f.item));
    forall j | 0 <= j < |ys| ensures SameField(f, ys[j]) <==> z == q[j] {
      NormalIffSame(f.item, ys[j].item);
    }
    hide Normal, NormalFields, SameField, WellFormed;
    if Matched(f, ys) {
      var j :| 0 <= j < |ys| && SameField(f, ys[j]);
      assert z == q[j];
    }
    if z in q {
      var j :| 0 <= j < |q| && q[j] == z;
      assert SameField(f, ys[j]);
    }
  }

  lemma {:induction false} MatchedInIffIn(xs: seq<Field>, g: Field)
    requires WellFormed(g.item) && forall i | 0 <= i < |xs| :: WellFormed(xs[i].item)
    ensures MatchedIn(xs, g) <==> Keyed(g.key, Normal(g.item)) in NormalFields(xs)
    decreases xs, 1
  {
    var p, z := NormalFields(xs), Keyed(g.key, Normal(g.item));
    forall i | 0 <= i < |xs| ensures SameField(xs[i], g) <==> p[i] == z {
      NormalIffSame(xs[i].item, g.item);
    }
    hide Normal, NormalFields, SameField, WellFormed;
    if MatchedIn(xs, g) {
      var i :| 0 <= i < |xs| && SameField(xs[i], g);
      assert z == p[i];
    }
    if z in p {
      var i :| 0 <= i < |p| && p[i] == z;
      assert SameField(xs[i], g);
    }
  }

  lemma MembersByIndex<T(!new)>(p: seq<Keyed<T>>, q: seq<Keyed<T>>)
    ensures SameMembers(p, q) <==> (forall i | 0 <= i < |p| :: p[i] in q) && forall j | 0 <= j < |q| :: q[j] in p
  {
  }

  /** Two documents have one canonical text exactly when they mean the same: key order never shows,
      and anything else always does. */
  lemma CanonicalIffSame(a: Json, b: Json)
    requires WellFormed(a) && WellFormed(b)
    ensures Canonical(a) == Canonical(b) <==> Same(a, b)
  {
    hide Plain, Normal, Canonical, Same, WellFormed;
    CanonicalPrintsNormal(a);
    CanonicalPrintsNormal(b);
    NormalIffSame(a, b);
    if Canonical(a) == Canonical(b) {
      assert Plain(Normal(a)) + [] == Plain(Normal(b)) + [];
      PlainAgree(Normal(a), [], Normal(b), []);
    }
  }
}
