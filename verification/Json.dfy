/** JSON values and the canonical form of RFC 8785 that events are signed over. */
module Json {
  import opened Sorting

  datatype Field = Field(key: string, value: Json)

  datatype Json =
    | Null
    | Bool(b: bool)
    | Num(n: int)
    | Str(s: string)
    | Arr(items: seq<Json>)
    | Obj(fields: seq<Field>)

  /** No object, at any depth, holds a key twice. */
  ghost predicate WellFormed(j: Json) {
    match j
    case Arr(items) => forall i | 0 <= i < |items| :: WellFormed(items[i])
    case Obj(fields) => Distinct(fields) && forall i | 0 <= i < |fields| :: WellFormed(fields[i].value)
    case _ => true
  }

  ghost predicate Distinct(fields: seq<Field>) {
    forall i, j | 0 <= i < j < |fields| :: fields[i].key != fields[j].key
  }

  // ----- Property order: section 3.2.3 compares names as UTF-16 code units -----

  /** A character's place in UTF-16 order: the supplementary planes are written with surrogates,
      which sort below U+E000. */
  function Utf16Rank(c: char): int {
    var x := c as int;
    if 0xE000 <= x <= 0xFFFF then x + 0x11_0000 else x
  }

  predicate KeyLe(a: string, b: string) {
    if a == [] then true
    else if b == [] then false
    else if a[0] == b[0] then KeyLe(a[1..], b[1..])
    else Utf16Rank(a[0]) < Utf16Rank(b[0])
  }

  lemma {:induction false} KeyLeTotal(a: string, b: string)
    ensures KeyLe(a, b) || KeyLe(b, a)
    ensures KeyLe(a, b) && KeyLe(b, a) ==> a == b
  {
    if a != [] && b != [] {
      if a[0] == b[0] {
        KeyLeTotal(a[1..], b[1..]);
        assert a == [a[0]] + a[1..] && b == [b[0]] + b[1..];
      } else {
        assert a[0] as int != b[0] as int;
      }
    }
  }

  lemma {:induction false} KeyLeTrans(a: string, b: string, c: string)
    requires KeyLe(a, b) && KeyLe(b, c)
    ensures KeyLe(a, c)
  {
    if a != [] && a[0] == b[0] == c[0] {
      KeyLeTrans(a[1..], b[1..], c[1..]);
    }
  }

  function FieldLe(): (Field, Field) -> bool {
    (f: Field, g: Field) => KeyLe(f.key, g.key)
  }

  lemma FieldLeOrders()
    ensures TotalPreorder(FieldLe())
  {
    forall f: Field, g: Field ensures FieldLe()(f, g) || FieldLe()(g, f) {
      KeyLeTotal(f.key, g.key);
    }
    forall f: Field, g: Field, h: Field | FieldLe()(f, g) && FieldLe()(g, h) ensures FieldLe()(f, h) {
      KeyLeTrans(f.key, g.key, h.key);
    }
  }

  // ----- The canonical form -----

  /** Sorts the properties of every object, at every depth. */
  function Canon(j: Json): Json {
    match j
    case Arr(items) => Arr(seq(|items|, i requires 0 <= i < |items| => Canon(items[i])))
    case Obj(fields) =>
      Obj(Sort(FieldLe(), seq(|fields|, i requires 0 <= i < |fields| => Field(fields[i].key, Canon(fields[i].value)))))
    case _ => j
  }

  function CanonFields(fields: seq<Field>): seq<Field> {
    seq(|fields|, i requires 0 <= i < |fields| => Field(fields[i].key, Canon(fields[i].value)))
  }

  /** The same value with the properties of its objects in another order, at any depth. */
  ghost predicate Reordered(a: Json, b: Json)
    decreases a
  {
    match a
    case Arr(x) => b.Arr? && |x| == |b.items| && forall i | 0 <= i < |x| :: Reordered(x[i], b.items[i])
    case Obj(f) =>
      && b.Obj?
      && (forall i | 0 <= i < |f| :: HasTwin(f[i], b.fields))
      && (forall j | 0 <= j < |b.fields| :: IsTwin(f, b.fields[j]))
    case _ => a == b
  }

  ghost predicate HasTwin(x: Field, g: seq<Field>)
    decreases x
  {
    exists j :: 0 <= j < |g| && x.key == g[j].key && Reordered(x.value, g[j].value)
  }

  ghost predicate IsTwin(f: seq<Field>, y: Field)
    decreases f
  {
    exists i :: 0 <= i < |f| && f[i].key == y.key && Reordered(f[i].value, y.value)
  }

  /** Two lists with the same fields, sorted, hold them in the same order. */
  lemma {:induction false} SortedFieldsEqual(f: seq<Field>, g: seq<Field>)
    requires Sorted(FieldLe(), f) && Sorted(FieldLe(), g) && Distinct(f) && Distinct(g)
    requires forall x :: x in f <==> x in g
    ensures f == g
  {
    if f == [] {
      Inhabited(g);
    } else {
      assert f[0] in g;
      assert f[0] in g && g[0] in f;
      var i :| 0 <= i < |g| && g[i] == f[0];
      var j :| 0 <= j < |f| && f[j] == g[0];
      assert i != 0 ==> FieldLe()(g[0], g[i]);
      assert j != 0 ==> FieldLe()(f[0], f[j]);
      KeyLeTotal(f[0].key, g[0].key);
      assert i == 0;
      forall x ensures x in f[1..] <==> x in g[1..] {
        assert x in f[1..] <==> x in f && x != f[0] by { DropFirst(f, x); }
        assert x in g[1..] <==> x in g && x != g[0] by { DropFirst(g, x); }
      }
      SortedFieldsEqual(f[1..], g[1..]);
      assert f == [f[0]] + f[1..] && g == [g[0]] + g[1..];
    }
  }

  lemma Inhabited(g: seq<Field>)
    ensures g == [] || exists x :: x in g
  {
    if g != [] {
      assert g[0] in g;
    }
  }

  lemma DropFirst(f: seq<Field>, x: Field)
    requires f != [] && Distinct(f)
    ensures x in f[1..] <==> x in f && x != f[0]
  {
    if x in f && x != f[0] {
      var i :| 0 <= i < |f| && f[i] == x;
      assert f[1..][i - 1] == x;
    }
    if x in f[1..] {
      var i :| 0 <= i < |f| - 1 && f[1..][i] == x;
      assert f[i + 1] == x;
    }
  }

  /** Sorting distinct fields depends on which fields there are, not on their order. */
  lemma SortsAgree(f: seq<Field>, g: seq<Field>)
    requires Distinct(f) && Distinct(g)
    ensures Sort(FieldLe(), f) == Sort(FieldLe(), g) <==> forall x :: x in f <==> x in g
  {
    FieldLeOrders();
    SortSorts(FieldLe(), f);
    SortSorts(FieldLe(), g);
    forall x ensures (x in Sort(FieldLe(), f) <==> x in f) && (x in Sort(FieldLe(), g) <==> x in g) {
      SortKeepsElements(FieldLe(), f, x);
      SortKeepsElements(FieldLe(), g, x);
    }
    if forall x :: x in f <==> x in g {
      SortKeepsDistinct(f);
      SortKeepsDistinct(g);
      SortedFieldsEqual(Sort(FieldLe(), f), Sort(FieldLe(), g));
    }
  }

  lemma SortKeepsDistinct(f: seq<Field>)
    requires Distinct(f)
    ensures Distinct(Sort(FieldLe(), f))
  {
    FieldLeOrders();
    SortSorts(FieldLe(), f);
    var s := Sort(FieldLe(), f);
    forall i, j | 0 <= i < j < |s| ensures s[i].key != s[j].key {
      assert s[i] in multiset(s) && s[j] in multiset(s);
      var a :| 0 <= a < |f| && f[a] == s[i];
      var b :| 0 <= b < |f| && f[b] == s[j];
      if a == b {
        TwiceInSequence(s, i, j);
        OnceInSequence(f, a);
        assert false;
      }
    }
  }

  lemma TwiceInSequence(s: seq<Field>, i: nat, j: nat)
    requires i < j < |s| && s[i] == s[j]
    ensures multiset(s)[s[i]] >= 2
  {
    assert s == s[..j] + s[j..];
    assert s[..j][i] == s[i] && s[j..][0] == s[i];
  }

  lemma OnceInSequence(f: seq<Field>, a: nat)
    requires a < |f| && Distinct(f)
    ensures multiset(f)[f[a]] == 1
  {
    assert f == f[..a] + [f[a]] + f[a + 1..];
    assert f[a] !in f[..a] && f[a] !in f[a + 1..];
  }

  lemma CanonOfObject(fields: seq<Field>)
    requires Distinct(fields)
    ensures Canon(Obj(fields)) == Obj(Sort(FieldLe(), CanonFields(fields))) && Distinct(CanonFields(fields))
  {
    assert CanonFields(fields) == seq(|fields|, i requires 0 <= i < |fields| => Field(fields[i].key, Canon(fields[i].value)));
  }

  /** Two well-formed values have the same canonical form exactly when one is a reordering of the
      other: a signature over it covers everything but property order. */
  lemma {:induction false} CanonIffReordered(a: Json, b: Json)
    requires WellFormed(a) && WellFormed(b)
    ensures Canon(a) == Canon(b) <==> Reordered(a, b)
    decreases a
  {
    match a
    case Arr(x) =>
      if b.Arr? && |b.items| == |x| {
        forall i | 0 <= i < |x| ensures Canon(x[i]) == Canon(b.items[i]) <==> Reordered(x[i], b.items[i]) {
          CanonIffReordered(x[i], b.items[i]);
        }
        assert forall i | 0 <= i < |x| :: Canon(a).items[i] == Canon(x[i]) && Canon(b).items[i] == Canon(b.items[i]);
        assert Reordered(a, b) ==> Canon(a).items == Canon(b).items;
      } else if b.Arr? {
        assert |Canon(a).items| != |Canon(b).items|;
      }
    case Obj(f) =>
      if b.Obj? {
        forall i, j | 0 <= i < |f| && 0 <= j < |b.fields|
          ensures Canon(f[i].value) == Canon(b.fields[j].value) <==> Reordered(f[i].value, b.fields[j].value)
        {
          CanonIffReordered(f[i].value, b.fields[j].value);
        }
        ObjectsAgree(f, b.fields);
      }
    case _ =>
  }

  /** The values of f and g are already known to agree as their canonical forms do. */
  ghost predicate ValuesAgree(f: seq<Field>, g: seq<Field>) {
    forall i, j | 0 <= i < |f| && 0 <= j < |g| ::
      Canon(f[i].value) == Canon(g[j].value) <==> Reordered(f[i].value, g[j].value)
  }

  lemma SameFieldsReordered(f: seq<Field>, g: seq<Field>)
    requires ValuesAgree(f, g) && forall x :: x in CanonFields(f) <==> x in CanonFields(g)
    ensures Reordered(Obj(f), Obj(g))
  {
    var cf, cg := CanonFields(f), CanonFields(g);
    forall i | 0 <= i < |f| ensures HasTwin(f[i], g) {
      assert cf[i] in cg;
      var j :| 0 <= j < |g| && cg[j] == cf[i];
      assert Reordered(f[i].value, g[j].value);
    }
    forall j | 0 <= j < |g| ensures IsTwin(f, g[j]) {
      assert cg[j] in cf;
      var i :| 0 <= i < |f| && cf[i] == cg[j];
      assert Reordered(f[i].value, g[j].value);
    }
  }

  lemma TwinInCanon(f: seq<Field>, g: seq<Field>, x: Field)
    requires ValuesAgree(f, g) && x in CanonFields(f) && forall i | 0 <= i < |f| :: HasTwin(f[i], g)
    ensures x in CanonFields(g)
  {
    var i :| 0 <= i < |f| && CanonFields(f)[i] == x;
    assert HasTwin(f[i], g);
    var j :| 0 <= j < |g| && f[i].key == g[j].key && Reordered(f[i].value, g[j].value);
    assert CanonFields(g)[j] == x;
  }

  lemma TwinnedInCanon(f: seq<Field>, g: seq<Field>, x: Field)
    requires ValuesAgree(f, g) && x in CanonFields(g) && forall j | 0 <= j < |g| :: IsTwin(f, g[j])
    ensures x in CanonFields(f)
  {
    var j :| 0 <= j < |g| && CanonFields(g)[j] == x;
    assert IsTwin(f, g[j]);
    var i :| 0 <= i < |f| && f[i].key == g[j].key && Reordered(f[i].value, g[j].value);
    assert CanonFields(f)[i] == x;
  }

  lemma ReorderedSameFields(f: seq<Field>, g: seq<Field>, x: Field)
    requires ValuesAgree(f, g) && Reordered(Obj(f), Obj(g))
    ensures x in CanonFields(f) <==> x in CanonFields(g)
  {
    if x in CanonFields(f) {
      TwinInCanon(f, g, x);
    } else if x in CanonFields(g) {
      TwinnedInCanon(f, g, x);
    }
  }

  lemma ObjectsAgree(f: seq<Field>, g: seq<Field>)
    requires Distinct(f) && Distinct(g) && ValuesAgree(f, g)
    ensures Canon(Obj(f)) == Canon(Obj(g)) <==> Reordered(Obj(f), Obj(g))
  {
    CanonOfObject(f);
    CanonOfObject(g);
    SortsAgree(CanonFields(f), CanonFields(g));
    if Reordered(Obj(f), Obj(g)) {
      forall x ensures x in CanonFields(f) <==> x in CanonFields(g) {
        ReorderedSameFields(f, g, x);
      }
    } else if Canon(Obj(f)) == Canon(Obj(g)) {
      SameFieldsReordered(f, g);
    }
  }

  // ----- The order is that of UTF-16 code units -----

  /** The code units of a character: itself, or a pair of surrogates. */
  function Units(c: char): seq<int> {
    var x := c as int;
    if x < 0x1_0000 then [x] else [0xD800 + (x - 0x1_0000) / 0x400, 0xDC00 + (x - 0x1_0000) % 0x400]
  }

  function Utf16(s: string): seq<int> {
    if s == [] then [] else Units(s[0]) + Utf16(s[1..])
  }

  /** Lexicographic order. */
  predicate LexLe(a: seq<int>, b: seq<int>) {
    if a == [] then true
    else if b == [] then false
    else if a[0] == b[0] then LexLe(a[1..], b[1..])
    else a[0] < b[0]
  }

  lemma {:induction false} LexPrefix(u: seq<int>, a: seq<int>, b: seq<int>)
    ensures LexLe(u + a, u + b) == LexLe(a, b)
  {
    if u == [] {
      assert u + a == a && u + b == b;
    } else {
      LexPrefix(u[1..], a, b);
      assert (u + a)[1..] == u[1..] + a && (u + b)[1..] == u[1..] + b;
    }
  }

  lemma UnitsDiffer(c: char, d: char, a: seq<int>, b: seq<int>)
    requires c != d
    ensures LexLe(Units(c) + a, Units(d) + b) <==> Utf16Rank(c) < Utf16Rank(d)
  {
    var u, v := Units(c) + a, Units(d) + b;
    assert c as int != d as int && u[0] == Units(c)[0] && v[0] == Units(d)[0];
    if u[0] == v[0] {
      assert u[1..][0] == Units(c)[1] && v[1..][0] == Units(d)[1];
    }
  }

  /** Names compare as section 3.2.3 of RFC 8785 has it: by their UTF-16 code units. */
  lemma {:induction false} KeyLeIsUtf16(a: string, b: string)
    ensures KeyLe(a, b) == LexLe(Utf16(a), Utf16(b))
  {
    if a != [] && b != [] {
      if a[0] == b[0] {
        KeyLeIsUtf16(a[1..], b[1..]);
        LexPrefix(Units(a[0]), Utf16(a[1..]), Utf16(b[1..]));
      } else {
        UnitsDiffer(a[0], b[0], Utf16(a[1..]), Utf16(b[1..]));
      }
    }
  }

  // ----- Canonical forms -----

  /** The properties of every object, at every depth, stand in the order of their names. */
  ghost predicate InOrder(j: Json) {
    match j
    case Arr(items) => forall i | 0 <= i < |items| :: InOrder(items[i])
    case Obj(fields) =>
      && (forall i, k | 0 <= i < k < |fields| :: LexLe(Utf16(fields[i].key), Utf16(fields[k].key)))
      && (forall i | 0 <= i < |fields| :: InOrder(fields[i].value))
    case _ => true
  }

  /** Canon puts every value in order, and every value in order is its own canonical form. */
  lemma {:induction false} CanonInOrder(j: Json)
    ensures InOrder(Canon(j))
    decreases j
  {
    match j
    case Arr(items) =>
      forall i | 0 <= i < |items| ensures InOrder(Canon(items[i])) {
        CanonInOrder(items[i]);
      }
    case Obj(fields) =>
      forall i | 0 <= i < |fields| ensures InOrder(Canon(fields[i].value)) {
        CanonInOrder(fields[i].value);
      }
      assert Canon(j) == Obj(Sort(FieldLe(), CanonFields(fields)));
      SortedInOrder(CanonFields(fields));
    case _ =>
  }

  lemma SortedInOrder(fields: seq<Field>)
    requires forall i | 0 <= i < |fields| :: InOrder(fields[i].value)
    ensures InOrder(Obj(Sort(FieldLe(), fields)))
  {
    var s := Sort(FieldLe(), fields);
    FieldLeOrders();
    SortSorts(FieldLe(), fields);
    forall i, k | 0 <= i < k < |s| ensures LexLe(Utf16(s[i].key), Utf16(s[k].key)) {
      assert FieldLe()(s[i], s[k]);
      KeyLeIsUtf16(s[i].key, s[k].key);
    }
    forall i | 0 <= i < |s| ensures InOrder(s[i].value) {
      SortKeepsElements(FieldLe(), fields, s[i]);
      assert s[i] in s;
    }
  }

  /** The same members in another order have the same canonical form. */
  lemma SameMembers(f: seq<Field>, g: seq<Field>)
    requires Distinct(f) && Distinct(g) && forall x :: x in f <==> x in g
    ensures Canon(Obj(f)) == Canon(Obj(g))
  {
    CanonOfObject(f);
    CanonOfObject(g);
    forall x ensures x in CanonFields(f) <==> x in CanonFields(g) {
      CanonMember(f, g, x);
      CanonMember(g, f, x);
    }
    SortsAgree(CanonFields(f), CanonFields(g));
  }

  lemma CanonMember(f: seq<Field>, g: seq<Field>, x: Field)
    requires forall y :: y in f <==> y in g
    ensures x in CanonFields(f) ==> x in CanonFields(g)
  {
    if x in CanonFields(f) {
      var i :| 0 <= i < |f| && CanonFields(f)[i] == x;
      assert f[i] in g;
      var j :| 0 <= j < |g| && g[j] == f[i];
      assert CanonFields(g)[j] == x;
    }
  }
}
