/** The load-time patterns as regular expressions, and that the predicates of the policy modules
    accept exactly their languages. */
module Regex {
  import opened Strings
  import opened Policy
  import NotifyPolicy
  import Notify

  /** The part of the regexp syntax the patterns use; a pattern matches whole strings. */
  datatype Re = Eps | Class(p: char -> bool) | Cat(a: Re, b: Re) | Alt(a: Re, b: Re) | Star(a: Re)

  ghost predicate Matches(r: Re, s: string)
    decreases r, |s|, 1
  {
    match r
    case Eps => s == ""
    case Class(p) => |s| == 1 && p(s[0])
    case Cat(a, b) => exists i :: CutsAt(a, b, s, i)
    case Alt(a, b) => Matches(a, s) || Matches(b, s)
    case Star(a) => s == "" || exists i :: StarCutsAt(a, s, i)
  }

  ghost predicate CutsAt(a: Re, b: Re, s: string, i: int)
    decreases Cat(a, b), |s|, 0
  {
    0 <= i <= |s| && Matches(a, s[..i]) && Matches(b, s[i..])
  }

  ghost predicate StarCutsAt(a: Re, s: string, i: int)
    decreases Star(a), |s|, 0
  {
    0 < i <= |s| && Matches(a, s[..i]) && Matches(Star(a), s[i..])
  }

  function Plus(a: Re): Re {
    Cat(a, Star(a))
  }

  function Opt(a: Re): Re {
    Alt(a, Eps)
  }

  function Lit(t: string): Re {
    if t == "" then Eps else Cat(Class(c => c == t[0]), Lit(t[1..]))
  }

  /** a, n times. */
  function Times(a: Re, n: nat): Re {
    if n == 0 then Eps else Cat(a, Times(a, n - 1))
  }

  // ----- Small languages -----

  lemma CatMatches(a: Re, b: Re, s: string, t: string)
    requires Matches(a, s) && Matches(b, t)
    ensures Matches(Cat(a, b), s + t)
  {
    assert (s + t)[..|s|] == s && (s + t)[|s|..] == t;
    assert CutsAt(a, b, s + t, |s|);
  }

  lemma CatSplits(a: Re, b: Re, s: string) returns (i: nat)
    requires Matches(Cat(a, b), s)
    ensures i <= |s| && Matches(a, s[..i]) && Matches(b, s[i..]) && s == s[..i] + s[i..]
  {
    i :| CutsAt(a, b, s, i);
  }

  lemma StarSplits(a: Re, s: string) returns (i: nat)
    requires Matches(Star(a), s) && s != ""
    ensures 0 < i <= |s| && Matches(a, s[..i]) && Matches(Star(a), s[i..])
  {
    i :| StarCutsAt(a, s, i);
  }

  lemma StarGrows(a: Re, x: string, y: string)
    requires Matches(a, x) && x != "" && Matches(Star(a), y)
    ensures Matches(Star(a), x + y)
  {
    assert (x + y)[..|x|] == x && (x + y)[|x|..] == y;
    assert StarCutsAt(a, x + y, |x|);
  }

  lemma {:induction false} StarOfClass(p: char -> bool, s: string)
    ensures Matches(Star(Class(p)), s) <==> All(s, p)
    decreases |s|
  {
    if s != "" {
      StarOfClass(p, s[1..]);
      assert All(s, p) <==> p(s[0]) && All(s[1..], p) by {
        assert forall i | 1 <= i < |s| :: s[i] == s[1..][i - 1];
      }
      if Matches(Star(Class(p)), s) {
        var i := StarSplits(Class(p), s);
        assert i == 1;
      }
      if All(s, p) {
        StarGrows(Class(p), [s[0]], s[1..]);
        assert s == [s[0]] + s[1..];
      }
    }
  }

  lemma PlusOfClass(p: char -> bool, s: string)
    ensures Matches(Plus(Class(p)), s) <==> s != "" && All(s, p)
  {
    if s != "" {
      StarOfClass(p, s[1..]);
      assert All(s, p) <==> p(s[0]) && All(s[1..], p) by {
        assert forall i | 1 <= i < |s| :: s[i] == s[1..][i - 1];
      }
      if All(s, p) {
        assert CutsAt(Class(p), Star(Class(p)), s, 1);
      }
    }
    if Matches(Plus(Class(p)), s) {
      var i := CatSplits(Class(p), Star(Class(p)), s);
      assert i == 1;
    }
  }

  lemma {:induction false} LitMatches(t: string, s: string)
    ensures Matches(Lit(t), s) <==> s == t
    decreases |t|
  {
    if t != "" {
      var c: char -> bool := x => x == t[0];
      assert Lit(t) == Cat(Lit(t).a, Lit(t[1..]));
      if Matches(Lit(t), s) {
        var i := CatSplits(Lit(t).a, Lit(t[1..]), s);
        LitMatches(t[1..], s[i..]);
        assert s == [t[0]] + t[1..];
      }
      if s == t {
        LitMatches(t[1..], s[1..]);
        assert CutsAt(Lit(t).a, Lit(t[1..]), s, 1);
      }
    }
  }

  lemma {:induction false} TimesOfClass(p: char -> bool, n: nat, s: string)
    ensures Matches(Times(Class(p), n), s) <==> |s| == n && All(s, p)
    decreases n
  {
    if n > 0 {
      if s != "" {
        TimesOfClass(p, n - 1, s[1..]);
        assert All(s, p) <==> p(s[0]) && All(s[1..], p) by {
          assert forall i | 1 <= i < |s| :: s[i] == s[1..][i - 1];
        }
      }
      if Matches(Times(Class(p), n), s) {
        var i := CatSplits(Class(p), Times(Class(p), n - 1), s);
        assert i == 1;
      }
      if |s| == n && All(s, p) {
        assert CutsAt(Class(p), Times(Class(p), n - 1), s, 1);
      }
    }
  }

  // ----- The patterns -----

  const LD: char -> bool := c => LowerOrDigit(c)
  const DASHED: char -> bool := c => c == '-' || LowerOrDigit(c)
  const DIGIT: char -> bool := c => '0' <= c <= '9'
  const WORD: char -> bool := c => 'a' <= c <= 'z' || c == '_'
  const REPO: char -> bool := c => 'a' <= c <= 'z' || 'A' <= c <= 'Z' || '0' <= c <= '9' || c == '.' || c == '_' || c == '-'
  const SERVICE: char -> bool := c => LowerOrDigit(c) || c == '_'

  /** [a-z0-9]([-a-z0-9]*[a-z0-9])? */
  function Label(): Re {
    Cat(Class(LD), Opt(Cat(Star(Class(DASHED)), Class(LD))))
  }

  /** label / label */
  function SubjectKey(): Re {
    Cat(Label(), Cat(Lit("/"), Label()))
  }

  /** vaults/[a-z0-9]{26}/items/[a-z0-9]{26} */
  function OpRef(): Re {
    Cat(Lit("vaults/"), Cat(Times(Class(LD), 26), Cat(Lit("/items/"), Times(Class(LD), 26))))
  }

  /** installations/[0-9]+ */
  function InstallationRef(): Re {
    Cat(Lit("installations/"), Plus(Class(DIGIT)))
  }

  /** [a-z_]+=(read|write|admin) */
  function Permission(): Re {
    Cat(Plus(Class(WORD)), Cat(Lit("="), Alt(Lit("read"), Alt(Lit("write"), Lit("admin")))))
  }

  /** item(,item)* */
  function CommaList(item: Re): Re {
    Cat(item, Star(Cat(Lit(","), item)))
  }

  // ----- Labels and references -----

  lemma LabelTail(s: string)
    ensures Matches(Opt(Cat(Star(Class(DASHED)), Class(LD))), s) <==> s == "" || (All(s, DASHED) && LD(s[|s| - 1]))
  {
    if s != "" {
      var n := |s| - 1;
      StarOfClass(DASHED, s[..n]);
      assert s == s[..n] + [s[n]];
      if All(s, DASHED) && LD(s[n]) {
        assert CutsAt(Star(Class(DASHED)), Class(LD), s, n);
      }
      if Matches(Cat(Star(Class(DASHED)), Class(LD)), s) {
        var i := CatSplits(Star(Class(DASHED)), Class(LD), s);
        assert i == n;
        assert forall k | 0 <= k < |s| :: DASHED(s[k]) by {
          assert forall k | 0 <= k < n :: s[k] == s[..n][k];
        }
      }
    }
  }

  lemma LabelIsPattern(s: string)
    ensures IsLabel(s) <==> Matches(Label(), s)
  {
    if s != "" {
      LabelTail(s[1..]);
      if IsLabel(s) {
        assert All(s[1..], DASHED) by {
          assert All(s, c => c == '-' || LowerOrDigit(c));
          assert forall k | 0 <= k < |s| - 1 :: s[1..][k] == s[k + 1];
        }
        assert CutsAt(Class(LD), Opt(Cat(Star(Class(DASHED)), Class(LD))), s, 1);
      }
    }
    if Matches(Label(), s) {
      var i := CatSplits(Class(LD), Opt(Cat(Star(Class(DASHED)), Class(LD))), s);
      assert i == 1;
      var p := c => c == '-' || LowerOrDigit(c);
      forall k | 0 <= k < |s| ensures p(s[k]) {
        assert k > 0 ==> s[k] == s[1..][k - 1] && DASHED(s[1..][k - 1]);
      }
      assert All(s, p);
    }
  }

  /** The subject pattern, in the policy and in the notify policy. */
  lemma SubjectKeyIsPattern(s: string)
    ensures IsSubjectKey(s) <==> Matches(SubjectKey(), s)
  {
    SubjectKeyShape(s);
    if k: Subject :| IsLabel(k.namespace) && IsLabel(k.serviceAccount) && s == Key(k) {
      LabelIsPattern(k.namespace);
      LabelIsPattern(k.serviceAccount);
      LitMatches("/", "/");
      CatMatches(Lit("/"), Label(), "/", k.serviceAccount);
      CatMatches(Label(), Cat(Lit("/"), Label()), k.namespace, "/" + k.serviceAccount);
      assert s == k.namespace + ("/" + k.serviceAccount);
    }
    if Matches(SubjectKey(), s) {
      var i := CatSplits(Label(), Cat(Lit("/"), Label()), s);
      var j := CatSplits(Lit("/"), Label(), s[i..]);
      LitMatches("/", s[i..][..j]);
      LabelIsPattern(s[..i]);
      LabelIsPattern(s[i..][j..]);
      var k := Subject(s[..i], s[i..][j..]);
      assert s == Key(k);
    }
  }

  /** The four parts of a 1Password reference. */
  ghost predicate OpRefParts(s: string, a: string, b: string, c: string, d: string) {
    s == a + (b + (c + d)) && a == "vaults/" && |b| == 26 && All(b, LD) && c == "/items/" && |d| == 26 && All(d, LD)
  }

  lemma OpRefHasParts(s: string)
    ensures IsOpRef(s) <==> exists a, b, c, d :: OpRefParts(s, a, b, c, d)
  {
    var p := c => LowerOrDigit(c);
    if IsOpRef(s) {
      assert All(s[7..33], p) && All(s[40..], p);
      assert OpRefParts(s, s[..7], s[7..33], s[33..40], s[40..]);
    }
    if a, b, c, d :| OpRefParts(s, a, b, c, d) {
      assert |a| == 7 && |c| == 7 && s[..7] == a && s[7..33] == b && s[33..40] == c && s[40..] == d;
      assert All(b, p) && All(d, p);
    }
  }

  ghost predicate Cuts4(ra: Re, rb: Re, rc: Re, rd: Re, s: string, a: string, b: string, c: string, d: string) {
    s == a + (b + (c + d)) && Matches(ra, a) && Matches(rb, b) && Matches(rc, c) && Matches(rd, d)
  }

  /** Three concatenations in a row. */
  lemma Cat4(ra: Re, rb: Re, rc: Re, rd: Re, s: string)
    ensures Matches(Cat(ra, Cat(rb, Cat(rc, rd))), s) <==> exists a, b, c, d :: Cuts4(ra, rb, rc, rd, s, a, b, c, d)
  {
    if Matches(Cat(ra, Cat(rb, Cat(rc, rd))), s) {
      var i := CatSplits(ra, Cat(rb, Cat(rc, rd)), s);
      Cat3(rb, rc, rd, s[i..]);
      var b, c, d :| Cuts3(rb, rc, rd, s[i..], b, c, d);
      assert Cuts4(ra, rb, rc, rd, s, s[..i], b, c, d);
    }
    if a, b, c, d :| Cuts4(ra, rb, rc, rd, s, a, b, c, d) {
      assert Cuts3(rb, rc, rd, b + (c + d), b, c, d);
      Cat3(rb, rc, rd, b + (c + d));
      CatMatches(ra, Cat(rb, Cat(rc, rd)), a, b + (c + d));
    }
  }

  ghost predicate Cuts3(ra: Re, rb: Re, rc: Re, s: string, a: string, b: string, c: string) {
    s == a + (b + c) && Matches(ra, a) && Matches(rb, b) && Matches(rc, c)
  }

  lemma Rejoin(s: string, t: string, a: string, b: string, c: string)
    requires s == a + t && t == b + c
    ensures s == a + (b + c)
  {
  }

  lemma Cat3Splits(ra: Re, rb: Re, rc: Re, s: string)
    requires Matches(Cat(ra, Cat(rb, rc)), s)
    ensures exists a, b, c :: Cuts3(ra, rb, rc, s, a, b, c)
  {
    var i := CatSplits(ra, Cat(rb, rc), s);
    var a, t := s[..i], s[i..];
    var j := CatSplits(rb, rc, t);
    var b, c := t[..j], t[j..];
    Rejoin(s, t, a, b, c);
    assert Cuts3(ra, rb, rc, s, a, b, c);
  }

  lemma Cat3Matches(ra: Re, rb: Re, rc: Re, s: string, a: string, b: string, c: string)
    requires Cuts3(ra, rb, rc, s, a, b, c)
    ensures Matches(Cat(ra, Cat(rb, rc)), s)
  {
    CatMatches(rb, rc, b, c);
    CatMatches(ra, Cat(rb, rc), a, b + c);
  }

  lemma Cat3(ra: Re, rb: Re, rc: Re, s: string)
    ensures Matches(Cat(ra, Cat(rb, rc)), s) <==> exists a, b, c :: Cuts3(ra, rb, rc, s, a, b, c)
  {
    if Matches(Cat(ra, Cat(rb, rc)), s) {
      Cat3Splits(ra, rb, rc, s);
    }
    if a, b, c :| Cuts3(ra, rb, rc, s, a, b, c) {
      Cat3Matches(ra, rb, rc, s, a, b, c);
    }
  }

  lemma OpRefPartsMatch(s: string, a: string, b: string, c: string, d: string)
    ensures OpRefParts(s, a, b, c, d) <==> Cuts4(Lit("vaults/"), Times(Class(LD), 26), Lit("/items/"), Times(Class(LD), 26), s, a, b, c, d)
  {
    LitMatches("vaults/", a);
    LitMatches("/items/", c);
    TimesOfClass(LD, 26, b);
    TimesOfClass(LD, 26, d);
  }

  lemma OpRefIsPattern(s: string)
    ensures IsOpRef(s) <==> Matches(OpRef(), s)
  {
    var ra, rb, rc := Lit("vaults/"), Times(Class(LD), 26), Lit("/items/");
    OpRefHasParts(s);
    Cat4(ra, rb, rc, rb, s);
    if a, b, c, d :| OpRefParts(s, a, b, c, d) {
      OpRefPartsMatch(s, a, b, c, d);
    }
    if a, b, c, d :| Cuts4(ra, rb, rc, rb, s, a, b, c, d) {
      OpRefPartsMatch(s, a, b, c, d);
    }
  }

  lemma InstallationRefIsPattern(s: string)
    ensures IsInstallationRef(s) <==> Matches(InstallationRef(), s)
  {
    if IsInstallationRef(s) {
      assert s == s[..14] + s[14..];
      LitMatches("installations/", s[..14]);
      PlusOfClass(DIGIT, s[14..]);
      assert All(s[14..], DIGIT) by {
        assert All(s[14..], c => '0' <= c <= '9');
      }
      CatMatches(Lit("installations/"), Plus(Class(DIGIT)), s[..14], s[14..]);
    }
    if Matches(InstallationRef(), s) {
      var i := CatSplits(Lit("installations/"), Plus(Class(DIGIT)), s);
      LitMatches("installations/", s[..i]);
      PlusOfClass(DIGIT, s[i..]);
      assert i == 14;
      var p := c => '0' <= c <= '9';
      assert All(s[14..], p);
    }
  }

  /** The pattern of push targets and of service names. */
  lemma ServiceNameIsPattern(s: string)
    ensures NotifyPolicy.IsServiceName(s) <==> Matches(Plus(Class(SERVICE)), s)
  {
    PlusOfClass(SERVICE, s);
  }

  // ----- Comma-separated lists -----

  /** No item holds a comma. */
  ghost predicate Commaless(item: Re) {
    forall t | Matches(item, t) :: ',' !in t
  }

  lemma {:induction false} ListSplits(item: Re, s: string)
    requires Commaless(item)
    ensures Matches(CommaList(item), s) <==> forall k | 0 <= k < |Split(s, ',')| :: Matches(item, Split(s, ',')[k])
    decreases |s|
  {
    var (before, after, found) := Cut(s, ',');
    CutRejoins(s, ',');
    if found {
      SplitAtSep(before, ',', after);
      ListSplits(item, after);
      assert Split(s, ',') == [before] + Split(after, ',');
      if Matches(CommaList(item), s) {
        ListTail(item, s, before, after);
      }
      if forall k | 0 <= k < |Split(s, ',')| :: Matches(item, Split(s, ',')[k]) {
        assert Matches(item, Split(s, ',')[0]);
        forall k | 0 <= k < |Split(after, ',')| ensures Matches(item, Split(after, ',')[k]) {
          assert Split(s, ',')[k + 1] == Split(after, ',')[k];
        }
        ListGrows(item, before, after);
      }
    } else {
      SplitAtSep(s, ',', "");
      assert Split(s, ',') == [s] && Split(s, ',')[0] == s;
      ListOfOne(item, s);
    }
  }

  /** One more item, with its comma. */
  lemma CommaItem(item: Re, t: string)
    ensures Matches(Cat(Lit(","), item), t) <==> t != "" && t[0] == ',' && Matches(item, t[1..])
  {
    if Matches(Cat(Lit(","), item), t) {
      var k := CatSplits(Lit(","), item, t);
      LitMatches(",", t[..k]);
    }
    if t != "" && t[0] == ',' && Matches(item, t[1..]) {
      LitMatches(",", t[..1]);
      assert CutsAt(Lit(","), item, t, 1);
    }
  }

  /** The items after the first: nothing, or a comma, an item and the rest. */
  lemma MoreItems(item: Re, t: string) returns (j: nat)
    requires Matches(Star(Cat(Lit(","), item)), t) && t != ""
    ensures 0 < j <= |t| && t[0] == ',' && Matches(item, t[1..j]) && Matches(Star(Cat(Lit(","), item)), t[j..])
  {
    j := StarSplits(Cat(Lit(","), item), t);
    CommaItem(item, t[..j]);
    assert t[..j][1..] == t[1..j];
  }

  lemma ListOfOne(item: Re, s: string)
    requires ',' !in s
    ensures Matches(CommaList(item), s) <==> Matches(item, s)
  {
    var more := Star(Cat(Lit(","), item));
    if Matches(item, s) {
      assert Matches(more, "");
      CatMatches(item, more, s, "");
      assert s + "" == s;
    }
    if Matches(CommaList(item), s) {
      var i := CatSplits(item, more, s);
      NothingMore(item, s, i);
      assert s[..i] == s;
    }
  }

  lemma NothingMore(item: Re, s: string, i: nat)
    requires i <= |s| && Matches(Star(Cat(Lit(","), item)), s[i..]) && ',' !in s
    ensures i == |s|
  {
    if s[i..] != "" {
      var j := MoreItems(item, s[i..]);
    }
  }

  /** item , list is a list. */
  lemma ListGrows(item: Re, before: string, after: string)
    requires Matches(item, before) && Matches(CommaList(item), after)
    ensures Matches(CommaList(item), before + [','] + after)
  {
    var more := Star(Cat(Lit(","), item));
    var i := CatSplits(item, more, after);
    var tail := "," + after[..i];
    assert tail[1..] == after[..i];
    CommaItem(item, tail);
    StarGrows(Cat(Lit(","), item), tail, after[i..]);
    CatMatches(item, more, before, tail + after[i..]);
    assert before + (tail + after[i..]) == before + [','] + after;
  }

  /** The rest of a list after its first comma is a list, and what stands before it an item. */
  lemma ListTail(item: Re, s: string, before: string, after: string)
    requires Commaless(item) && Matches(CommaList(item), s) && s == before + [','] + after && ',' !in before
    ensures Matches(item, before) && Matches(CommaList(item), after)
  {
    var more := Star(Cat(Lit(","), item));
    var i := CatSplits(item, more, s);
    FirstComma(s, before, after, s[..i]);
    StartsWithComma(item, s[i..]);
    AtFirstComma(s, before, after, i);
    ListAfterComma(item, after);
  }

  lemma StartsWithComma(item: Re, t: string)
    requires Matches(Star(Cat(Lit(","), item)), t) && t != ""
    ensures t[0] == ','
  {
    var j := MoreItems(item, t);
  }

  lemma TailSlices(c: char, after: string, j: nat)
    requires 0 < j <= |after| + 1
    ensures ([c] + after)[1..j] == after[..j - 1] && ([c] + after)[j..] == after[j - 1..]
  {
  }

  lemma ListAfterComma(item: Re, after: string)
    requires Matches(Star(Cat(Lit(","), item)), [','] + after)
    ensures Matches(CommaList(item), after)
  {
    var t := [','] + after;
    var j := MoreItems(item, t);
    TailSlices(',', after, j);
    CatMatches(item, Star(Cat(Lit(","), item)), after[..j - 1], after[j - 1..]);
    assert after[..j - 1] + after[j - 1..] == after;
  }

  lemma FirstComma(s: string, before: string, after: string, t: string)
    requires s == before + [','] + after && ',' !in before && ',' !in t && t <= s
    ensures |t| <= |before|
  {
    assert s[|before|] == ',';
    assert forall k | 0 <= k < |t| :: t[k] == s[k];
  }

  lemma AtFirstComma(s: string, before: string, after: string, i: nat)
    requires s == before + [','] + after && ',' !in before && i <= |before| && s[i..] != "" && s[i..][0] == ','
    ensures i == |before| && s[..i] == before && s[i..] == [','] + after
  {
    assert forall k | 0 <= k < |before| :: before[k] == s[k];
  }

  // ----- Permissions and repositories -----

  lemma AccessIsPattern(s: string)
    ensures IsAccess(s) <==> Matches(Alt(Lit("read"), Alt(Lit("write"), Lit("admin"))), s)
  {
    LitMatches("read", s);
    LitMatches("write", s);
    LitMatches("admin", s);
  }

  ghost predicate PermissionParts(s: string, k: string, e: string, v: string) {
    s == k + (e + v) && k != "" && All(k, WORD) && e == "=" && IsAccess(v)
  }

  lemma PermissionHasParts(s: string)
    ensures IsPermission(s) <==> exists k, e, v :: PermissionParts(s, k, e, v)
  {
    var (k, v, ok) := Cut(s, '=');
    var p := c => 'a' <= c <= 'z' || c == '_';
    CutRejoins(s, '=');
    if IsPermission(s) {
      assert All(k, p);
      assert PermissionParts(s, k, "=", v);
    }
    if k', e, v' :| PermissionParts(s, k', e, v') {
      assert '=' !in k';
      assert s == k' + ['='] + v' && All(k', p);
      CutAtSep(k', '=', v');
    }
  }

  lemma PermissionPartsMatch(s: string, k: string, e: string, v: string)
    ensures PermissionParts(s, k, e, v) <==>
            Cuts3(Plus(Class(WORD)), Lit("="), Alt(Lit("read"), Alt(Lit("write"), Lit("admin"))), s, k, e, v)
  {
    PlusOfClass(WORD, k);
    LitMatches("=", e);
    AccessIsPattern(v);
  }

  lemma PermissionIsPattern(s: string)
    ensures IsPermission(s) <==> Matches(Permission(), s)
  {
    var word, eq, access := Plus(Class(WORD)), Lit("="), Alt(Lit("read"), Alt(Lit("write"), Lit("admin")));
    PermissionHasParts(s);
    Cat3(word, eq, access, s);
    if k, e, v :| PermissionParts(s, k, e, v) {
      PermissionPartsMatch(s, k, e, v);
    }
    if k, e, v :| Cuts3(word, eq, access, s, k, e, v) {
      PermissionPartsMatch(s, k, e, v);
    }
  }

  lemma AccessCommaless(v: string)
    requires IsAccess(v)
    ensures ',' !in v
  {
    assert v == "read" ==> v[0] != ',' && v[1] != ',' && v[2] != ',' && v[3] != ',';
    assert v == "write" ==> v[0] != ',' && v[1] != ',' && v[2] != ',' && v[3] != ',' && v[4] != ',';
    assert v == "admin" ==> v[0] != ',' && v[1] != ',' && v[2] != ',' && v[3] != ',' && v[4] != ',';
  }

  lemma PermissionsCommaless()
    ensures Commaless(Permission())
  {
    forall t | Matches(Permission(), t) ensures ',' !in t {
      PermissionIsPattern(t);
      PermissionHasParts(t);
      var k, e, v :| PermissionParts(t, k, e, v);
      AccessCommaless(v);
      assert forall n | 0 <= n < |k| :: WORD(k[n]);
      assert ',' !in k && ',' !in e;
    }
  }

  /** permission(,permission)* */
  lemma PermissionsIsPattern(s: string)
    ensures IsPermissions(s) <==> Matches(CommaList(Permission()), s)
  {
    PermissionsCommaless();
    ListSplits(Permission(), s);
    forall k | 0 <= k < |Split(s, ',')| ensures IsPermission(Split(s, ',')[k]) <==> Matches(Permission(), Split(s, ',')[k]) {
      PermissionIsPattern(Split(s, ',')[k]);
    }
  }

  lemma RepoIsPattern(s: string)
    ensures IsRepoName(s) <==> Matches(Plus(Class(REPO)), s)
  {
    PlusOfClass(REPO, s);
    if s != "" {
      var p := c => 'a' <= c <= 'z' || 'A' <= c <= 'Z' || '0' <= c <= '9' || c == '.' || c == '_' || c == '-';
      assert All(s, p) <==> All(s, REPO);
    }
  }

  /** name(,name)* */
  lemma RepositoriesIsPattern(s: string)
    ensures IsRepositories(s) <==> Matches(CommaList(Plus(Class(REPO))), s)
  {
    forall t | Matches(Plus(Class(REPO)), t) ensures ',' !in t {
      PlusOfClass(REPO, t);
      assert forall n | 0 <= n < |t| :: REPO(t[n]);
    }
    ListSplits(Plus(Class(REPO)), s);
    forall k | 0 <= k < |Split(s, ',')| ensures IsRepoName(Split(s, ',')[k]) <==> Matches(Plus(Class(REPO)), Split(s, ',')[k]) {
      RepoIsPattern(Split(s, ',')[k]);
    }
  }

  // ----- What the documents must be -----

  /** A scope as the loader demands it: named, with fields, of a known provider, its reference and its
      parameters matching that provider's patterns. */
  ghost predicate ScopeFits(s: Scope) {
    && s.name != "" && s.fields.Keys != {}
    && (s.provider == "onepassword-connect" || s.provider == "github-app")
    && (s.provider == "onepassword-connect" ==> Matches(OpRef(), s.ref))
    && (s.provider == "github-app" ==> GithubFits(s))
  }

  ghost predicate GithubFits(s: Scope) {
    && Matches(InstallationRef(), s.ref)
    && "permissions" in s.params && Matches(CommaList(Permission()), s.params["permissions"])
    && ("repositories" in s.params ==> s.params["repositories"] == "" || Matches(CommaList(Plus(Class(REPO))), s.params["repositories"]))
    && forall f | f in s.fields :: s.fields[f] == "token"
  }

  ghost predicate GrantFits(g: Grant, cronOk: string -> bool) {
    && 0 < g.ttlDefault && 0 < g.ttlMax && g.ttlDefault <= g.ttlMax
    && forall w | w in g.windows :: cronOk(w.cron) && 0 < w.duration
  }

  /** A whole policy document: scopes with different names, subjects with different keys, each subject's
      grants for different scopes, all of them declared. */
  ghost predicate DocumentFits(scopes: seq<Scope>, subjects: seq<SubjectPolicy>, cronOk: string -> bool) {
    && (forall i | 0 <= i < |scopes| :: ScopeFits(scopes[i]))
    && (forall i, j | 0 <= i < j < |scopes| :: scopes[i].name != scopes[j].name)
    && (forall i | 0 <= i < |subjects| :: SubjectFits(subjects[i], scopes, cronOk))
    && (forall i, j | 0 <= i < j < |subjects| :: subjects[i].serviceAccount != subjects[j].serviceAccount)
  }

  ghost predicate SubjectFits(sp: SubjectPolicy, scopes: seq<Scope>, cronOk: string -> bool) {
    && Matches(SubjectKey(), sp.serviceAccount)
    && (forall j | 0 <= j < |sp.grants| :: GrantFits(sp.grants[j], cronOk) && exists k :: 0 <= k < |scopes| && scopes[k].name == sp.grants[j].scope)
    && (forall i, j | 0 <= i < j < |sp.grants| :: sp.grants[i].scope != sp.grants[j].scope)
  }

  lemma NothingMatchesEmptyPermissions()
    ensures !Matches(CommaList(Permission()), "")
  {
    PermissionsIsPattern("");
    assert Split("", ',')[0] == "" && !IsPermission("");
  }

  lemma ParamsFit(s: Scope)
    ensures IsPermissions(Param(s, "permissions")) <==> "permissions" in s.params && Matches(CommaList(Permission()), s.params["permissions"])
    ensures (Param(s, "repositories") == "" || IsRepositories(Param(s, "repositories"))) <==>
            ("repositories" in s.params ==> s.params["repositories"] == "" || Matches(CommaList(Plus(Class(REPO))), s.params["repositories"]))
  {
    PermissionsIsPattern(Param(s, "permissions"));
    RepositoriesIsPattern(Param(s, "repositories"));
    NothingMatchesEmptyPermissions();
  }

  lemma GithubFitsExactly(s: Scope)
    ensures GithubScopeOk(s) <==> GithubFits(s)
  {
    InstallationRefIsPattern(s.ref);
    ParamsFit(s);
  }

  lemma ScopeFitsExactly(s: Scope)
    ensures ScopeOk(s) <==> ScopeFits(s)
  {
    OpRefIsPattern(s.ref);
    GithubFitsExactly(s);
    assert s.fields != map[] <==> s.fields.Keys != {};
    assert |"onepassword-connect"| == 19 && |"github-app"| == 10;
  }

  lemma GrantFitsExactly(g: Grant, cronOk: string -> bool)
    ensures GrantOk(g, cronOk) <==> GrantFits(g, cronOk)
  {
    if GrantFits(g, cronOk) {
      forall k | 0 <= k < |g.windows| ensures cronOk(g.windows[k].cron) && g.windows[k].duration > 0 {
        assert g.windows[k] in g.windows;
      }
    }
  }

  lemma SubjectFitsExactly(sp: SubjectPolicy, scopes: seq<Scope>, cronOk: string -> bool)
    ensures IsSubjectKey(sp.serviceAccount) && GrantsOk(sp.grants, scopes, cronOk) <==> SubjectFits(sp, scopes, cronOk)
  {
    SubjectKeyIsPattern(sp.serviceAccount);
    forall j | 0 <= j < |sp.grants| ensures GrantOk(sp.grants[j], cronOk) <==> GrantFits(sp.grants[j], cronOk) {
      GrantFitsExactly(sp.grants[j], cronOk);
    }
  }

  lemma ScopesFitExactly(scopes: seq<Scope>)
    ensures ScopesOk(scopes) <==>
            (forall i | 0 <= i < |scopes| :: ScopeFits(scopes[i])) && forall i, j | 0 <= i < j < |scopes| :: scopes[i].name != scopes[j].name
  {
    forall i | 0 <= i < |scopes| ensures ScopeOk(scopes[i]) <==> ScopeFits(scopes[i]) {
      ScopeFitsExactly(scopes[i]);
    }
  }

  lemma SubjectsFitExactly(scopes: seq<Scope>, subjects: seq<SubjectPolicy>, cronOk: string -> bool)
    ensures SubjectsOk(subjects, scopes, cronOk) <==>
            && (forall i | 0 <= i < |subjects| :: SubjectFits(subjects[i], scopes, cronOk))
            && forall i, j | 0 <= i < j < |subjects| :: subjects[i].serviceAccount != subjects[j].serviceAccount
  {
    forall i | 0 <= i < |subjects|
      ensures (IsSubjectKey(subjects[i].serviceAccount) && GrantsOk(subjects[i].grants, scopes, cronOk)) <==> SubjectFits(subjects[i], scopes, cronOk)
    {
      SubjectFitsExactly(subjects[i], scopes, cronOk);
    }
  }

  /** The documents that Parse accepts are exactly those that fit the patterns and the rules. */
  lemma DocumentExactly(scopes: seq<Scope>, subjects: seq<SubjectPolicy>, cronOk: string -> bool)
    ensures ValidDocument(scopes, subjects, cronOk) <==> DocumentFits(scopes, subjects, cronOk)
  {
    ScopesFitExactly(scopes);
    SubjectsFitExactly(scopes, subjects, cronOk);
  }

  /** A notify grant: a push with targets that are service names, or a persistent kind with a prefix. */
  ghost predicate NotifyGrantFits(g: NotifyPolicy.Grant) {
    && g.kind in {"push", "persistent_create", "persistent_dismiss"}
    && (g.kind == "push" ==> g.targets != [] && forall t | t in g.targets :: Matches(Plus(Class(SERVICE)), t))
    && (g.kind != "push" ==> g.idPrefix != "")
  }

  lemma NotifyGrantExactly(g: NotifyPolicy.Grant)
    ensures NotifyPolicy.GrantOk(g) <==> NotifyGrantFits(g)
  {
    forall t ensures NotifyPolicy.IsServiceName(t) <==> Matches(Plus(Class(SERVICE)), t) {
      ServiceNameIsPattern(t);
    }
    assert |"push"| == 4 && |"persistent_create"| == 17 && |"persistent_dismiss"| == 18;
    if NotifyGrantFits(g) && g.kind == "push" {
      forall i | 0 <= i < |g.targets| ensures NotifyPolicy.IsServiceName(g.targets[i]) {
        assert g.targets[i] in g.targets;
      }
    }
  }

  ghost predicate NotifySubjectFits(sp: NotifyPolicy.SubjectPolicy) {
    && Matches(SubjectKey(), sp.serviceAccount) && (forall j | 0 <= j < |sp.grants| :: NotifyGrantFits(sp.grants[j]))
    && (forall i, j | 0 <= i < j < |sp.grants| :: sp.grants[i].kind != sp.grants[j].kind)
  }

  /** The notify documents that Parse accepts are exactly those that fit the patterns and the rules. */
  lemma NotifyDocumentExactly(subjects: seq<NotifyPolicy.SubjectPolicy>)
    ensures NotifyPolicy.ValidDocument(subjects) <==>
            && (forall i | 0 <= i < |subjects| :: NotifySubjectFits(subjects[i]))
            && (forall i, j | 0 <= i < j < |subjects| :: subjects[i].serviceAccount != subjects[j].serviceAccount)
  {
    forall i | 0 <= i < |subjects|
      ensures (IsSubjectKey(subjects[i].serviceAccount) && NotifyPolicy.GrantsOk(subjects[i].grants)) <==> NotifySubjectFits(subjects[i])
    {
      SubjectKeyIsPattern(subjects[i].serviceAccount);
      forall j | 0 <= j < |subjects[i].grants| ensures NotifyPolicy.GrantOk(subjects[i].grants[j]) <==> NotifyGrantFits(subjects[i].grants[j]) {
        NotifyGrantExactly(subjects[i].grants[j]);
      }
    }
  }

  /** The compiled ceiling: two domains, and in the second two services. */
  lemma CeilingExactly(domain: string, service: string)
    ensures Notify.HaAllowed(domain, service) <==>
            || (domain == "notify" && Matches(Plus(Class(SERVICE)), service))
            || (domain == "persistent_notification" && service in {"create", "dismiss"})
  {
    ServiceNameIsPattern(service);
    assert |"notify"| == 6 && |"persistent_notification"| == 23;
  }
}
