/** The parts of Go's strings package the broker's small grammars use. */
module Strings {
  /** unicode.IsSpace. */
  predicate IsSpace(c: char) {
    var x := c as int;
    || 0x09 <= x <= 0x0D || x == 0x20 || x == 0x85 || x == 0xA0 || x == 0x1680
    || 0x2000 <= x <= 0x200A || x == 0x2028 || x == 0x2029 || x == 0x202F || x == 0x205F || x == 0x3000
  }

  function TrimLeft(s: string): string {
    if s != [] && IsSpace(s[0]) then TrimLeft(s[1..]) else s
  }

  function TrimRight(s: string): string {
    if s != [] && IsSpace(s[|s| - 1]) then TrimRight(s[..|s| - 1]) else s
  }

  function TrimSpace(s: string): string {
    TrimRight(TrimLeft(s))
  }

  function Split(s: string, sep: char): (parts: seq<string>)
    ensures parts != []
  {
    if s == [] then [""]
    else
      var rest := Split(s[1..], sep);
      if s[0] == sep then [""] + rest else [[s[0]] + rest[0]] + rest[1..]
  }

  function Join(parts: seq<string>, sep: char): string {
    if parts == [] then ""
    else if |parts| == 1 then parts[0]
    else parts[0] + [sep] + Join(parts[1..], sep)
  }

  /** What stands before and after the first sep, and whether there is one. */
  function Cut(s: string, sep: char): (string, string, bool) {
    if s == [] then ("", "", false)
    else if s[0] == sep then ("", s[1..], true)
    else
      var (before, after, found) := Cut(s[1..], sep);
      ([s[0]] + before, after, found)
  }

  lemma {:induction false} SplitAtSep(p: string, sep: char, rest: string)
    requires sep !in p
    ensures Split(p + [sep] + rest, sep) == [p] + Split(rest, sep)
    ensures Split(p, sep) == [p]
  {
    var s := p + [sep] + rest;
    if p == [] {
      assert s[1..] == rest;
    } else {
      SplitAtSep(p[1..], sep, rest);
      assert s[1..] == p[1..] + [sep] + rest;
      assert [p[0]] + p[1..] == p;
    }
  }

  lemma {:induction false} SplitOfJoin(parts: seq<string>, sep: char)
    requires parts != [] && forall i | 0 <= i < |parts| :: sep !in parts[i]
    ensures Split(Join(parts, sep), sep) == parts
  {
    SplitAtSep(parts[0], sep, Join(parts[1..], sep));
    if |parts| > 1 {
      SplitOfJoin(parts[1..], sep);
    }
  }

  lemma {:induction false} JoinOfSplit(s: string, sep: char)
    ensures Join(Split(s, sep), sep) == s
    ensures forall i | 0 <= i < |Split(s, sep)| :: sep !in Split(s, sep)[i]
  {
    if s != [] {
      JoinOfSplit(s[1..], sep);
      var rest := Split(s[1..], sep);
      assert s == [s[0]] + s[1..];
      if s[0] == sep {
        assert ([""] + rest)[1..] == rest;
      } else {
        var head := [s[0]] + rest[0];
        assert ([head] + rest[1..])[1..] == rest[1..];
        assert |rest| > 1 ==> head + [sep] + Join(rest[1..], sep) == [s[0]] + Join(rest, sep);
      }
    }
  }

  lemma {:induction false} CutAtSep(p: string, sep: char, rest: string)
    requires sep !in p
    ensures Cut(p + [sep] + rest, sep) == (p, rest, true)
  {
    var s := p + [sep] + rest;
    if p == [] {
      assert s[1..] == rest;
    } else {
      CutAtSep(p[1..], sep, rest);
      assert s[1..] == p[1..] + [sep] + rest;
      assert [p[0]] + p[1..] == p;
    }
  }

  lemma {:induction false} CutRejoins(s: string, sep: char)
    ensures var (before, after, found) := Cut(s, sep);
            && sep !in before && (found <==> sep in s)
            && s == if found then before + [sep] + after else before
  {
    if s != [] {
      assert s == [s[0]] + s[1..];
      if s[0] != sep {
        CutRejoins(s[1..], sep);
        var (before, after, found) := Cut(s[1..], sep);
        assert found ==> [s[0]] + (before + [sep] + after) == [s[0]] + before + [sep] + after;
      }
    }
  }

  lemma TrimNothing(s: string)
    requires s == [] || (!IsSpace(s[0]) && !IsSpace(s[|s| - 1]))
    ensures TrimSpace(s) == s
  {
  }

  ghost predicate Blank(s: string) {
    forall i | 0 <= i < |s| :: IsSpace(s[i])
  }

  lemma {:induction false} TrimLeftExactly(s: string)
    ensures exists a :: Blank(a) && s == a + TrimLeft(s)
    ensures TrimLeft(s) == "" || !IsSpace(TrimLeft(s)[0])
  {
    if s != [] && IsSpace(s[0]) {
      TrimLeftExactly(s[1..]);
      var a :| Blank(a) && s[1..] == a + TrimLeft(s[1..]);
      assert Blank([s[0]] + a) && s == [s[0]] + a + TrimLeft(s);
    } else {
      assert Blank("") && s == "" + TrimLeft(s);
    }
  }

  lemma {:induction false} TrimRightExactly(s: string)
    ensures exists b :: Blank(b) && s == TrimRight(s) + b
    ensures TrimRight(s) == "" || !IsSpace(TrimRight(s)[|TrimRight(s)| - 1])
    ensures TrimRight(s) <= s
  {
    if s != [] && IsSpace(s[|s| - 1]) {
      var n := |s| - 1;
      TrimRightExactly(s[..n]);
      var b :| Blank(b) && s[..n] == TrimRight(s[..n]) + b;
      assert Blank(b + [s[n]]) && s == TrimRight(s) + (b + [s[n]]);
    } else {
      assert Blank("") && s == TrimRight(s) + "";
    }
  }

  /** TrimSpace takes off the space at both ends, all of it, and nothing else. */
  lemma TrimSpaceExactly(s: string)
    ensures var t := TrimSpace(s);
            && (exists a, b :: Blank(a) && Blank(b) && s == a + t + b)
            && (t == "" || (!IsSpace(t[0]) && !IsSpace(t[|t| - 1])))
  {
    var l := TrimLeft(s);
    TrimLeftExactly(s);
    TrimRightExactly(l);
    var a :| Blank(a) && s == a + l;
    var b :| Blank(b) && l == TrimRight(l) + b;
    assert s == a + TrimSpace(s) + b;
  }
}
